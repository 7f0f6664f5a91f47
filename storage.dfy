/**
 * The naming rules of `SupabaseService`: where an upload is stored, the public
 * URL handed back for it, and how `deleteFile` and `deleteNftDescriptors`
 * turn such a URL back into object paths.
 */
module Storage {
  import opened Wrappers
  import opened Text
  import opened Uri

  /** The bucket every call of the application uses (the parameters' default). */
  const DefaultBucket: string := "ar-assets"

  const PublicObjectPath: string := "/storage/v1/object/public/"

  /** The suffixes of an NFT target's three descriptors, in the order they are removed and probed. */
  const DescriptorExtensions: seq<string> := [".fset", ".fset3", ".iset"]

  /** An object of the store: its bucket and its path inside the bucket. */
  datatype ObjectKey = ObjectKey(bucket: string, path: string)

  function KeysOf(bucket: string, paths: seq<string>): (ks: set<ObjectKey>)
    ensures forall p :: ObjectKey(bucket, p) in ks <==> p in paths
    ensures forall k :: k in ks ==> k.bucket == bucket
  {
    set p | p in paths :: ObjectKey(bucket, p)
  }

  /** `${uid}/${Date.now()}-${name.replace(/\s+/g, '-')}`, with the clock reading passed in as `now`. */
  function UploadPath(uid: string, now: nat, name: string): string {
    uid + "/" + NatToString(now) + "-" + HyphenateWhitespace(name)
  }

  /** The stored path sits in the user's folder and its file part holds no whitespace. */
  lemma UploadPathShape(uid: string, now: nat, name: string)
    ensures StartsWith(UploadPath(uid, now, name), uid + "/")
    ensures NoWhitespace(UploadPath(uid, now, name)[|uid| + 1..])
  {
    var path := UploadPath(uid, now, name);
    var digits := NatToString(now);
    var safe := HyphenateWhitespace(name);
    HyphenateRemovesWhitespace(name);
    assert path == (uid + "/") + (digits + "-" + safe);
    assert path[|uid| + 1..] == digits + "-" + safe;
    forall i | 0 <= i < |digits + "-" + safe|
      ensures !IsWhitespace((digits + "-" + safe)[i])
    {
      if i < |digits| {
        assert IsDigit(digits[i]);
      } else if i > |digits| {
        assert (digits + "-" + safe)[i] == safe[i - |digits| - 1];
      }
    }
  }

  /** The number of leading decimal digits of a string. */
  function DigitRun(s: string): (n: nat)
    ensures n <= |s|
  {
    if s != [] && IsDigit(s[0]) then 1 + DigitRun(s[1..]) else 0
  }

  lemma {:induction false} DigitRunLength(digits: string, rest: string)
    requires forall i :: 0 <= i < |digits| ==> IsDigit(digits[i])
    ensures DigitRun(digits + "-" + rest) == |digits|
  {
    if digits != [] {
      assert (digits + "-" + rest)[1..] == digits[1..] + "-" + rest;
      DigitRunLength(digits[1..], rest);
    }
  }

  /** A run of digits followed by `-` is recovered from the text it starts. */
  lemma DigitsThenDash(d1: string, h1: string, d2: string, h2: string)
    requires forall i :: 0 <= i < |d1| ==> IsDigit(d1[i])
    requires forall i :: 0 <= i < |d2| ==> IsDigit(d2[i])
    requires d1 + "-" + h1 == d2 + "-" + h2
    ensures d1 == d2 && h1 == h2
  {
    DigitRunLength(d1, h1);
    DigitRunLength(d2, h2);
    var r := d1 + "-" + h1;
    assert d1 == r[..|d1|] && h1 == r[|d1| + 1..];
    assert d2 == r[..|d2|] && h2 == r[|d2| + 1..];
  }

  /** Two uploads by the same user land on the same path only if they were made at the same millisecond under the same sanitised name. */
  lemma UploadPathsCollideOnlyAtSameInstant(uid: string, t1: nat, n1: string, t2: nat, n2: string)
    requires UploadPath(uid, t1, n1) == UploadPath(uid, t2, n2)
    ensures t1 == t2
    ensures HyphenateWhitespace(n1) == HyphenateWhitespace(n2)
  {
    var d1, d2 := NatToString(t1), NatToString(t2);
    var h1, h2 := HyphenateWhitespace(n1), HyphenateWhitespace(n2);
    var p1, p2 := UploadPath(uid, t1, n1), UploadPath(uid, t2, n2);
    var prefix := uid + "/";
    AppendAssociative(prefix, d1, "-");
    AppendAssociative(prefix, d1 + "-", h1);
    AppendAssociative(prefix, d2, "-");
    AppendAssociative(prefix, d2 + "-", h2);
    assert (prefix + (d1 + "-" + h1))[|prefix|..] == d1 + "-" + h1;
    assert (prefix + (d2 + "-" + h2))[|prefix|..] == d2 + "-" + h2;
    DigitsThenDash(d1, h1, d2, h2);
    NatToStringInjective(t1, t2);
  }

  /** The URL `uploadImage` and `uploadFile` return for a stored path. */
  function PublicUrl(supabaseUrl: string, bucket: string, path: string): string {
    supabaseUrl + PublicObjectPath + bucket + "/" + EncodeURIComponent(path)
  }

  /** `supabaseUrl.replace(/\/$/, '')`: one trailing slash removed. */
  function StripTrailingSlash(u: string): string {
    if u != [] && u[|u| - 1] == '/' then u[..|u| - 1] else u
  }

  /** The prefix `deleteFile` and `deleteNftDescriptors` cut from a decoded URL. */
  function RemovalPrefix(supabaseUrl: string, bucket: string): string {
    StripTrailingSlash(supabaseUrl) + PublicObjectPath + bucket + "/"
  }

  /** `s.slice(n)` for `n >= 0`. */
  function Slice(s: string, n: nat): string {
    if n <= |s| then s[n..] else []
  }

  /**
   * The path `deleteFile` removes for a public URL: the URL up to its first
   * `?`, decoded, without as many leading characters as the prefix has. The
   * prefix itself is not compared. `None` where decoding throws `URIError`.
   */
  function PathOfPublicUrl(supabaseUrl: string, bucket: string, url: string): Option<string> {
    match DecodeURIComponent(Split(url, '?')[0])
    case None => None
    case Some(clean) => Some(Slice(clean, |RemovalPrefix(supabaseUrl, bucket)|))
  }

  /** `extensions.map(ext => relativePath + ext)`. */
  function DescriptorPaths(relativePath: string): (ps: seq<string>)
    ensures |ps| == |DescriptorExtensions|
    ensures forall i :: 0 <= i < |ps| ==> ps[i] == relativePath + DescriptorExtensions[i]
  {
    [relativePath + ".fset", relativePath + ".fset3", relativePath + ".iset"]
  }

  /** The three paths `deleteNftDescriptors` removes for an NFT base URL. */
  function DescriptorPathsOfUrl(supabaseUrl: string, bucket: string, base: string): Option<seq<string>> {
    match PathOfPublicUrl(supabaseUrl, bucket, base)
    case None => None
    case Some(relativePath) => Some(DescriptorPaths(relativePath))
  }

  /** What the round trip from a public URL back to its path needs of the configuration. */
  predicate PlainBase(supabaseUrl: string, bucket: string) {
    '?' !in supabaseUrl && '%' !in supabaseUrl && '?' !in bucket && '%' !in bucket
  }

  lemma PrefixIsPlain(supabaseUrl: string, bucket: string)
    requires PlainBase(supabaseUrl, bucket)
    ensures '?' !in supabaseUrl + PublicObjectPath + bucket + "/"
    ensures '%' !in supabaseUrl + PublicObjectPath + bucket + "/"
  {
  }

  /** Decoding a public URL of a configuration without `?` and `%` gives its prefix followed by the stored path. */
  lemma DecodePublicUrl(supabaseUrl: string, bucket: string, path: string)
    requires PlainBase(supabaseUrl, bucket)
    ensures Split(PublicUrl(supabaseUrl, bucket, path), '?')[0] == PublicUrl(supabaseUrl, bucket, path)
    ensures DecodeURIComponent(PublicUrl(supabaseUrl, bucket, path))
            == Some(supabaseUrl + PublicObjectPath + bucket + "/" + path)
  {
    var prefix := supabaseUrl + PublicObjectPath + bucket + "/";
    var encoded := EncodeURIComponent(path);
    PrefixIsPlain(supabaseUrl, bucket);
    assert PublicUrl(supabaseUrl, bucket, path) == prefix + encoded;
    SplitWithoutSeparator(prefix + encoded, '?');
    DecodePlainPrefix(prefix, encoded);
    DecodeEncode(path);
  }

  /** Without a trailing slash on the base URL, `deleteFile` of an uploaded object's URL removes exactly that object's path. */
  lemma RemovalPathRoundTrip(supabaseUrl: string, bucket: string, path: string)
    requires PlainBase(supabaseUrl, bucket)
    requires !EndsWith(supabaseUrl, "/")
    ensures PathOfPublicUrl(supabaseUrl, bucket, PublicUrl(supabaseUrl, bucket, path)) == Some(path)
  {
    DecodePublicUrl(supabaseUrl, bucket, path);
    var prefix := supabaseUrl + PublicObjectPath + bucket + "/";
    assert StripTrailingSlash(supabaseUrl) == supabaseUrl;
    assert RemovalPrefix(supabaseUrl, bucket) == prefix;
    assert (prefix + path)[|prefix|..] == path;
  }

  /** With a trailing slash on the base URL, the upload URL holds `//` and the path `deleteFile` derives gains a leading `/`. */
  lemma RemovalPathWithTrailingSlash(host: string, bucket: string, path: string)
    requires PlainBase(host + "/", bucket)
    ensures PathOfPublicUrl(host + "/", bucket, PublicUrl(host + "/", bucket, path)) == Some("/" + path)
  {
    var supabaseUrl := host + "/";
    DecodePublicUrl(supabaseUrl, bucket, path);
    var prefix := supabaseUrl + PublicObjectPath + bucket + "/";
    assert StripTrailingSlash(supabaseUrl) == host;
    var cut := |RemovalPrefix(supabaseUrl, bucket)|;
    assert cut == |prefix| - 1;
    assert prefix[cut] == '/';
    assert (prefix + path)[cut..] == "/" + path;
  }

  /** The base URL recorded for an NFT folder leads `deleteNftDescriptors` to the folder's three descriptor paths. */
  lemma DescriptorRemovalRoundTrip(supabaseUrl: string, bucket: string, folder: string)
    requires PlainBase(supabaseUrl, bucket)
    requires !EndsWith(supabaseUrl, "/")
    ensures DescriptorPathsOfUrl(supabaseUrl, bucket, PublicUrl(supabaseUrl, bucket, folder))
            == Some([folder + ".fset", folder + ".fset3", folder + ".iset"])
  {
    RemovalPathRoundTrip(supabaseUrl, bucket, folder);
  }
}
