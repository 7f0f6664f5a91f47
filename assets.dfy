/**
 * The pure rules of the home page's upload flow: which selections pass the
 * extension check, how a selection is classified, where each NFT descriptor
 * is stored, and the target record built for each kind of upload.
 */
module Assets {
  import opened Wrappers
  import opened Text
  import opened Domain
  import opened Storage

  // ---------------------------------------------------------------------------
  // validation (onFilesSelected)

  /** The extensions `onFilesSelected` accepts, compared against the lower-cased name. */
  const AllowedExtensions: seq<string> := [".iset", ".fset", ".fset3", ".patt", ".jpg", ".jpeg", ".png"]

  predicate Allowed(f: File) {
    exists e :: e in AllowedExtensions && EndsWith(ToLower(f.name), e)
  }

  /** The files the extension check rejects, in selection order. */
  function InvalidFiles(files: seq<File>): (r: seq<File>)
    ensures forall f :: f in r <==> f in files && !Allowed(f)
    ensures |r| <= |files|
  {
    if files == [] then []
    else (if Allowed(files[0]) then [] else [files[0]]) + InvalidFiles(files[1..])
  }

  /** A selection passes exactly when every file ends with an allowed extension. */
  lemma {:induction false} InvalidFilesEmptyIff(files: seq<File>)
    ensures InvalidFiles(files) == [] <==> forall i :: 0 <= i < |files| ==> Allowed(files[i])
  {
    if InvalidFiles(files) == [] {
      forall i | 0 <= i < |files| ensures Allowed(files[i]) {
        assert files[i] in files;
      }
    } else {
      var f := InvalidFiles(files)[0];
      assert f in InvalidFiles(files);
    }
  }

  // ---------------------------------------------------------------------------
  // classification (uploadAssets)

  /** The suffixes that make a file an NFT descriptor, compared case-sensitively. */
  const DescriptorSuffixes: seq<string> := [".iset", ".fset", ".fset3"]

  predicate IsDescriptor(f: File) {
    EndsWith(f.name, ".iset") || EndsWith(f.name, ".fset") || EndsWith(f.name, ".fset3")
  }

  predicate IsPattern(f: File) {
    EndsWith(f.name, ".patt")
  }

  predicate IsImage(f: File) {
    StartsWith(f.mimeType, "image/")
  }

  /** `nftFiles`: the descriptors of the selection, in selection order. */
  function Descriptors(files: seq<File>): (ds: seq<File>)
    ensures forall f :: f in ds <==> f in files && IsDescriptor(f)
    ensures |ds| <= |files|
  {
    if files == [] then []
    else (if IsDescriptor(files[0]) then [files[0]] else []) + Descriptors(files[1..])
  }

  /** `nftFiles[0]` is the first descriptor of the selection, the one `find` would return. */
  lemma {:induction false} FirstDescriptorIsFound(files: seq<File>)
    ensures Find(files, IsDescriptor) == if Descriptors(files) == [] then None else Some(Descriptors(files)[0])
  {
    if files != [] && !IsDescriptor(files[0]) {
      FirstDescriptorIsFound(files[1..]);
    }
  }

  /** Filtering keeps selection order: the descriptors of a concatenation are those of each part, in turn. */
  lemma {:induction false} DescriptorsAppend(a: seq<File>, b: seq<File>)
    ensures Descriptors(a + b) == Descriptors(a) + Descriptors(b)
  {
    if a == [] {
      assert a + b == b;
    } else {
      DescriptorsAppend(a[1..], b);
      DescriptorsConsAppend(a[0], a[1..], b);
      assert [a[0]] + a[1..] == a;
    }
  }

  /** The inductive step of `DescriptorsAppend`: a file put in front of both sides. */
  lemma DescriptorsConsAppend(x: File, t: seq<File>, b: seq<File>)
    requires Descriptors(t + b) == Descriptors(t) + Descriptors(b)
    ensures Descriptors([x] + t + b) == Descriptors([x] + t) + Descriptors(b)
  {
    assert [x] + t + b == [x] + (t + b);
    DescriptorsStep(x, t + b);
    DescriptorsStep(x, t);
    GroupFiles(if IsDescriptor(x) then [x] else [], Descriptors(t), Descriptors(b));
  }

  /** One step of `Descriptors`: the first file, kept when it is a descriptor, then the rest. */
  lemma DescriptorsStep(f: File, rest: seq<File>)
    ensures Descriptors([f] + rest) == (if IsDescriptor(f) then [f] else []) + Descriptors(rest)
  {
    assert ([f] + rest)[1..] == rest;
  }

  lemma GroupFiles(a: seq<File>, b: seq<File>, c: seq<File>)
    ensures a + (b + c) == (a + b) + c
  {
  }

  /** The number of descriptors is the number of files a descriptor suffix ends. */
  function DescriptorCount(files: seq<File>): nat {
    if files == [] then 0 else (if IsDescriptor(files[0]) then 1 else 0) + DescriptorCount(files[1..])
  }

  /** `nftFiles.length` counts every descriptor of the selection, one per file. */
  lemma {:induction false} DescriptorsLength(files: seq<File>)
    ensures |Descriptors(files)| == DescriptorCount(files)
  {
    if files != [] {
      DescriptorsLength(files[1..]);
    }
  }

  /** `Array.prototype.find`: the first file satisfying `p`. */
  function Find(files: seq<File>, p: File -> bool): (r: Option<File>)
    ensures r.None? <==> forall i :: 0 <= i < |files| ==> !p(files[i])
    ensures r.Some? ==> exists i :: 0 <= i < |files| && files[i] == r.value && p(r.value)
                                    && forall j :: 0 <= j < i ==> !p(files[j])
  {
    if files == [] then None
    else if p(files[0]) then Some(files[0])
    else
      var r := Find(files[1..], p);
      if r.Some? then
        var i :| 0 <= i < |files[1..]| && files[1..][i] == r.value && p(r.value)
                  && forall j :: 0 <= j < i ==> !p(files[1..][j]);
        assert files[i + 1] == r.value;
        r
      else r
  }

  /** What `uploadAssets` does with a selection. */
  datatype Plan =
    | NftPlan(descriptors: seq<File>, imageFile: Option<File>)
    | MarkerPlan(pattern: File)
    | ImagePlan(image: File)
    | NoPlan

  /** The first matching rule: three descriptors, else a `.patt` file, else an image, else nothing. */
  function Classify(files: seq<File>): (p: Plan)
    ensures p.NftPlan? <==> |Descriptors(files)| == 3
    ensures p.NftPlan? ==> p.descriptors == Descriptors(files) && p.imageFile == Find(files, IsImage)
    ensures p.MarkerPlan? <==>
              |Descriptors(files)| != 3 && exists i :: 0 <= i < |files| && IsPattern(files[i])
    ensures p.MarkerPlan? ==> p.pattern in files && IsPattern(p.pattern) && Some(p.pattern) == Find(files, IsPattern)
    ensures p.ImagePlan? <==>
              |Descriptors(files)| != 3 && (forall i :: 0 <= i < |files| ==> !IsPattern(files[i]))
              && exists i :: 0 <= i < |files| && IsImage(files[i])
    ensures p.ImagePlan? ==> p.image in files && IsImage(p.image) && Some(p.image) == Find(files, IsImage)
  {
    var nftFiles := Descriptors(files);
    var pattFile := Find(files, IsPattern);
    var imageFile := Find(files, IsImage);
    if |nftFiles| == 3 then NftPlan(nftFiles, imageFile)
    else if pattFile.Some? then MarkerPlan(pattFile.value)
    else if imageFile.Some? then ImagePlan(imageFile.value)
    else NoPlan
  }

  /** Validation lower-cases the name and classification does not: an upper-case `.ISET` file passes the check but is no descriptor. */
  lemma UpperCaseDescriptorIsNotClassified(stem: string)
    ensures Allowed(File(stem + ".ISET", ""))
    ensures !IsDescriptor(File(stem + ".ISET", ""))
  {
    UpperCaseIsetIsAllowed(stem);
    var name := stem + ".ISET";
    assert name[|name| - 1] == 'T';
  }

  /** Lower-casing `.ISET` gives `.iset`, an allowed extension. */
  lemma UpperCaseIsetIsAllowed(stem: string)
    ensures Allowed(File(stem + ".ISET", ""))
  {
    var lower := ToLower(stem + ".ISET");
    ToLowerAppend(stem, ".ISET");
    assert ToLower(".ISET") == ".iset";
    assert lower[|lower| - 5..] == ".iset";
    assert EndsWith(lower, AllowedExtensions[0]);
  }

  // ---------------------------------------------------------------------------
  // where the NFT descriptors go

  /** `name.replace(/\.(iset|fset|fset3)$/, '')`: a name ends with at most one of the three suffixes, and loses it. */
  function StripDescriptorExtension(name: string): (stem: string)
    ensures EndsWith(name, ".iset") ==> stem + ".iset" == name
    ensures EndsWith(name, ".fset") ==> stem + ".fset" == name
    ensures EndsWith(name, ".fset3") ==> stem + ".fset3" == name
    ensures !IsDescriptor(File(name, "")) ==> stem == name
  {
    if EndsWith(name, ".iset") then
      assert name == name[..|name| - 5] + ".iset";
      name[..|name| - 5]
    else if EndsWith(name, ".fset") then
      assert name == name[..|name| - 5] + ".fset";
      name[..|name| - 5]
    else if EndsWith(name, ".fset3") then
      assert name == name[..|name| - 6] + ".fset3";
      name[..|name| - 6]
    else name
  }

  /** No name ends with two of the descriptor suffixes: they differ in their last two characters. */
  lemma DescriptorSuffixesExclusive(name: string)
    ensures !(EndsWith(name, ".iset") && EndsWith(name, ".fset"))
    ensures !(EndsWith(name, ".fset3") && (EndsWith(name, ".iset") || EndsWith(name, ".fset")))
  {
    if EndsWith(name, ".fset3") {
      assert name[|name| - 1] == '3';
    }
    if EndsWith(name, ".iset") {
      assert name[|name| - 4] == 'i';
    }
  }

  /** `file.name.split('.').pop()`: the text after the last dot, or the whole name. */
  function DescriptorExtension(f: File): string {
    Last(Split(f.name, '.'))
  }

  /** `${uid}/${baseName}`: the folder named after the first descriptor. */
  function NftFolder(uid: string, first: File): string {
    uid + "/" + StripDescriptorExtension(first.name)
  }

  /** `${folder}.${ext}`. */
  function DescriptorPath(folder: string, f: File): string {
    folder + "." + DescriptorExtension(f)
  }

  /** A file whose name ends with a dot and then no other dot (`suffix`) is stored at its folder plus that suffix. */
  lemma DescriptorPathSuffix(folder: string, f: File, suffix: string)
    requires |suffix| >= 1 && suffix[0] == '.' && '.' !in suffix[1..] && EndsWith(f.name, suffix)
    ensures DescriptorPath(folder, f) == folder + suffix
  {
    var name := f.name;
    var stem := name[..|name| - |suffix|];
    var ext := suffix[1..];
    assert suffix == ['.'] + ext;
    assert name == stem + ['.'] + ext;
    AfterLastSeparator(stem, ext, '.');
  }

  /** Every descriptor is stored at one of the three paths `deleteNftDescriptors` removes for its folder. */
  lemma DescriptorPathIsRemovable(folder: string, f: File)
    requires IsDescriptor(f)
    ensures DescriptorPath(folder, f) in DescriptorPaths(folder)
  {
    if EndsWith(f.name, ".iset") {
      DescriptorPathSuffix(folder, f, ".iset");
    } else if EndsWith(f.name, ".fset") {
      DescriptorPathSuffix(folder, f, ".fset");
    } else {
      DescriptorPathSuffix(folder, f, ".fset3");
    }
  }

  lemma StemKeepsName(uid: string, f: File, suffix: string)
    requires |suffix| >= 1 && suffix[0] == '.' && '.' !in suffix[1..] && EndsWith(f.name, suffix)
    requires StripDescriptorExtension(f.name) + suffix == f.name
    ensures DescriptorPath(NftFolder(uid, f), f) == uid + "/" + f.name
  {
    var prefix, stem := uid + "/", StripDescriptorExtension(f.name);
    DescriptorPathSuffix(NftFolder(uid, f), f, suffix);
    AppendAssociative(prefix, stem, suffix);
  }

  /** The first descriptor is stored under the user's folder with its own file name. */
  lemma FirstDescriptorKeepsItsName(uid: string, f: File)
    requires IsDescriptor(f)
    ensures DescriptorPath(NftFolder(uid, f), f) == uid + "/" + f.name
  {
    DescriptorSuffixesExclusive(f.name);
    if EndsWith(f.name, ".iset") {
      StemKeepsName(uid, f, ".iset");
    } else if EndsWith(f.name, ".fset") {
      StemKeepsName(uid, f, ".fset");
    } else {
      StemKeepsName(uid, f, ".fset3");
    }
  }

  // ---------------------------------------------------------------------------
  // the records

  /** The marker size recorded for every NFT target. */
  const NftMarkerWidth: nat := 616
  const NftMarkerHeight: nat := 900

  /** The NFT record: named after the folder, pointing at the folder's public URL, with the fixed size. */
  function NftRecord(supabaseUrl: string, uid: string, first: File, contentUrl: string): (t: Target)
    ensures t.kind == Nft && t.userId == uid && t.name == StripDescriptorExtension(first.name)
    ensures t.nftUrlBase == Some(PublicUrl(supabaseUrl, DefaultBucket, NftFolder(uid, first)))
    ensures t.contentUrl == Some(contentUrl) && t.patternUrl == None
    ensures t.width == Some("616") && t.height == Some("900")
  {
    assert NatToString(6) == "6" && NatToString(9) == "9";
    assert NatToString(61) == "61" && NatToString(90) == "90";
    assert NatToString(616) == "616";
    assert NatToString(900) == "900";
    Target("", StripDescriptorExtension(first.name), Nft, uid,
           Some(PublicUrl(supabaseUrl, DefaultBucket, NftFolder(uid, first))), None, Some(contentUrl),
           None, None, None, Some(NatToString(NftMarkerWidth)), Some(NatToString(NftMarkerHeight)), None)
  }

  /** The marker record: named after the `.patt` file, pointing at its public URL. */
  function MarkerRecord(uid: string, pattern: File, publicUrl: string): (t: Target)
    ensures t.kind == Marker && t.userId == uid && t.name == pattern.name
    ensures t.patternUrl == Some(publicUrl) && t.nftUrlBase == None && t.contentUrl == None
  {
    Target("", pattern.name, Marker, uid, None, Some(publicUrl), None, None, None, None, None, None, None)
  }

  /** The image record: named after the image, pointing at its public URL. */
  function ImageRecord(uid: string, image: File, publicUrl: string): (t: Target)
    ensures t.kind == Image && t.userId == uid && t.name == image.name
    ensures t.contentUrl == Some(publicUrl) && t.nftUrlBase == None && t.patternUrl == None
  {
    Target("", image.name, Image, uid, None, None, Some(publicUrl), None, None, None, None, None, None)
  }
}
