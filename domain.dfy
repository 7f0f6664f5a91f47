/**
 * The records the application passes around: a selected file, a row of the
 * `targets` table (the `ARTarget` interface), the signed-in user and the
 * values a failed call throws.
 */
module Domain {
  import opened Wrappers

  /** A file of the browser's selection: its name and its MIME type (`File.type`). */
  datatype File = File(name: string, mimeType: string)

  /** The three target types. */
  datatype Kind = Nft | Marker | Image

  function KindName(k: Kind): string {
    match k
    case Nft => "nft"
    case Marker => "marker"
    case Image => "image"
  }

  /**
   * A row of the `targets` table. Optional columns are `None` when the row
   * leaves them out. A row built on the client carries the placeholder id ""
   * until the store assigns its own on insert.
   */
  datatype Target = Target(
    id: string,
    name: string,
    kind: Kind,
    userId: string,
    nftUrlBase: Option<string>,
    patternUrl: Option<string>,
    contentUrl: Option<string>,
    scale: Option<string>,
    position: Option<string>,
    rotation: Option<string>,
    width: Option<string>,
    height: Option<string>,
    markerPreset: Option<string>)

  /** JavaScript truthiness of an optional string: present and not empty. */
  predicate Truthy(o: Option<string>) {
    o.Some? && o.value != ""
  }

  /** A value a failed call throws: an `Error` carrying its message, or anything else. */
  datatype Thrown = ErrorObject(message: string) | OtherValue

  /** The text shown for a caught value: its message when it is an `Error`. */
  function ErrorText(e: Thrown, fallback: string): string {
    match e
    case ErrorObject(m) => m
    case OtherValue => fallback
  }

  /** The rows of `rows` owned by `userId`, in store order (`.eq('user_id', userId)`). */
  function OwnedBy(rows: seq<Target>, userId: string): (r: seq<Target>)
    ensures |r| <= |rows|
  {
    if rows == [] then []
    else (if rows[0].userId == userId then [rows[0]] else []) + OwnedBy(rows[1..], userId)
  }

  /** Exactly the rows owned by the user are listed. */
  lemma {:induction false} OwnedByMembers(rows: seq<Target>, userId: string)
    ensures forall t :: t in OwnedBy(rows, userId) <==> t in rows && t.userId == userId
  {
    if rows != [] {
      OwnedByMembers(rows[1..], userId);
      assert rows == [rows[0]] + rows[1..];
    }
  }

  /** Listing keeps the store's order: appending a row appends it to the listing when it is owned. */
  lemma {:induction false} OwnedByAppend(rows: seq<Target>, t: Target, userId: string)
    ensures OwnedBy(rows + [t], userId)
            == OwnedBy(rows, userId) + (if t.userId == userId then [t] else [])
  {
    if rows == [] {
      assert rows + [t] == [t];
    } else {
      var head := if rows[0].userId == userId then [rows[0]] else [];
      var last := if t.userId == userId then [t] else [];
      assert (rows + [t])[1..] == rows[1..] + [t];
      OwnedByAppend(rows[1..], t, userId);
      assert OwnedBy(rows + [t], userId) == head + (OwnedBy(rows[1..], userId) + last);
      assert head + (OwnedBy(rows[1..], userId) + last) == (head + OwnedBy(rows[1..], userId)) + last;
    }
  }

  /** Listing keeps the store's order: the listing of a concatenation is the listing of each part, in turn. */
  lemma {:induction false} OwnedByConcat(a: seq<Target>, b: seq<Target>, userId: string)
    ensures OwnedBy(a + b, userId) == OwnedBy(a, userId) + OwnedBy(b, userId)
  {
    if a == [] {
      assert a + b == b;
    } else {
      var head := if a[0].userId == userId then [a[0]] else [];
      assert (a + b)[0] == a[0];
      assert (a + b)[1..] == a[1..] + b;
      OwnedByConcat(a[1..], b, userId);
      assert OwnedBy(a + b, userId) == head + (OwnedBy(a[1..], userId) + OwnedBy(b, userId));
      assert head + (OwnedBy(a[1..], userId) + OwnedBy(b, userId)) == (head + OwnedBy(a[1..], userId)) + OwnedBy(b, userId);
    }
  }

  /** The rows whose id is `id` (`.eq('id', id)`). */
  function WithId(rows: seq<Target>, id: string): (r: seq<Target>)
    ensures forall t :: t in r <==> t in rows && t.id == id
  {
    if rows == [] then []
    else (if rows[0].id == id then [rows[0]] else []) + WithId(rows[1..], id)
  }

  /** The rows left after `.delete().eq('id', id)`. */
  function WithoutId(rows: seq<Target>, id: string): (r: seq<Target>)
    ensures forall t :: t in r <==> t in rows && t.id != id
  {
    if rows == [] then []
    else (if rows[0].id != id then [rows[0]] else []) + WithoutId(rows[1..], id)
  }
}
