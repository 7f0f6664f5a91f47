/**
 * `SupabaseService`: the object store and the `targets` table as state of the
 * service, with what a remote call reports (an error it returns, a probe's
 * response) passed in as a parameter.
 */
module Supabase {
  import opened Wrappers
  import opened Domain
  import opened Storage

  /** What a `fetch(url, { method: 'HEAD' })` gives: a response with its status, or a thrown network error. */
  datatype Probe = Responded(status: nat) | NetworkError

  /** The line `verifyNftDescriptors` logs for one descriptor URL. */
  datatype ProbeReport = Found(url: string) | StatusError(status: nat, url: string) | AccessFailed(url: string)

  /** `res.ok` is a status in 200..299; any other status is logged with its code, a thrown probe as a failed access. */
  function Report(url: string, p: Probe): (r: ProbeReport)
    ensures r.url == url
    ensures r.Found? <==> p.Responded? && 200 <= p.status < 300
    ensures r.StatusError? <==> p.Responded? && !(200 <= p.status < 300)
    ensures r.StatusError? ==> r.status == p.status
  {
    match p
    case Responded(status) => if 200 <= status < 300 then Found(url) else StatusError(status, url)
    case NetworkError => AccessFailed(url)
  }

  /** The error `.single()` raises when the id matches no row or several. */
  const NotSingleRow: Thrown := ErrorObject("JSON object requested, multiple (or no) rows returned")

  /** The error `decodeURIComponent` throws on a malformed escape. */
  const UriMalformed: Thrown := ErrorObject("URI malformed")

  // ---------------------------------------------------------------------------
  // deleteTarget's clean-up plan

  /** The three URL columns `deleteTarget` cleans up. */
  datatype Slot = ContentSlot | NftSlot | PatternSlot

  function SlotRank(s: Slot): nat {
    match s
    case ContentSlot => 0
    case NftSlot => 1
    case PatternSlot => 2
  }

  /** One removal `deleteTarget` attempts: a file by its URL, or the NFT descriptors by their base URL. */
  datatype Cleanup = Cleanup(slot: Slot, url: string)

  /** The removal for one column: exactly one, for the column's URL, when the column holds a non-empty URL; none otherwise. */
  function CleanupFor(slot: Slot, column: Option<string>): (cs: seq<Cleanup>)
    ensures |cs| <= 1
    ensures |cs| == 1 <==> Truthy(column)
    ensures forall c :: c in cs ==> c.slot == slot && c.url != "" && Some(c.url) == column
    ensures Truthy(column) <==> Cleanup(slot, column.GetOr("")) in cs
  {
    if Truthy(column) then [Cleanup(slot, column.value)] else []
  }

  /** The column of a row that a slot names. */
  function SlotColumn(row: Target, s: Slot): Option<string> {
    match s
    case ContentSlot => row.contentUrl
    case NftSlot => row.nftUrlBase
    case PatternSlot => row.patternUrl
  }

  /** The removals `deleteTarget` attempts for a row, in the order it attempts them. */
  function Cleanups(row: Target): (cs: seq<Cleanup>)
    ensures forall i, j :: 0 <= i < j < |cs| ==> SlotRank(cs[i].slot) < SlotRank(cs[j].slot)
    ensures Truthy(row.contentUrl) <==> Cleanup(ContentSlot, row.contentUrl.GetOr("")) in cs
    ensures Truthy(row.nftUrlBase) <==> Cleanup(NftSlot, row.nftUrlBase.GetOr("")) in cs
    ensures Truthy(row.patternUrl) <==> Cleanup(PatternSlot, row.patternUrl.GetOr("")) in cs
    ensures forall c :: c in cs ==> c.url != ""
  {
    var content := CleanupFor(ContentSlot, row.contentUrl);
    var nft := CleanupFor(NftSlot, row.nftUrlBase);
    var pattern := CleanupFor(PatternSlot, row.patternUrl);
    InEitherPart(content + nft, pattern);
    InEitherPart(content, nft);
    content + nft + pattern
  }

  /** Each removal is for the URL its slot's column holds. */
  lemma CleanupsReadColumns(row: Target)
    ensures forall c :: c in Cleanups(row) ==> Some(c.url) == SlotColumn(row, c.slot)
  {
    var content := CleanupFor(ContentSlot, row.contentUrl);
    var nft := CleanupFor(NftSlot, row.nftUrlBase);
    var pattern := CleanupFor(PatternSlot, row.patternUrl);
    InEitherPart(content + nft, pattern);
    InEitherPart(content, nft);
  }

  lemma InEitherPart(a: seq<Cleanup>, b: seq<Cleanup>)
    ensures forall c :: c in a + b <==> c in a || c in b
  {
  }

  /** What the store reports for each call `deleteTarget` makes; `None` is success. */
  datatype DeleteFaults = DeleteFaults(
    lookup: Option<Thrown>,
    content: Option<Thrown>,
    nft: Option<Thrown>,
    pattern: Option<Thrown>,
    delete: Option<Thrown>)

  function SlotFault(f: DeleteFaults, s: Slot): Option<Thrown> {
    match s
    case ContentSlot => f.content
    case NftSlot => f.nft
    case PatternSlot => f.pattern
  }

  /** The paths one removal targets; `None` where decoding its URL throws. */
  function CleanupPaths(supabaseUrl: string, c: Cleanup): Option<seq<string>> {
    if c.slot == NftSlot then DescriptorPathsOfUrl(supabaseUrl, DefaultBucket, c.url)
    else match PathOfPublicUrl(supabaseUrl, DefaultBucket, c.url)
      case None => None
      case Some(p) => Some([p])
  }

  /** Whether a removal throws: its URL does not decode, or the store reports an error. */
  predicate CleanupFails(supabaseUrl: string, c: Cleanup, f: DeleteFaults) {
    CleanupPaths(supabaseUrl, c).None? || SlotFault(f, c.slot).Some?
  }

  /**
   * The objects left after the removals of one `try` block: the first one
   * that throws ends the block, and the rest are not attempted.
   */
  function RunCleanups(objects: map<ObjectKey, File>, supabaseUrl: string, cs: seq<Cleanup>, f: DeleteFaults)
    : map<ObjectKey, File>
    decreases |cs|
  {
    if cs == [] || CleanupFails(supabaseUrl, cs[0], f) then objects
    else RunCleanups(objects - KeysOf(DefaultBucket, CleanupPaths(supabaseUrl, cs[0]).value), supabaseUrl, cs[1..], f)
  }

  /** Clean-up only ever removes objects: nothing is added or changed. */
  lemma {:induction false} CleanupOnlyRemoves(objects: map<ObjectKey, File>, supabaseUrl: string, cs: seq<Cleanup>, f: DeleteFaults)
    ensures RunCleanups(objects, supabaseUrl, cs, f).Keys <= objects.Keys
    ensures forall k :: k in RunCleanups(objects, supabaseUrl, cs, f) ==> RunCleanups(objects, supabaseUrl, cs, f)[k] == objects[k]
  {
    if cs != [] && !CleanupFails(supabaseUrl, cs[0], f) {
      CleanupOnlyRemoves(objects - KeysOf(DefaultBucket, CleanupPaths(supabaseUrl, cs[0]).value), supabaseUrl, cs[1..], f);
    }
  }

  /** Once a removal throws, the removals after it have no effect. */
  lemma {:induction false} CleanupStopsAtFirstFailure(objects: map<ObjectKey, File>, supabaseUrl: string,
                                                      done: seq<Cleanup>, rest: seq<Cleanup>, f: DeleteFaults)
    requires rest != [] && CleanupFails(supabaseUrl, rest[0], f)
    ensures RunCleanups(objects, supabaseUrl, done + rest, f) == RunCleanups(objects, supabaseUrl, done, f)
  {
    if done == [] {
      assert done + rest == rest;
    } else {
      assert (done + rest)[0] == done[0];
      assert (done + rest)[1..] == done[1..] + rest;
      if !CleanupFails(supabaseUrl, done[0], f) {
        CleanupStopsAtFirstFailure(objects - KeysOf(DefaultBucket, CleanupPaths(supabaseUrl, done[0]).value),
                                   supabaseUrl, done[1..], rest, f);
      }
    }
  }

  /** The union of the objects a list of removals targets. */
  function CleanupKeys(supabaseUrl: string, cs: seq<Cleanup>): set<ObjectKey>
    requires forall c :: c in cs ==> CleanupPaths(supabaseUrl, c).Some?
  {
    if cs == [] then {}
    else KeysOf(DefaultBucket, CleanupPaths(supabaseUrl, cs[0]).value) + CleanupKeys(supabaseUrl, cs[1..])
  }

  /** When no removal throws, every targeted object is gone and every other object stays. */
  lemma {:induction false} CleanupRemovesAllWhenNoneFails(objects: map<ObjectKey, File>, supabaseUrl: string,
                                                          cs: seq<Cleanup>, f: DeleteFaults)
    requires forall c :: c in cs ==> CleanupPaths(supabaseUrl, c).Some? && SlotFault(f, c.slot).None?
    ensures RunCleanups(objects, supabaseUrl, cs, f) == objects - CleanupKeys(supabaseUrl, cs)
  {
    if cs != [] {
      var first := KeysOf(DefaultBucket, CleanupPaths(supabaseUrl, cs[0]).value);
      assert forall c :: c in cs[1..] ==> c in cs;
      CleanupRemovesAllWhenNoneFails(objects - first, supabaseUrl, cs[1..], f);
      assert objects - first - CleanupKeys(supabaseUrl, cs[1..]) == objects - CleanupKeys(supabaseUrl, cs);
    }
  }

  /** Two removals that both succeed remove both their targets and nothing else. */
  lemma CleanupPairRemovesBoth(objects: map<ObjectKey, File>, supabaseUrl: string, c: Cleanup, d: Cleanup, f: DeleteFaults)
    requires CleanupPaths(supabaseUrl, c).Some? && SlotFault(f, c.slot).None?
    requires CleanupPaths(supabaseUrl, d).Some? && SlotFault(f, d.slot).None?
    ensures RunCleanups(objects, supabaseUrl, [c, d], f)
            == objects - KeysOf(DefaultBucket, CleanupPaths(supabaseUrl, c).value)
                       - KeysOf(DefaultBucket, CleanupPaths(supabaseUrl, d).value)
  {
    var first := objects - KeysOf(DefaultBucket, CleanupPaths(supabaseUrl, c).value);
    assert [c, d][0] == c && [c, d][1..] == [d];
    assert RunCleanups(objects, supabaseUrl, [c, d], f) == RunCleanups(first, supabaseUrl, [d], f);
    assert [d][1..] == [];
    assert RunCleanups(first, supabaseUrl, [d], f) == first - KeysOf(DefaultBucket, CleanupPaths(supabaseUrl, d).value);
  }

  lemma CleanupStep(objects: map<ObjectKey, File>, supabaseUrl: string, c: Cleanup, rest: seq<Cleanup>, f: DeleteFaults)
    ensures RunCleanups(objects, supabaseUrl, [c] + rest, f)
            == if CleanupFails(supabaseUrl, c, f) then objects
               else RunCleanups(objects - KeysOf(DefaultBucket, CleanupPaths(supabaseUrl, c).value), supabaseUrl, rest, f)
  {
    assert ([c] + rest)[0] == c;
    assert ([c] + rest)[1..] == rest;
  }

  /** The store after `deleteTarget`, and what the call returns or throws. */
  datatype DeleteOutcome = DeleteOutcome(objects: map<ObjectKey, File>, rows: seq<Target>, result: Result<bool, Thrown>)

  /**
   * `deleteTarget` on a store: a failed lookup, or an id matching no row or
   * several, throws before anything is touched; otherwise the clean-up runs,
   * and the row is deleted whatever the clean-up did.
   */
  function DeleteTargetSpec(objects: map<ObjectKey, File>, rows: seq<Target>, supabaseUrl: string,
                            id: string, f: DeleteFaults): (o: DeleteOutcome)
    ensures f.lookup.Some? ==> o == DeleteOutcome(objects, rows, Failure(f.lookup.value))
    ensures f.lookup.None? && |WithId(rows, id)| != 1 ==> o == DeleteOutcome(objects, rows, Failure(NotSingleRow))
    ensures o.result.Success? <==> f.lookup.None? && |WithId(rows, id)| == 1 && f.delete.None?
    ensures o.result.Success? ==> o.result.value && o.rows == WithoutId(rows, id)
    ensures o.result.Failure? ==> o.rows == rows
    ensures o.objects.Keys <= objects.Keys
    ensures forall k :: k in o.objects ==> o.objects[k] == objects[k]
  {
    if f.lookup.Some? then DeleteOutcome(objects, rows, Failure(f.lookup.value))
    else if |WithId(rows, id)| != 1 then DeleteOutcome(objects, rows, Failure(NotSingleRow))
    else
      var left := RunCleanups(objects, supabaseUrl, Cleanups(WithId(rows, id)[0]), f);
      CleanupOnlyRemoves(objects, supabaseUrl, Cleanups(WithId(rows, id)[0]), f);
      if f.delete.Some? then DeleteOutcome(left, rows, Failure(f.delete.value))
      else DeleteOutcome(left, WithoutId(rows, id), Success(true))
  }

  // ---------------------------------------------------------------------------
  // updateTarget

  /** The columns an update sets (`editTarget` sends `name` and `type`); `None` leaves a column as it is. */
  datatype Patch = Patch(name: Option<string>, kind: Option<Kind>)

  function Apply(t: Target, p: Patch): (u: Target)
    ensures u.id == t.id && u.userId == t.userId
    ensures u.name == p.name.GetOr(t.name) && u.kind == p.kind.GetOr(t.kind)
    ensures u.(name := t.name, kind := t.kind) == t
  {
    t.(name := p.name.GetOr(t.name), kind := p.kind.GetOr(t.kind))
  }

  /** The table after `.update(patch).eq('id', id)`: the matching rows patched, every other row and the order kept. */
  function Updated(rows: seq<Target>, id: string, p: Patch): (r: seq<Target>)
    ensures |r| == |rows|
    ensures forall i :: 0 <= i < |rows| ==> r[i] == if rows[i].id == id then Apply(rows[i], p) else rows[i]
  {
    if rows == [] then [] else [if rows[0].id == id then Apply(rows[0], p) else rows[0]] + Updated(rows[1..], id, p)
  }

  /** An update never moves a row from one user's listing to another's: listing after updating is updating the listing. */
  lemma {:induction false} UpdatedOwnedBy(rows: seq<Target>, id: string, p: Patch, userId: string)
    ensures OwnedBy(Updated(rows, id, p), userId) == Updated(OwnedBy(rows, userId), id, p)
  {
    if rows != [] {
      var u := Updated(rows, id, p);
      assert u[1..] == Updated(rows[1..], id, p);
      UpdatedOwnedBy(rows[1..], id, p, userId);
      if rows[0].userId == userId {
        assert OwnedBy(rows, userId) == [rows[0]] + OwnedBy(rows[1..], userId);
        assert Updated(OwnedBy(rows, userId), id, p)
            == [u[0]] + Updated(OwnedBy(rows[1..], userId), id, p);
      } else {
        assert OwnedBy(rows, userId) == OwnedBy(rows[1..], userId);
      }
    }
  }

  // ---------------------------------------------------------------------------
  // the service

  class SupabaseService {
    /** `environment.supabaseUrl`. */
    const supabaseUrl: string
    /** The object store, across buckets. */
    var objects: map<ObjectKey, File>
    /** The `targets` table, in store order. */
    var rows: seq<Target>

    constructor (supabaseUrl: string)
      ensures this.supabaseUrl == supabaseUrl
      ensures objects == map[] && rows == []
    {
      this.supabaseUrl := supabaseUrl;
      objects := map[];
      rows := [];
    }

    /** `listTargets`: the user's rows, or the store's error. */
    method ListTargets(userId: string, fault: Option<Thrown>) returns (r: Result<seq<Target>, Thrown>)
      ensures fault.Some? ==> r == Failure(fault.value)
      ensures fault.None? ==> r == Success(OwnedBy(rows, userId))
      ensures r.Success? ==> forall t :: t in r.value <==> t in rows && t.userId == userId
    {
      if fault.Some? {
        return Failure(fault.value);
      }
      OwnedByMembers(rows, userId);
      return Success(OwnedBy(rows, userId));
    }

    /** `storage.from(bucket).upload(path, file, { upsert: true })`: the object is written or overwritten. */
    method StorageUpload(bucket: string, path: string, file: File, fault: Option<Thrown>)
      returns (r: Result<string, Thrown>)
      modifies this
      ensures rows == old(rows)
      ensures fault.Some? ==> r == Failure(fault.value) && objects == old(objects)
      ensures fault.None? ==> r == Success(path) && objects == old(objects)[ObjectKey(bucket, path) := file]
    {
      if fault.Some? {
        return Failure(fault.value);
      }
      objects := objects[ObjectKey(bucket, path) := file];
      return Success(path);
    }

    /** `storage.from(bucket).remove(paths)`: all the paths in one call; a missing object is not an error. */
    method StorageRemove(bucket: string, paths: seq<string>, fault: Option<Thrown>)
      returns (r: Result<(), Thrown>)
      modifies this
      ensures rows == old(rows)
      ensures fault.Some? ==> r == Failure(fault.value) && objects == old(objects)
      ensures fault.None? ==> r == Success(()) && objects == old(objects) - KeysOf(bucket, paths)
    {
      if fault.Some? {
        return Failure(fault.value);
      }
      objects := objects - KeysOf(bucket, paths);
      return Success(());
    }

    /** `uploadImage`: stores the file under a timestamped, whitespace-free name and returns its public URL. */
    method UploadImage(uid: string, file: File, bucket: string, now: nat, fault: Option<Thrown>)
      returns (r: Result<string, Thrown>)
      modifies this
      ensures rows == old(rows)
      ensures fault.Some? ==> r == Failure(fault.value) && objects == old(objects)
      ensures fault.None? ==>
                var path := UploadPath(uid, now, file.name);
                r == Success(PublicUrl(supabaseUrl, bucket, path))
                && objects == old(objects)[ObjectKey(bucket, path) := file]
    {
      var path := UploadPath(uid, now, file.name);
      var stored := StorageUpload(bucket, path, file, fault);
      if stored.Failure? {
        return Failure(stored.error);
      }
      return Success(PublicUrl(supabaseUrl, bucket, stored.value));
    }

    /** `uploadFile`: the same naming and URL as `uploadImage`. */
    method UploadFile(uid: string, file: File, bucket: string, now: nat, fault: Option<Thrown>)
      returns (r: Result<string, Thrown>)
      modifies this
      ensures rows == old(rows)
      ensures fault.Some? ==> r == Failure(fault.value) && objects == old(objects)
      ensures fault.None? ==>
                var path := UploadPath(uid, now, file.name);
                r == Success(PublicUrl(supabaseUrl, bucket, path))
                && objects == old(objects)[ObjectKey(bucket, path) := file]
    {
      var safeName := Text.HyphenateWhitespace(file.name);
      var path := uid + "/" + Text.NatToString(now) + "-" + safeName;
      var stored := StorageUpload(bucket, path, file, fault);
      if stored.Failure? {
        return Failure(stored.error);
      }
      return Success(PublicUrl(supabaseUrl, bucket, stored.value));
    }

    /** `deleteFile`: removes the path derived from a public URL; throws `URIError` when the URL does not decode. */
    method DeleteFile(publicUrl: string, bucket: string, fault: Option<Thrown>) returns (r: Result<(), Thrown>)
      modifies this
      ensures rows == old(rows)
      ensures PathOfPublicUrl(supabaseUrl, bucket, publicUrl).None? ==>
                r == Failure(UriMalformed) && objects == old(objects)
      ensures PathOfPublicUrl(supabaseUrl, bucket, publicUrl).Some? && fault.Some? ==>
                r == Failure(fault.value) && objects == old(objects)
      ensures PathOfPublicUrl(supabaseUrl, bucket, publicUrl).Some? && fault.None? ==>
                r == Success(())
                && objects == old(objects) - {ObjectKey(bucket, PathOfPublicUrl(supabaseUrl, bucket, publicUrl).value)}
    {
      var filePath := PathOfPublicUrl(supabaseUrl, bucket, publicUrl);
      if filePath.None? {
        return Failure(UriMalformed);
      }
      assert KeysOf(bucket, [filePath.value]) == {ObjectKey(bucket, filePath.value)};
      r := StorageRemove(bucket, [filePath.value], fault);
    }

    /** `deleteNftDescriptors`: removes the `.fset`, `.fset3` and `.iset` objects under a base URL in one call. */
    method DeleteNftDescriptors(nftUrlBase: string, bucket: string, fault: Option<Thrown>)
      returns (r: Result<(), Thrown>)
      modifies this
      ensures rows == old(rows)
      ensures DescriptorPathsOfUrl(supabaseUrl, bucket, nftUrlBase).None? ==>
                r == Failure(UriMalformed) && objects == old(objects)
      ensures DescriptorPathsOfUrl(supabaseUrl, bucket, nftUrlBase).Some? && fault.Some? ==>
                r == Failure(fault.value) && objects == old(objects)
      ensures DescriptorPathsOfUrl(supabaseUrl, bucket, nftUrlBase).Some? && fault.None? ==>
                r == Success(())
                && objects == old(objects) - KeysOf(bucket, DescriptorPathsOfUrl(supabaseUrl, bucket, nftUrlBase).value)
    {
      var relativePath := PathOfPublicUrl(supabaseUrl, bucket, nftUrlBase);
      if relativePath.None? {
        return Failure(UriMalformed);
      }
      var files := DescriptorPaths(relativePath.value);
      r := StorageRemove(bucket, files, fault);
    }

    /** `verifyNftDescriptors`: probes the three descriptor URLs in order; a failed probe is reported and the next one still runs. */
    method VerifyNftDescriptors(nftUrlBase: string, probe: string -> Probe) returns (log: seq<ProbeReport>)
      ensures |log| == |DescriptorExtensions|
      ensures forall i :: 0 <= i < |log| ==>
                log[i] == Report(nftUrlBase + DescriptorExtensions[i], probe(nftUrlBase + DescriptorExtensions[i]))
    {
      log := [];
      for i := 0 to |DescriptorExtensions|
        invariant |log| == i
        invariant forall j :: 0 <= j < i ==>
                    log[j] == Report(nftUrlBase + DescriptorExtensions[j], probe(nftUrlBase + DescriptorExtensions[j]))
      {
        var url := nftUrlBase + DescriptorExtensions[i];
        log := log + [Report(url, probe(url))];
      }
    }

    /** `saveTarget`: inserts the row under the id the store assigns and returns the inserted row. */
    method SaveTarget(draft: Target, newId: string, fault: Option<Thrown>) returns (r: Result<seq<Target>, Thrown>)
      modifies this
      ensures objects == old(objects)
      ensures fault.Some? ==> r == Failure(fault.value) && rows == old(rows)
      ensures fault.None? ==> r == Success([draft.(id := newId)]) && rows == old(rows) + [draft.(id := newId)]
    {
      if fault.Some? {
        return Failure(fault.value);
      }
      rows := rows + [draft.(id := newId)];
      return Success([draft.(id := newId)]);
    }

    /** `updateTarget`: patches the rows with the id and returns them as they now are. */
    method UpdateTarget(id: string, p: Patch, fault: Option<Thrown>) returns (r: Result<seq<Target>, Thrown>)
      modifies this
      ensures objects == old(objects)
      ensures fault.Some? ==> r == Failure(fault.value) && rows == old(rows)
      ensures fault.None? ==> rows == Updated(old(rows), id, p) && r == Success(WithId(rows, id))
    {
      if fault.Some? {
        return Failure(fault.value);
      }
      rows := Updated(rows, id, p);
      return Success(WithId(rows, id));
    }

    /** One statement of `deleteTarget`'s `try` block: `deleteFile` for a file column, `deleteNftDescriptors` for the NFT base. */
    method AttemptCleanup(c: Cleanup, f: DeleteFaults, ghost rest: seq<Cleanup>) returns (failed: bool)
      modifies this
      ensures rows == old(rows)
      ensures failed == CleanupFails(supabaseUrl, c, f)
      ensures failed ==> objects == old(objects)
      ensures RunCleanups(old(objects), supabaseUrl, [c] + rest, f)
              == if failed then objects else RunCleanups(objects, supabaseUrl, rest, f)
    {
      CleanupStep(objects, supabaseUrl, c, rest, f);
      var removed;
      if c.slot == NftSlot {
        removed := DeleteNftDescriptors(c.url, DefaultBucket, SlotFault(f, c.slot));
      } else {
        removed := DeleteFile(c.url, DefaultBucket, SlotFault(f, c.slot));
        if removed.Success? {
          assert KeysOf(DefaultBucket, CleanupPaths(supabaseUrl, c).value)
              == {ObjectKey(DefaultBucket, PathOfPublicUrl(supabaseUrl, DefaultBucket, c.url).value)};
        }
      }
      failed := removed.Failure?;
    }

    /** One `if` of `deleteTarget`'s `try` block: the column's removal, unless an earlier one threw. */
    method CleanupColumn(failed: bool, slot: Slot, column: Option<string>, f: DeleteFaults, ghost rest: seq<Cleanup>)
      returns (failedAfter: bool)
      modifies this
      ensures rows == old(rows)
      ensures failed ==> failedAfter && objects == old(objects)
      ensures !failed ==> RunCleanups(old(objects), supabaseUrl, CleanupFor(slot, column) + rest, f)
                          == if failedAfter then objects else RunCleanups(objects, supabaseUrl, rest, f)
    {
      failedAfter := failed;
      if !failed && Truthy(column) {
        assert CleanupFor(slot, column) + rest == [Cleanup(slot, column.value)] + rest;
        failedAfter := AttemptCleanup(Cleanup(slot, column.value), f, rest);
      } else if !failed {
        assert CleanupFor(slot, column) + rest == rest;
      }
    }

    /** The `try` block of `deleteTarget`: its errors are swallowed, so it reports nothing. */
    method CleanUpRow(row: Target, f: DeleteFaults)
      modifies this
      ensures rows == old(rows)
      ensures objects == RunCleanups(old(objects), supabaseUrl, Cleanups(row), f)
    {
      ghost var nft, pattern := CleanupFor(NftSlot, row.nftUrlBase), CleanupFor(PatternSlot, row.patternUrl);
      assert Cleanups(row) == CleanupFor(ContentSlot, row.contentUrl) + (nft + pattern);
      assert pattern + [] == pattern;
      var failed := CleanupColumn(false, ContentSlot, row.contentUrl, f, nft + pattern);
      failed := CleanupColumn(failed, NftSlot, row.nftUrlBase, f, pattern);
      failed := CleanupColumn(failed, PatternSlot, row.patternUrl, f, []);
    }

    /**
     * `deleteTarget`: looks the row up, attempts its clean-up in one `try`
     * block whose errors are swallowed, then deletes the row whatever the
     * clean-up did.
     */
    method DeleteTarget(id: string, f: DeleteFaults) returns (r: Result<bool, Thrown>)
      modifies this
      ensures DeleteOutcome(objects, rows, r) == DeleteTargetSpec(old(objects), old(rows), supabaseUrl, id, f)
    {
      if f.lookup.Some? {
        return Failure(f.lookup.value);
      }
      var matching := WithId(rows, id);
      if |matching| != 1 {
        return Failure(NotSingleRow);
      }
      CleanUpRow(matching[0], f);

      if f.delete.Some? {
        return Failure(f.delete.value);
      }
      rows := WithoutId(rows, id);
      return Success(true);
    }
  }
}
