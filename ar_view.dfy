/**
 * `ArViewComponent`: the size a target is drawn at, the key a target is
 * tracked by, loading the user's targets with a probe of every NFT target's
 * descriptors, and the detection flag the scene's events switch.
 */
module ArView {
  import opened Wrappers
  import opened Text
  import opened Domain
  import opened Storage
  import opened Supabase
  import opened Auth

  const DefaultWidth: string := "20"
  const DefaultHeight: string := "30"

  /** `getWidth`: the width column, else the first word of `scale`, else `'20'`. */
  function GetWidth(t: Target): (w: string)
    ensures w != ""
    ensures Truthy(t.width) ==> w == t.width.value
    ensures !Truthy(t.width) && !Truthy(t.scale) ==> w == DefaultWidth
  {
    if Truthy(t.width) then t.width.value
    else if Truthy(t.scale) then
      var parts := Split(t.scale.value, ' ');
      if parts[0] != "" then parts[0] else DefaultWidth
    else DefaultWidth
  }

  /** `getHeight`: the height column, else the second word of `scale`, else `'30'`. */
  function GetHeight(t: Target): (h: string)
    ensures h != ""
    ensures Truthy(t.height) ==> h == t.height.value
    ensures !Truthy(t.height) && !Truthy(t.scale) ==> h == DefaultHeight
  {
    if Truthy(t.height) then t.height.value
    else if Truthy(t.scale) then
      var parts := Split(t.scale.value, ' ');
      if |parts| > 1 && parts[1] != "" then parts[1] else DefaultHeight
    else DefaultHeight
  }

  /** A scale `"w h"` of two words gives the width and the height when the columns are empty or absent. */
  lemma ScaleGivesWidthAndHeight(t: Target, w: string, h: string)
    requires !Truthy(t.width) && !Truthy(t.height)
    requires w != "" && h != "" && ' ' !in w && ' ' !in h
    requires t.scale == Some(w + " " + h)
    ensures GetWidth(t) == w && GetHeight(t) == h
  {
    SplitAtSeparator(w, h, ' ');
    SplitWithoutSeparator(w, ' ');
    SplitWithoutSeparator(h, ' ');
  }

  /** The width is the text before the first space of the scale, `'20'` when that text is empty. */
  lemma ScaleWidthIsFirstWord(t: Target, w: string, rest: string)
    requires !Truthy(t.width)
    requires ' ' !in w
    requires t.scale == Some(w + " " + rest)
    ensures GetWidth(t) == if w != "" then w else DefaultWidth
  {
    assert w + " " + rest == w + [' '] + rest;
    SplitAtSeparator(w, rest, ' ');
    SplitWithoutSeparator(w, ' ');
  }

  /** The height is the text between the first and the second space of the scale (or its end), `'30'` when that text is empty. */
  lemma ScaleHeightIsSecondWord(t: Target, w: string, h: string, tail: string)
    requires !Truthy(t.height)
    requires ' ' !in w && ' ' !in h
    requires tail == "" || tail[0] == ' '
    requires t.scale == Some(w + " " + h + tail)
    ensures GetHeight(t) == if h != "" then h else DefaultHeight
  {
    assert w + " " + h + tail == w + [' '] + (h + tail);
    SplitAtSeparator(w, h + tail, ' ');
    SplitWithoutSeparator(w, ' ');
    SplitHead(h, tail, ' ');
    if tail != "" {
      assert tail == [' '] + tail[1..];
      SplitCons(' ', tail[1..], ' ');
    }
  }

  /** A scale of one word gives the width, and the height falls back to `'30'`. */
  lemma OneWordScale(t: Target, w: string)
    requires !Truthy(t.width) && !Truthy(t.height)
    requires w != "" && ' ' !in w
    requires t.scale == Some(w)
    ensures GetWidth(t) == w && GetHeight(t) == DefaultHeight
  {
    SplitWithoutSeparator(w, ' ');
  }

  /** A scale starting with a space has an empty first word: the width falls back to `'20'`. */
  lemma LeadingSpaceScale(t: Target, rest: string)
    requires !Truthy(t.width)
    requires t.scale == Some(" " + rest)
    ensures GetWidth(t) == DefaultWidth
  {
    SplitCons(' ', rest, ' ');
  }

  /** `trackByTargetId`: the row's id, whatever its position. */
  function TrackByTargetId(index: int, t: Target): (key: string)
    ensures key == t.id
  {
    t.id
  }

  /** The NFT targets `ngOnInit` verifies, by base URL, in list order. */
  function VerifiedBases(ts: seq<Target>): (bases: seq<string>)
    ensures |bases| <= |ts|
  {
    if ts == [] then []
    else
      var last := ts[|ts| - 1];
      VerifiedBases(ts[..|ts| - 1]) + (if last.kind == Nft && Truthy(last.nftUrlBase) then [last.nftUrlBase.value] else [])
  }

  /** The bases are verified in list order: those of a concatenation are those of each part, in turn. */
  lemma {:induction false} VerifiedBasesAppend(a: seq<Target>, b: seq<Target>)
    ensures VerifiedBases(a + b) == VerifiedBases(a) + VerifiedBases(b)
    decreases |b|
  {
    if b == [] {
      assert a + b == a;
    } else {
      var init := b[..|b| - 1];
      var last := b[|b| - 1];
      var tailBase := if last.kind == Nft && Truthy(last.nftUrlBase) then [last.nftUrlBase.value] else [];
      assert (a + b)[..|a + b| - 1] == a + init;
      assert (a + b)[|a + b| - 1] == last;
      VerifiedBasesAppend(a, init);
      assert VerifiedBases(a + b) == (VerifiedBases(a) + VerifiedBases(init)) + tailBase;
      assert VerifiedBases(b) == VerifiedBases(init) + tailBase;
    }
  }

  /** Exactly the NFT targets with a non-empty base URL are verified. */
  lemma {:induction false} VerifiedBasesMembers(ts: seq<Target>)
    ensures forall b :: b in VerifiedBases(ts) <==>
              exists t :: t in ts && t.kind == Nft && Truthy(t.nftUrlBase) && t.nftUrlBase.value == b
  {
    if ts != [] {
      var init := ts[..|ts| - 1];
      VerifiedBasesMembers(init);
      assert ts == init + [ts[|ts| - 1]];
      forall b | b in VerifiedBases(ts)
        ensures exists t :: t in ts && t.kind == Nft && Truthy(t.nftUrlBase) && t.nftUrlBase.value == b
      {
        if b in VerifiedBases(init) {
          var t :| t in init && t.kind == Nft && Truthy(t.nftUrlBase) && t.nftUrlBase.value == b;
          assert t in ts;
        } else {
          assert ts[|ts| - 1] in ts;
        }
      }
    }
  }

  /** What `verifyNftDescriptors` reports for one base URL. */
  function DescriptorReports(base: string, probe: string -> Probe): (log: seq<ProbeReport>)
    ensures |log| == |DescriptorExtensions|
  {
    seq(|DescriptorExtensions|, i requires 0 <= i < |DescriptorExtensions| =>
      Report(base + DescriptorExtensions[i], probe(base + DescriptorExtensions[i])))
  }

  /** The reports of verifying several bases, one after the other. */
  function ProbeLog(bases: seq<string>, probe: string -> Probe): (log: seq<ProbeReport>)
    ensures |log| == |DescriptorExtensions| * |bases|
  {
    if bases == [] then []
    else ProbeLog(bases[..|bases| - 1], probe) + DescriptorReports(bases[|bases| - 1], probe)
  }

  /** Report `i` of the log is about the descriptor `i % 3` of base `i / 3`: every descriptor of every base is probed, in order. */
  lemma {:induction false} ProbeLogAt(bases: seq<string>, probe: string -> Probe, i: nat)
    requires i < |DescriptorExtensions| * |bases|
    ensures var url := bases[i / 3] + DescriptorExtensions[i % 3];
            ProbeLog(bases, probe)[i] == Report(url, probe(url))
  {
    var n := |bases|;
    var init := bases[..n - 1];
    if i < 3 * (n - 1) {
      ProbeLogAt(init, probe, i);
      assert bases[i / 3] == init[i / 3];
    } else {
      assert i / 3 == n - 1;
      assert ProbeLog(bases, probe)[i] == DescriptorReports(bases[n - 1], probe)[i - 3 * (n - 1)];
    }
  }

  const NoUserError: string := "No se encontró usuario autenticado."
  const LoadError: string := "Error cargando targets"

  class ArViewComponent {
    var targets: seq<Target>
    var currentUserId: Option<string>
    var loading: bool
    var error: Option<string>
    /** Whether the scene currently sees a marker. */
    var detected: bool
    const auth: AuthService
    const supabase: SupabaseService

    constructor (auth: AuthService, supabase: SupabaseService)
      ensures this.auth == auth && this.supabase == supabase
      ensures targets == [] && currentUserId == None && loading && error == None && !detected
    {
      this.auth := auth;
      this.supabase := supabase;
      targets := [];
      currentUserId := None;
      loading := true;
      error := None;
      detected := false;
    }

    /**
     * `ngOnInit`: without a user it records the error and fetches nothing;
     * otherwise it lists the user's targets and verifies each NFT target's
     * descriptors in list order, returning what the probes report. The
     * spinner is off on every path.
     */
    method NgOnInit(listFault: Option<Thrown>, probe: string -> Probe) returns (log: seq<ProbeReport>)
      modifies this
      ensures !loading && detected == old(detected)
      ensures currentUserId == (match auth.GetCurrentUser() case Some(u) => Some(u.uid) case None => None)
      ensures !Truthy(currentUserId) ==> error == Some(NoUserError) && targets == old(targets) && log == []
      ensures Truthy(currentUserId) && listFault.Some? ==>
                error == Some(LoadError) && targets == old(targets) && log == []
      ensures Truthy(currentUserId) && listFault.None? ==>
                error == old(error) && targets == OwnedBy(supabase.rows, currentUserId.value)
                && log == ProbeLog(VerifiedBases(targets), probe)
    {
      var user := auth.GetCurrentUser();
      currentUserId := if user.Some? then Some(user.value.uid) else None;
      if !Truthy(currentUserId) {
        error := Some(NoUserError);
        loading := false;
        return [];
      }
      var listed := supabase.ListTargets(currentUserId.value, listFault);
      if listed.Failure? {
        error := Some(LoadError);
        loading := false;
        return [];
      }
      targets := listed.value;
      log := VerifyAll(listed.value, probe);
      loading := false;
    }

    /** The loop of `ngOnInit`: each NFT target with a base URL has its descriptors probed, in list order. */
    method VerifyAll(ts: seq<Target>, probe: string -> Probe) returns (log: seq<ProbeReport>)
      ensures log == ProbeLog(VerifiedBases(ts), probe)
    {
      log := [];
      for i := 0 to |ts|
        invariant log == ProbeLog(VerifiedBases(ts[..i]), probe)
      {
        var target := ts[i];
        assert ts[..i + 1][..i] == ts[..i];
        var bases := VerifiedBases(ts[..i]);
        if target.kind == Nft && Truthy(target.nftUrlBase) {
          var reports := supabase.VerifyNftDescriptors(target.nftUrlBase.value, probe);
          assert reports == DescriptorReports(target.nftUrlBase.value, probe);
          assert VerifiedBases(ts[..i + 1]) == bases + [target.nftUrlBase.value];
          assert (bases + [target.nftUrlBase.value])[..|bases|] == bases;
          log := log + reports;
        } else {
          assert VerifiedBases(ts[..i + 1]) == bases;
        }
      }
      assert ts[..|ts|] == ts;
    }

    /** The scene's `markerFound` event. */
    method MarkerFound()
      modifies this`detected
      ensures detected
    {
      detected := true;
    }

    /** The scene's `markerLost` event. */
    method MarkerLost()
      modifies this`detected
      ensures !detected
    {
      detected := false;
    }
  }
}
