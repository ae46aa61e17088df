/** Every run of opens and writes, from any number of handles with the same limits. */
module ArtifactRuns {
  import opened Common
  import opened Decimals
  import opened Sums
  import opened ArtifactPaging
  import opened ArtifactMeta
  import opened ArtifactQuota
  import opened ArtifactStore
  import opened ArtifactText

  /** The disk, each open handle's counter, and the identifiers published so far in order. */
  datatype State = State(disk: Disk, nexts: seq<nat>, published: seq<nat>)

  datatype Op =
    | Open
    | PutText(handle: nat, content: seq<byte>, title: Option<seq<byte>>, mime: seq<byte>)
    | PutBlob(handle: nat, bytes: seq<byte>)
    | OtherSession(bytes: seq<byte>)

  ghost function AfterText(s: State, h: nat, id: nat, r: TextResult): State
    requires h < |s.nexts|
  {
    State(r.disk, s.nexts[h := r.next], if r.answer.Ok? then s.published + [id] else s.published)
  }

  ghost function Apply(limits: Limits, s: State, op: Op): State {
    match op
    case Open => s.(nexts := s.nexts + [FreeId(s.disk.dir, 0)])
    case PutText(h, content, title, mime) =>
      if h >= |s.nexts| then s
      else
        AfterText(s, h, FreeId(s.disk.dir, s.nexts[h]),
                  PutTextOutcome(limits, s.disk, s.nexts[h], content, title, mime))
    case PutBlob(h, bytes) =>
      if h >= |s.nexts| then s
      else s.(disk := PutBlobSpec(limits, s.disk, bytes, Digits(|bytes|)).disk)
    case OtherSession(bytes) =>
      s.(disk := s.disk.(space := s.disk.space.(blobs := s.disk.space.blobs[Sha256(bytes) := bytes])))
  }

  ghost function Run(limits: Limits, ops: seq<Op>): State {
    if ops == [] then State(EMPTY, [], [])
    else Apply(limits, Run(limits, ops[..|ops| - 1]), ops[|ops| - 1])
  }

  ghost predicate Ascending(ids: seq<nat>) {
    forall i, j :: 0 <= i < j < |ids| ==> ids[i] < ids[j]
  }

  ghost function Stems(ids: seq<nat>): set<string> {
    set i | 0 <= i < |ids| :: Digits(ids[i])
  }

  function Last(ids: seq<nat>): Option<nat> {
    if ids == [] then None else Some(ids[|ids| - 1])
  }

  /** The published identifiers are strictly increasing, and are exactly the artifacts on disk. */
  ghost predicate InOrder(ids: seq<nat>, d: Directory) {
    Ascending(ids) && Stems(ids) == d.metas.Keys
  }

  predicate Counters(nexts: seq<nat>) {
    forall h :: 0 <= h < |nexts| ==> nexts[h] <= U64_MAX
  }

  ghost predicate Inv(limits: Limits, s: State) {
    && Good(limits, s.disk)
    && InOrder(s.published, s.disk.dir)
    && Counters(s.nexts)
  }

  lemma {:induction false} LastIsLargest(ids: seq<nat>, d: Directory)
    requires InOrder(ids, d) && AllBelow(d.metas.Keys, U64_MAX)
    ensures LargestOf(d.metas.Keys, Last(ids))
  {
    if ids != [] {
      var last := ids[|ids| - 1];
      assert Digits(last) in Stems(ids);
      forall stem | stem in d.metas ensures ParseId(stem).Some? && ParseId(stem).value <= last {
        var i :| 0 <= i < |ids| && stem == Digits(ids[i]);
        ParsedIdIs(ids[i]);
      }
    }
  }

  lemma {:induction false} PublishedNext(ids: seq<nat>, d: Directory, id: nat, e: Directory)
    requires InOrder(ids, d) && AllBelow(d.metas.Keys, id) && e.metas.Keys == d.metas.Keys + {Digits(id)}
    ensures InOrder(ids + [id], e)
  {
    var more := ids + [id];
    forall i | 0 <= i < |ids| ensures ids[i] < id {
      assert Digits(ids[i]) in Stems(ids);
      ParsedIdIs(ids[i]);
    }
    assert forall i :: 0 <= i < |more| ==> more[i] == if i < |ids| then ids[i] else id;
    assert Stems(more) == Stems(ids) + {Digits(id)} by {
      forall x | x in Stems(ids) + {Digits(id)} ensures x in Stems(more) {
        if x in Stems(ids) {
          var i :| 0 <= i < |ids| && x == Digits(ids[i]);
          assert more[i] == ids[i];
        } else {
          assert more[|ids|] == id;
        }
      }
    }
  }

  lemma {:induction false} AfterTextInv(limits: Limits, s: State, h: nat, id: nat, r: TextResult)
    requires InOrder(s.published, s.disk.dir) && Counters(s.nexts) && h < |s.nexts|
    requires Good(limits, r.disk) && TextKeys(s.disk, id, r) && AllBelow(s.disk.dir.metas.Keys, id)
    ensures Inv(limits, AfterText(s, h, id, r))
  {
    if r.answer.Ok? {
      PublishedNext(s.published, s.disk.dir, id, r.disk.dir);
    }
  }

  lemma {:induction false} TextStepInv(
    limits: Limits, s: State, h: nat, content: seq<byte>, title: Option<seq<byte>>, mime: seq<byte>)
    returns (r: TextResult)
    requires Inv(limits, s) && h < |s.nexts|
    ensures r == PutTextOutcome(limits, s.disk, s.nexts[h], content, title, mime)
    ensures Inv(limits, AfterText(s, h, FreeId(s.disk.dir, s.nexts[h]), r))
  {
    LastIsLargest(s.published, s.disk.dir);
    r := PutTextOutcomeGood(limits, s.disk, s.nexts[h], content, title, mime, Last(s.published));
    AfterTextInv(limits, s, h, FreeId(s.disk.dir, s.nexts[h]), r);
  }

  lemma {:induction false} NewCounterInv(limits: Limits, s: State, next: nat)
    requires Inv(limits, s) && next <= U64_MAX
    ensures Inv(limits, s.(nexts := s.nexts + [next]))
  {
  }

  lemma {:induction false} OpenInv(limits: Limits, s: State)
    requires Inv(limits, s)
    ensures Inv(limits, s.(nexts := s.nexts + [FreeId(s.disk.dir, 0)]))
  {
    LastIsLargest(s.published, s.disk.dir);
    FreeIdIsFree(s.disk.dir, 0, Last(s.published));
    NewCounterInv(limits, s, FreeId(s.disk.dir, 0));
  }

  lemma {:induction false} BlobStepInv(limits: Limits, s: State, disk: Disk)
    requires Inv(limits, s) && Good(limits, disk) && disk.dir == s.disk.dir
    ensures Inv(limits, s.(disk := disk))
  {
  }

  lemma {:induction false} StepInv(limits: Limits, s: State, op: Op)
    requires Inv(limits, s)
    ensures Inv(limits, Apply(limits, s, op))
  {
    var t := Apply(limits, s, op);
    match op
    case Open =>
      OpenInv(limits, s);
      assert t == s.(nexts := s.nexts + [FreeId(s.disk.dir, 0)]);
    case PutText(h, content, title, mime) =>
      if h < |s.nexts| {
        var r := TextStepInv(limits, s, h, content, title, mime);
        assert t == AfterText(s, h, FreeId(s.disk.dir, s.nexts[h]), r);
      }
    case PutBlob(h, bytes) =>
      if h < |s.nexts| {
        PutBlobGood(limits, s.disk, bytes);
        BlobStepInv(limits, s, PutBlobSpec(limits, s.disk, bytes, Digits(|bytes|)).disk);
        assert t == s.(disk := PutBlobSpec(limits, s.disk, bytes, Digits(|bytes|)).disk);
      }
    case OtherSession(bytes) =>
      ForeignBlobGood(limits, s.disk, bytes);
      BlobStepInv(limits, s, t.disk);
      assert t == s.(disk := t.disk);
  }

  /**
   * After every run the disk respects all quotas and a handle can be opened on it, and the published
   * identifiers are strictly increasing and are exactly the artifacts on disk.
   */
  lemma {:induction false} RunsStayGood(limits: Limits, ops: seq<Op>)
    requires ScannableLimits(limits)
    ensures Inv(limits, Run(limits, ops)) && Openable(limits, Run(limits, ops).disk)
  {
    if ops == [] {
      EmptyIsGood(limits);
      assert Stems([]) == {};
    } else {
      RunsStayGood(limits, ops[..|ops| - 1]);
      StepInv(limits, Run(limits, ops[..|ops| - 1]), ops[|ops| - 1]);
    }
  }

  lemma {:induction false} LastStep(limits: Limits, first: seq<Op>, before: seq<Op>, last: Op)
    ensures Run(limits, first + (before + [last])) == Apply(limits, Run(limits, first + before), last)
  {
    var ops := first + (before + [last]);
    assert ops[..|ops| - 1] == first + before;
  }

  /** No write of any handle or session takes back a blob reference. */
  lemma {:induction false} ReferenceStays(limits: Limits, s: State, op: Op, h: Hash)
    requires h in s.disk.space.refs
    ensures h in Apply(limits, s, op).disk.space.refs
    ensures Apply(limits, s, op).disk.space.refs[h] == s.disk.space.refs[h]
  {
  }

  lemma {:induction false} ReferencesStay(limits: Limits, first: seq<Op>, later: seq<Op>, h: Hash)
    requires h in Run(limits, first).disk.space.refs
    ensures h in Run(limits, first + later).disk.space.refs
    ensures Run(limits, first + later).disk.space.refs[h] == Run(limits, first).disk.space.refs[h]
    decreases |later|
  {
    if later == [] {
      assert first + later == first;
    } else {
      var before, last := later[..|later| - 1], later[|later| - 1];
      ReferencesStay(limits, first, before, h);
      LastStep(limits, first, before, last);
      assert later == before + [last];
      ReferenceStays(limits, Run(limits, first + before), last, h);
    }
  }

  /**
   * A blob once stored is there, whole, after whatever is written later, and storing it again, from whatever
   * handle, succeeds and changes nothing.
   */
  lemma {:induction false} BlobChargedOnce(
    limits: Limits, first: seq<Op>, handle: nat, bytes: seq<byte>, later: seq<Op>, again: nat)
    requires ScannableLimits(limits) && handle < |Run(limits, first).nexts|
    requires PutBlobSpec(limits, Run(limits, first).disk, bytes, Digits(|bytes|)).answer.Ok?
    ensures var s, h := Run(limits, first + [PutBlob(handle, bytes)] + later), Sha256(bytes);
      && h in s.disk.space.refs && h in s.disk.space.blobs && s.disk.space.blobs[h] == bytes
      && PutBlobSpec(limits, s.disk, bytes, Digits(|bytes|)) == BlobResult(s.disk, Ok(h))
      && Apply(limits, s, PutBlob(again, bytes)) == s
  {
    var stored := first + [PutBlob(handle, bytes)];
    assert stored[..|stored| - 1] == first;
    ReferencesStay(limits, stored, later, Sha256(bytes));
    RunsStayGood(limits, stored + later);
    PutBlobCases(limits, Run(limits, stored + later).disk, bytes, Digits(|bytes|));
  }

  // ---- What was stored is what is read -----------------------------------------------------------------

  /** `after` still holds, unchanged, every artifact `before` holds. */
  ghost predicate KeepsTexts(before: Directory, after: Directory) {
    forall id :: id in before.metas && id in before.texts ==>
      && id in after.metas && after.metas[id] == before.metas[id]
      && id in after.texts && after.texts[id] == before.texts[id]
  }

  lemma {:induction false} NewTextKeepsTexts(
    limits: Limits, disk: Disk, next: nat, content: seq<byte>, title: Option<seq<byte>>, mime: seq<byte>)
    requires Digits(FreeId(disk.dir, next)) !in disk.dir.metas
    ensures var r := PutTextOutcome(limits, disk, next, content, title, mime);
      && KeepsTexts(disk.dir, r.disk.dir)
      && (r.answer.Ok? ==> HoldsText(r.disk.dir, r.answer.value, content, title, mime))
  {
  }

  lemma {:induction false} TextStepKeeps(
    limits: Limits, s: State, h: nat, content: seq<byte>, title: Option<seq<byte>>, mime: seq<byte>)
    returns (r: TextResult)
    requires Inv(limits, s) && h < |s.nexts|
    ensures r == PutTextOutcome(limits, s.disk, s.nexts[h], content, title, mime)
    ensures KeepsTexts(s.disk.dir, r.disk.dir)
    ensures r.answer.Ok? ==> HoldsText(r.disk.dir, r.answer.value, content, title, mime)
  {
    LastIsLargest(s.published, s.disk.dir);
    FreeIdIsFree(s.disk.dir, s.nexts[h], Last(s.published));
    NewTextKeepsTexts(limits, s.disk, s.nexts[h], content, title, mime);
    r := PutTextOutcome(limits, s.disk, s.nexts[h], content, title, mime);
  }

  lemma {:induction false} TextsStay(limits: Limits, s: State, op: Op, t: State)
    requires Inv(limits, s) && t == Apply(limits, s, op)
    ensures KeepsTexts(s.disk.dir, t.disk.dir)
  {
    match op
    case PutText(h, content, title, mime) =>
      if h < |s.nexts| {
        var r := TextStepKeeps(limits, s, h, content, title, mime);
        assert t == AfterText(s, h, FreeId(s.disk.dir, s.nexts[h]), r);
      }
    case _ =>
      assert t.disk.dir == s.disk.dir;
  }

  lemma {:induction false} KeepsAll(a: Directory, b: Directory, c: Directory)
    requires KeepsTexts(a, b) && KeepsTexts(b, c)
    ensures KeepsTexts(a, c)
  {
  }

  lemma {:induction false} LaterKeepsTexts(limits: Limits, first: seq<Op>, later: seq<Op>)
    requires ScannableLimits(limits)
    ensures KeepsTexts(Run(limits, first).disk.dir, Run(limits, first + later).disk.dir)
    decreases |later|
  {
    if later == [] {
      assert first + later == first;
    } else {
      var before, last := later[..|later| - 1], later[|later| - 1];
      LaterKeepsTexts(limits, first, before);
      RunsStayGood(limits, first + before);
      LastStep(limits, first, before, last);
      assert later == before + [last];
      TextsStay(limits, Run(limits, first + before), last, Run(limits, first + later));
      KeepsAll(Run(limits, first).disk.dir, Run(limits, first + before).disk.dir, Run(limits, first + later).disk.dir);
    }
  }

  /** The page of an artifact that its URI and a selector name. */
  function ReadText(d: Directory, uri: string, selector: Option<string>, limits: PageLimits)
    : Option<(seq<byte>, bool)>
  {
    match ParseUri(uri)
    case None => None
    case Some(id) => if Digits(id) in d.texts then Selected(d.texts[Digits(id)], selector, limits) else None
  }

  /**
   * A text once stored is there, byte for byte and with its title and type, after whatever is written later by any
   * handle; and every page read of it by its URI is that page of the text given.
   */
  lemma {:induction false} TextKept(
    limits: Limits, first: seq<Op>, handle: nat, content: seq<byte>, title: Option<seq<byte>>, mime: seq<byte>,
    later: seq<Op>, a: ArtifactRef, selector: Option<string>, pages: PageLimits)
    requires ScannableLimits(limits) && handle < |Run(limits, first).nexts|
    requires var s := Run(limits, first);
      PutTextOutcome(limits, s.disk, s.nexts[handle], content, title, mime).answer == Ok(a)
    ensures var d := Run(limits, first + [PutText(handle, content, title, mime)] + later).disk.dir;
      && HoldsText(d, a, content, title, mime)
      && ReadText(d, a.uri, selector, pages) == Selected(content, selector, pages)
  {
    var stored := first + [PutText(handle, content, title, mime)];
    var d, e := Run(limits, stored).disk.dir, Run(limits, stored + later).disk.dir;
    assert stored[..|stored| - 1] == first;
    RunsStayGood(limits, first);
    var r := TextStepKeeps(limits, Run(limits, first), handle, content, title, mime);
    assert d == r.disk.dir;
    LaterKeepsTexts(limits, stored, later);
    assert HoldsText(e, a, content, title, mime);
    RunsStayGood(limits, stored + later);
    assert Loads(e, a.id);
  }

  // ---- What is refused -----------------------------------------------------------------------------------

  /** On a good disk a text is stored exactly when it is within every limit and an identifier is left for it. */
  lemma {:induction false} TextStoredIff(
    limits: Limits, disk: Disk, next: nat, content: seq<byte>, title: Option<seq<byte>>, mime: seq<byte>)
    ensures PutTextOutcome(limits, disk, next, content, title, mime).answer.Ok? <==>
            && |content| <= limits.maxArtifactBytes
            && (title.Some? ==> |title.value| <= MAX_TITLE_BYTES) && |mime| <= MAX_MIME_BYTES
            && |disk.dir.metas| < limits.maxArtifactCount
            && Total(Sizes(disk.dir.metas)) + Total(RefSizes(disk.space.refs)) + |content| <= limits.maxSessionBytes
            && FreeId(disk.dir, next) < U64_MAX
            && Total(Lengths(disk.dir.metas)) + |Encode(MakeRef(FreeId(disk.dir, next), content, title, mime))|
               <= limits.maxSessionMetadataBytes
  {
  }

  /** And a blob exactly when it is within the limit for one, and referenced already or within the session's. */
  lemma {:induction false} BlobStoredIff(limits: Limits, disk: Disk, bytes: seq<byte>)
    ensures PutBlobSpec(limits, disk, bytes, Digits(|bytes|)).answer.Ok? <==>
            && |bytes| <= limits.maxBlobBytes
            && (Sha256(bytes) !in disk.space.refs ==>
                  && |disk.space.refs| < limits.maxBlobCount
                  && Total(RefLengths(disk.space.refs)) + |Digits(|bytes|)| <= limits.maxSessionBlobRefBytes
                  && Total(Sizes(disk.dir.metas)) + Total(RefSizes(disk.space.refs)) + |bytes|
                     <= limits.maxSessionBytes)
  {
  }
}
