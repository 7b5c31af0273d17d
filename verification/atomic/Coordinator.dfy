/** The publish coordinator (app/atomic_coordinator.py with the hooks of app/atomic_fx_live.py): one attempt per call,
    an in-memory marker for what was sent but not recorded, and an adversary that fails sends, reads and writes. */
module Coordinators {
  import opened Wrappers
  import opened RevisionKeys
  import opened CompareWrites
  import opened Watermarks
  import opened Reconcile

  datatype SendDisposition = Sent | NoSubscribers | AllFailed | SendRaised

  /** What becomes of the write of a watermark: it is done; it is done but the reply is lost; or it is not done. */
  datatype WriteFate = Written | ReplyLost | NotWritten

  /** Whether the stored watermark is lost while a call is at work, after the call has read it: before its send, or
      after its send and before its write. */
  datatype Loss = NoLoss | LostBeforeSend | LostAfterSend

  /** What the hooks of one call answer; `None` stands for a hook that raises. */
  datatype Hooks = Hooks(
    gateOpen: Option<bool>, flags: Option<(bool, bool)>, readable: bool, build: Option<Build>,
    send: SendDisposition, lineage: Lineage, sentAt: int, loss: Loss, fate: WriteFate)

  datatype Outcome =
    | Committed | NoSubscribersAtSend | AllSendFailed | SendException | GateWouldBlock | Disabled
    | WatermarkWriteFailed | WatermarkStale | WatermarkDivergent | WatermarkLineageMismatch

  datatype Reply =
    | Raised
    | Relayed(decision: Decision)
    | Finished(outcome: Outcome, relation: Option<Relation>, sent: bool, recovered: bool)

  datatype Lane = SendRetry | WatermarkOnly | EventDrivenWait | TerminalNone | Blocked

  /** The retry lane of a finished or relayed attempt (app/atomic_retry.py). */
  function LaneOf(r: Reply): Option<Lane> {
    match r
    case Raised => None
    case Relayed(SkipDedup) => Some(TerminalNone)
    case Relayed(SkipSubscriberZero) => Some(EventDrivenWait)
    case Relayed(Block) => Some(Blocked)
    case Relayed(RetryBuild) => Some(SendRetry)
    case Relayed(Publish(_)) => None
    case Finished(o, _, _, _) => Some(OutcomeLane(o))
  }

  function OutcomeLane(o: Outcome): Lane {
    match o
    case Committed => TerminalNone
    case NoSubscribersAtSend => EventDrivenWait
    case AllSendFailed => SendRetry
    case SendException => SendRetry
    case GateWouldBlock => EventDrivenWait
    case Disabled => EventDrivenWait
    case WatermarkWriteFailed => WatermarkOnly
    case WatermarkStale => TerminalNone
    case WatermarkDivergent => Blocked
    case WatermarkLineageMismatch => Blocked
  }

  function OutcomeFor(action: WriteAction, writeOk: bool): Outcome {
    match action
    case DoWrite => if writeOk then Committed else WatermarkWriteFailed
    case SkipIdempotent => Committed
    case SkipStale => WatermarkStale
    case AlertDivergent => WatermarkDivergent
    case DeferLineage => WatermarkLineageMismatch
  }

  // ---- State ----

  /** What has happened to one asset, in order: a send, with its content and whether its lineage did not match, or the
      loss of the stored watermark. */
  datatype Entry = SentEntry(asset: Asset, content: Content, mismatched: bool) | LostEntry(asset: Asset)

  datatype World = World(
    stored: map<Asset, Watermark>, last: map<(Asset, Lineage), nat>, markers: map<Asset, Watermark>,
    // What has happened so far; no operation reads it.
    issued: seq<Watermark>, written: seq<Watermark>, history: seq<Entry>)

  function Current(w: World, a: Asset): Option<Watermark> {
    if a in w.stored then Some(w.stored[a]) else None
  }

  function LastOf(last: map<(Asset, Lineage), nat>, a: Asset, l: Lineage): nat {
    if (a, l) in last then last[(a, l)] else 0
  }

  function Max(x: nat, y: nat): nat { if x < y then y else x }

  /** The sequence number of a send: the next one proposed, and beyond the stored one of the same lineage. */
  function Assign(w: World, a: Asset, l: Lineage): nat {
    var proposal := LastOf(w.last, a, l) + 1;
    match Current(w, a)
    case Some(c) => if c.lineage == l then Max(proposal, c.number + 1) else proposal
    case None => proposal
  }

  /** A write of the stored watermark; only a reply that arrives counts as success. */
  function Store(w: World, a: Asset, wm: Watermark, fate: WriteFate): World {
    if fate == NotWritten then w else w.(stored := w.stored[a := wm], written := w.written + [wm])
  }

  /** The store may evict the watermark of an asset at any time. */
  function Evict(w: World, a: Asset): World {
    w.(stored := w.stored - {a}, history := w.history + [LostEntry(a)])
  }

  function Recover(w: World, a: Asset, h: Hooks): (World, Reply)
    requires a in w.markers
  {
    var marker := w.markers[a];
    if !h.readable then (w, Raised)
    else
      var relation := Classify(Current(w, a), marker);
      var action := ActionFor(relation);
      var ok := action != DoWrite || h.fate == Written;
      var before := if h.loss == NoLoss then w else Evict(w, a);
      var stored := if action == DoWrite then Store(before, a, marker, h.fate) else before;
      (if ok then stored.(markers := stored.markers - {a}) else stored,
       Finished(OutcomeFor(action, ok), Some(relation), false, true))
  }

  function SendAndCommit(w: World, a: Asset, h: Hooks, content: Content): (World, Reply) {
    match h.send
    case NoSubscribers => (w, Finished(NoSubscribersAtSend, None, false, false))
    case AllFailed => (w, Finished(AllSendFailed, None, false, false))
    case SendRaised => (w, Finished(SendException, None, false, false))
    case Sent => Commit(w, a, h, content)
  }

  /** A send: its number is issued and remembered whatever follows. */
  function Issue(w: World, wm: Watermark, mismatched: bool): World {
    w.(last := w.last[(wm.asset, wm.lineage) := Max(LastOf(w.last, wm.asset, wm.lineage), wm.number)],
       issued := w.issued + [wm],
       history := w.history + [SentEntry(wm.asset, wm.content, mismatched)])
  }

  /** After a send the watermark is written if it may be, and marked unless the write is known to be done. */
  function Conclude(w: World, wm: Watermark, action: WriteAction, fate: WriteFate): World {
    if action != DoWrite then w
    else if fate == Written then Store(w, wm.asset, wm, fate)
    else Store(w, wm.asset, wm, fate).(markers := w.markers[wm.asset := wm])
  }

  /** A send with what the store does around it. */
  function SentOut(w: World, wm: Watermark, mismatched: bool, loss: Loss): World {
    var before := if loss == LostBeforeSend then Evict(w, wm.asset) else w;
    var issued := Issue(before, wm, mismatched);
    if loss == LostAfterSend then Evict(issued, wm.asset) else issued
  }

  function NextWatermark(w: World, a: Asset, h: Hooks, content: Content): Watermark {
    Watermark(a, h.lineage, Assign(w, a, h.lineage), content, h.sentAt)
  }

  /** What is decided rests on the watermark that was read at the beginning of the call. */
  function Commit(w: World, a: Asset, h: Hooks, content: Content): (World, Reply) {
    var wm := NextWatermark(w, a, h, content);
    var relation := Classify(Current(w, a), wm);
    var action := ActionFor(relation);
    (Conclude(SentOut(w, wm, relation == LineageMismatch, h.loss), wm, action, h.fate),
     Finished(OutcomeFor(action, action != DoWrite || h.fate == Written), Some(relation), true, false))
  }

  function PublishAsset(w: World, a: Asset, h: Hooks): (World, Reply) {
    if a in w.markers then Recover(w, a, h)
    else if h.gateOpen.None? then (w, Raised)
    else if !h.gateOpen.value then (w, Finished(GateWouldBlock, None, false, false))
    else if h.flags.None? then (w, Raised)
    else if !(h.flags.value.0 && h.flags.value.1) then (w, Finished(Disabled, None, false, false))
    else if !h.readable || h.build.None? then (w, Raised)
    else match Decide(Current(w, a), h.build.value)
      case None => (w, Raised)
      case Some(Publish(content)) => SendAndCommit(w, a, h, content)
      case Some(d) => (w, Relayed(d))
  }

  // ---- Runs ----

  /** Calls for one asset exclude one another, so a run is a sequence of whole calls and of losses in between; losses in
      the middle of a call are part of the call. */
  datatype Event = Call(asset: Asset, hooks: Hooks) | Lose(asset: Asset)

  function Step(w: World, e: Event): World {
    match e
    case Call(a, h) => PublishAsset(w, a, h).0
    case Lose(a) => Evict(w, a)
  }

  /** A process starts with whatever an earlier one has stored. */
  function Start(stored: map<Asset, Watermark>): World { World(stored, map[], map[], [], [], []) }

  function Run(w: World, events: seq<Event>): World
    decreases |events|
  {
    if events == [] then w else Step(Run(w, events[..|events| - 1]), events[|events| - 1])
  }

  // ---- The invariant ----

  predicate ProperlyKeyed(stored: map<Asset, Watermark>) { forall a :: a in stored ==> stored[a].asset == a }

  predicate SameStream(x: Watermark, y: Watermark) { x.asset == y.asset && x.lineage == y.lineage }

  /** Numbers that were issued are remembered, and none was issued twice. */
  predicate IssuedOk(issued: seq<Watermark>, last: map<(Asset, Lineage), nat>) {
    && (forall i :: 0 <= i < |issued| ==> issued[i].number <= LastOf(last, issued[i].asset, issued[i].lineage))
    && (forall i, j :: 0 <= i < j < |issued| && SameStream(issued[i], issued[j]) ==>
          issued[i].number < issued[j].number)
  }

  /** Only what was issued is ever written or marked. */
  predicate WrittenOk(written: seq<Watermark>, issued: seq<Watermark>) { forall x :: x in written ==> x in issued }

  predicate MarkersOk(markers: map<Asset, Watermark>, stored: map<Asset, Watermark>, issued: seq<Watermark>) {
    forall a :: a in markers ==>
      && markers[a].asset == a && markers[a] in issued
      && (a in stored ==> stored[a] == markers[a]
                          || (stored[a].lineage == markers[a].lineage && stored[a].number < markers[a].number))
  }

  /** The last send of an asset, unless its lineage did not match or the stored watermark was lost since. */
  function LastSend(history: seq<Entry>, a: Asset): Option<Content>
    decreases |history|
  {
    if history == [] then None
    else match history[|history| - 1]
      case SentEntry(b, content, mismatched) =>
        if b == a then (if mismatched then None else Some(content)) else LastSend(history[..|history| - 1], a)
      case LostEntry(b) => if b == a then None else LastSend(history[..|history| - 1], a)
  }

  /** What was sent last is still on record, as the stored watermark or as the marker. */
  predicate OnRecord(last: Option<Content>, a: Asset, stored: map<Asset, Watermark>, markers: map<Asset, Watermark>) {
    last.Some? ==>
      if a in markers then markers[a].content == last.value else a in stored && stored[a].content == last.value
  }

  predicate RecordedOk(w: World) {
    forall a :: OnRecord(LastSend(w.history, a), a, w.stored, w.markers)
  }

  ghost predicate Inv(w: World) {
    && ProperlyKeyed(w.stored) && IssuedOk(w.issued, w.last) && WrittenOk(w.written, w.issued)
    && MarkersOk(w.markers, w.stored, w.issued) && RecordedOk(w)
  }

  // ---- One call ----

  lemma StartInv(stored: map<Asset, Watermark>)
    requires ProperlyKeyed(stored)
    ensures Inv(Start(stored))
  {
  }

  /** A send meets no current watermark, an older one of its lineage, or another lineage. */
  lemma CommitRelation(w: World, a: Asset, h: Hooks, content: Content)
    ensures Classify(Current(w, a), NextWatermark(w, a, h, content))
            in {NoCurrent, Newer, LineageMismatch}
  {
  }

  /** A marker meets no current watermark, an older one of its lineage, or itself. */
  lemma RecoverRelation(w: World, a: Asset)
    requires MarkersOk(w.markers, w.stored, w.issued) && a in w.markers
    ensures Classify(Current(w, a), w.markers[a]) in {NoCurrent, Newer, Same}
    ensures Classify(Current(w, a), w.markers[a]) == Same ==> Current(w, a) == Some(w.markers[a])
  {
  }

  lemma IssueKeeps(w: World, wm: Watermark, mismatched: bool)
    requires IssuedOk(w.issued, w.last) && wm.number > LastOf(w.last, wm.asset, wm.lineage)
    ensures var t := Issue(w, wm, mismatched); IssuedOk(t.issued, t.last)
  {
  }

  lemma LastSendAppend(history: seq<Entry>, e: Entry, a: Asset)
    ensures LastSend(history + [e], a) ==
            match e
            case SentEntry(b, content, mismatched) =>
              if b == a then (if mismatched then None else Some(content)) else LastSend(history, a)
            case LostEntry(b) => if b == a then None else LastSend(history, a)
  {
    assert (history + [e])[..|history|] == history;
  }

  /** A loss takes the asset off record, and only that asset. */
  lemma EvictKeeps(w: World, a: Asset)
    requires Inv(w)
    ensures Inv(Evict(w, a))
  {
    hide LastSend;
    forall b: Asset ensures OnRecord(LastSend(Evict(w, a).history, b), b, Evict(w, a).stored, Evict(w, a).markers) {
      LastSendAppend(w.history, LostEntry(a), b);
      assert OnRecord(LastSend(w.history, b), b, w.stored, w.markers);
    }
  }

  /** The last send after a whole commit: its own, unless it is off record again. */
  lemma CommitLastSend(w: World, a: Asset, h: Hooks, content: Content, b: Asset)
    ensures var wm := NextWatermark(w, a, h, content);
            var off := Classify(Current(w, a), wm) == LineageMismatch || h.loss == LostAfterSend;
            LastSend(Commit(w, a, h, content).0.history, b)
            == if b != a then LastSend(w.history, b) else if off then None else Some(content)
  {
    hide LastSend, Classify, Assign;
    var mismatched := Classify(Current(w, a), NextWatermark(w, a, h, content)) == LineageMismatch;
    var before := if h.loss == LostBeforeSend then Evict(w, a) else w;
    LastSendAppend(w.history, LostEntry(a), b);
    LastSendAppend(before.history, SentEntry(a, content, mismatched), b);
    LastSendAppend(before.history + [SentEntry(a, content, mismatched)], LostEntry(a), b);
  }

  /** Other assets are not touched. */
  lemma CommitElsewhere(w: World, a: Asset, h: Hooks, content: Content, b: Asset)
    requires b != a && OnRecord(LastSend(w.history, b), b, w.stored, w.markers)
    ensures var t := Commit(w, a, h, content).0; OnRecord(LastSend(t.history, b), b, t.stored, t.markers)
  {
    CommitLastSend(w, a, h, content, b);
    hide LastSend, Classify, Assign;
  }

  lemma CommitHere(w: World, a: Asset, h: Hooks, content: Content)
    requires a !in w.markers
    ensures var t := Commit(w, a, h, content).0; OnRecord(LastSend(t.history, a), a, t.stored, t.markers)
  {
    CommitLastSend(w, a, h, content, a);
    CommitRelation(w, a, h, content);
    hide LastSend, Classify, Assign;
  }

  lemma CommitKeepsRecorded(w: World, a: Asset, h: Hooks, content: Content)
    requires RecordedOk(w) && a !in w.markers
    ensures RecordedOk(Commit(w, a, h, content).0)
  {
    hide LastSend, Commit;
    var t := Commit(w, a, h, content).0;
    forall b: Asset ensures OnRecord(LastSend(t.history, b), b, t.stored, t.markers) {
      if b == a {
        CommitHere(w, a, h, content);
      } else {
        assert OnRecord(LastSend(w.history, b), b, w.stored, w.markers);
        CommitElsewhere(w, a, h, content, b);
      }
    }
  }

  lemma CommitKeepsMarkers(w: World, a: Asset, h: Hooks, content: Content)
    requires MarkersOk(w.markers, w.stored, w.issued) && ProperlyKeyed(w.stored) && a !in w.markers
    ensures var t := Commit(w, a, h, content).0; MarkersOk(t.markers, t.stored, t.issued) && ProperlyKeyed(t.stored)
  {
    CommitRelation(w, a, h, content);
    CommitFields(w, a, h, content);
    var t := Commit(w, a, h, content).0;
    var wm := NextWatermark(w, a, h, content);
    hide Commit, Assign;
    forall b | b in t.markers
      ensures && t.markers[b].asset == b && t.markers[b] in t.issued
              && (b in t.stored ==> t.stored[b] == t.markers[b]
                                    || (t.stored[b].lineage == t.markers[b].lineage
                                        && t.stored[b].number < t.markers[b].number))
    {
      assert wm in t.issued;
      if b != a {
        assert b in w.markers && w.markers[b] in w.issued;
      }
    }
  }

  /** What a commit leaves of each field. */
  lemma CommitFields(w: World, a: Asset, h: Hooks, content: Content)
    ensures var t := Commit(w, a, h, content).0;
            var wm := NextWatermark(w, a, h, content);
            var writes := ActionFor(Classify(Current(w, a), wm)) == DoWrite;
            && t.issued == w.issued + [wm]
            && t.last == w.last[(a, wm.lineage) := Max(LastOf(w.last, a, wm.lineage), wm.number)]
            && t.written == (if writes && h.fate != NotWritten then w.written + [wm] else w.written)
            && t.markers == (if writes && h.fate != Written then w.markers[a := wm] else w.markers)
            && t.stored == (if writes && h.fate != NotWritten then w.stored[a := wm]
                            else if h.loss != NoLoss then w.stored - {a} else w.stored)
  {
    hide Classify, Assign, LastOf, Max, ActionFor, SentOut;
    var wm := NextWatermark(w, a, h, content);
    SentFields(w, wm, Classify(Current(w, a), wm) == LineageMismatch, h.loss);
    assert (w.stored - {a})[a := wm] == w.stored[a := wm];
  }

  lemma SentFields(w: World, wm: Watermark, mismatched: bool, loss: Loss)
    ensures var t := SentOut(w, wm, mismatched, loss);
            && t.issued == w.issued + [wm] && t.written == w.written && t.markers == w.markers
            && t.last == w.last[(wm.asset, wm.lineage) := Max(LastOf(w.last, wm.asset, wm.lineage), wm.number)]
            && t.stored == (if loss != NoLoss then w.stored - {wm.asset} else w.stored)
  {
    hide LastOf, Max;
  }

  lemma CommitKeeps(w: World, a: Asset, h: Hooks, content: Content)
    requires Inv(w) && a !in w.markers
    ensures Inv(Commit(w, a, h, content).0)
  {
    var wm := NextWatermark(w, a, h, content);
    NumberIsNew(w, a, h, content);
    IssueKeeps(w, wm, false);
    CommitKeepsRecorded(w, a, h, content);
    CommitKeepsMarkers(w, a, h, content);
    CommitFields(w, a, h, content);
    hide RecordedOk, IssuedOk, MarkersOk, Classify, Assign, Commit, ProperlyKeyed;
  }

  lemma NumberIsNew(w: World, a: Asset, h: Hooks, content: Content)
    ensures NextWatermark(w, a, h, content).number > LastOf(w.last, a, h.lineage)
  {
  }

  lemma RecoverFields(w: World, a: Asset, h: Hooks)
    requires a in w.markers
    ensures var t := Recover(w, a, h).0;
            var marker := w.markers[a];
            var writes := ActionFor(Classify(Current(w, a), marker)) == DoWrite;
            && t.issued == w.issued && t.last == w.last
            && (!h.readable ==> t == w)
            && (h.readable ==>
                  && t.written == (if writes && h.fate != NotWritten then w.written + [marker] else w.written)
                  && t.markers == (if writes && h.fate != Written then w.markers else w.markers - {a})
                  && t.history == (if h.loss == NoLoss then w.history else w.history + [LostEntry(a)])
                  && t.stored == (if writes && h.fate != NotWritten then w.stored[a := marker]
                                  else if h.loss != NoLoss then w.stored - {a} else w.stored))
  {
    hide Classify;
  }

  lemma RecoverKeeps(w: World, a: Asset, h: Hooks)
    requires Inv(w) && a in w.markers
    ensures Inv(Recover(w, a, h).0)
  {
    RecoverRelation(w, a);
    RecoverKeepsRecorded(w, a, h);
    RecoverFields(w, a, h);
    hide RecordedOk, IssuedOk, Recover;
  }

  lemma RecoverKeepsRecorded(w: World, a: Asset, h: Hooks)
    requires RecordedOk(w) && MarkersOk(w.markers, w.stored, w.issued) && a in w.markers
    ensures RecordedOk(Recover(w, a, h).0)
  {
    RecoverRelation(w, a);
    RecoverFields(w, a, h);
    hide MarkersOk, LastSend, Recover, Classify;
    var t := Recover(w, a, h).0;
    forall b: Asset ensures OnRecord(LastSend(t.history, b), b, t.stored, t.markers) {
      LastSendAppend(w.history, LostEntry(a), b);
      assert OnRecord(LastSend(w.history, b), b, w.stored, w.markers);
    }
  }

  lemma PublishKeeps(w: World, a: Asset, h: Hooks)
    requires Inv(w)
    ensures Inv(PublishAsset(w, a, h).0)
  {
    hide Inv, Commit, Decide, Recover;
    if a in w.markers {
      RecoverKeeps(w, a, h);
    } else if h.build.Some? {
      var d := Decide(Current(w, a), h.build.value);
      if d.Some? && d.value.Publish? {
        CommitKeeps(w, a, h, d.value.content);
      }
    }
  }

  lemma StepKeeps(w: World, e: Event)
    requires Inv(w)
    ensures Inv(Step(w, e))
  {
    match e {
      case Call(a, h) => PublishKeeps(w, a, h);
      case Lose(a) => EvictKeeps(w, a);
    }
  }

  lemma {:induction false} RunKeeps(stored: map<Asset, Watermark>, events: seq<Event>)
    requires ProperlyKeyed(stored)
    ensures Inv(Run(Start(stored), events))
    decreases |events|
  {
    hide Inv, Step;
    if events == [] {
      StartInv(stored);
    } else {
      RunKeeps(stored, events[..|events| - 1]);
      StepKeeps(Run(Start(stored), events[..|events| - 1]), events[|events| - 1]);
    }
  }

  // ---- Sequence safety ----

  /** In every run: numbers issued for one asset and lineage strictly increase, and what was ever written under one
      asset, lineage and number is one watermark. */
  lemma SequencesAreSafe(stored: map<Asset, Watermark>, events: seq<Event>)
    requires ProperlyKeyed(stored)
    ensures var w := Run(Start(stored), events);
            && (forall i, j :: 0 <= i < j < |w.issued| && SameStream(w.issued[i], w.issued[j]) ==>
                  w.issued[i].number < w.issued[j].number)
            && (forall x, y :: x in w.written && y in w.written && SameStream(x, y) && x.number == y.number ==> x == y)
  {
    hide Run, RecordedOk, MarkersOk;
    RunKeeps(stored, events);
  }

  /** In every run, whatever the hooks answer next: a send meets nothing, an older watermark or another lineage; the
      recovery of a marker meets nothing, an older watermark or the marker itself. */
  lemma RelationsAreSafe(stored: map<Asset, Watermark>, events: seq<Event>, a: Asset, h: Hooks)
    requires ProperlyKeyed(stored)
    ensures var reply := PublishAsset(Run(Start(stored), events), a, h).1;
            reply.Finished? && reply.relation.Some? ==>
              && (reply.sent ==> reply.relation.value in {NoCurrent, Newer, LineageMismatch})
              && (reply.recovered ==> reply.relation.value in {NoCurrent, Newer, Same})
              && (reply.sent <==> !reply.recovered)
  {
    hide Run, IssuedOk, RecordedOk;
    RunKeeps(stored, events);
    RelationsOf(Run(Start(stored), events), a, h);
  }

  lemma RelationsOf(w: World, a: Asset, h: Hooks)
    requires MarkersOk(w.markers, w.stored, w.issued)
    ensures var reply := PublishAsset(w, a, h).1;
            reply.Finished? && reply.relation.Some? ==>
              && (reply.sent ==> reply.relation.value in {NoCurrent, Newer, LineageMismatch})
              && (reply.recovered ==> reply.relation.value in {NoCurrent, Newer, Same})
              && (reply.sent <==> !reply.recovered)
  {
    if a in w.markers {
      RecoverRelation(w, a);
    } else {
      forall content
        ensures Classify(Current(w, a), NextWatermark(w, a, h, content)) in {NoCurrent, Newer, LineageMismatch}
      {
        CommitRelation(w, a, h, content);
      }
      hide Decide, Classify, Assign;
    }
  }

  // ---- No double publish ----

  /** While a marker is held nothing is sent. */
  lemma NoSendWhileMarked(w: World, a: Asset, h: Hooks)
    requires a in w.markers
    ensures var (t, reply) := PublishAsset(w, a, h);
            && t.history in {w.history, w.history + [LostEntry(a)]} && t.issued == w.issued && t.last == w.last
            && (reply.Finished? ==> !reply.sent && reply.recovered)
  {
  }

  /** After a call that returns, a marker is held exactly when the attempt is to be retried by the watermark alone; a
      call that raises changes nothing. */
  lemma MarkerIsWatermarkOnly(w: World, a: Asset, h: Hooks)
    ensures var (t, reply) := PublishAsset(w, a, h);
            && (LaneOf(reply).Some? ==> (a in t.markers <==> LaneOf(reply) == Some(WatermarkOnly)))
            && (LaneOf(reply).None? ==> t == w)
            && (forall b :: b != a ==> (b in t.markers <==> b in w.markers))
  {
    hide Decide, Assign, Classify, Recover, Commit;
    if a in w.markers {
      RecoverLane(w, a, h);
    } else {
      forall content
        ensures var (t, reply) := Commit(w, a, h, content);
                && LaneOf(reply).Some? && (a in t.markers <==> LaneOf(reply) == Some(WatermarkOnly))
                && (forall b :: b != a ==> (b in t.markers <==> b in w.markers))
      {
        CommitLane(w, a, h, content);
      }
    }
  }

  lemma RecoverLane(w: World, a: Asset, h: Hooks)
    requires a in w.markers
    ensures var (t, reply) := Recover(w, a, h);
            && (LaneOf(reply).Some? ==> (a in t.markers <==> LaneOf(reply) == Some(WatermarkOnly)))
            && (LaneOf(reply).None? ==> t == w)
            && (forall b :: b != a ==> (b in t.markers <==> b in w.markers))
  {
    hide Classify;
  }

  lemma CommitLane(w: World, a: Asset, h: Hooks, content: Content)
    requires a !in w.markers
    ensures var (t, reply) := Commit(w, a, h, content);
            && LaneOf(reply).Some? && (a in t.markers <==> LaneOf(reply) == Some(WatermarkOnly))
            && (forall b :: b != a ==> (b in t.markers <==> b in w.markers))
  {
    hide Classify, Assign;
  }

  /** Every send differs from what the last send of its asset left on record. */
  predicate Clean(history: seq<Entry>) {
    forall j :: 0 <= j < |history| && history[j].SentEntry? ==>
      LastSend(history[..j], history[j].asset) != Some(history[j].content)
  }

  lemma CleanAppend(history: seq<Entry>, e: Entry)
    requires Clean(history) && (e.SentEntry? ==> LastSend(history, e.asset) != Some(e.content))
    ensures Clean(history + [e])
  {
    var now := history + [e];
    forall j | 0 <= j < |now| && now[j].SentEntry? ensures LastSend(now[..j], now[j].asset) != Some(now[j].content) {
      assert now[..j] == history[..j];
      assert j == |history| ==> now[..j] == history;
    }
  }

  lemma CommitIsClean(w: World, a: Asset, h: Hooks, content: Content)
    requires Clean(w.history) && LastSend(w.history, a) != Some(content)
    ensures Clean(Commit(w, a, h, content).0.history)
  {
    hide Clean, LastSend, Classify, Assign;
    var sent := SentEntry(a, content, Classify(Current(w, a), NextWatermark(w, a, h, content)) == LineageMismatch);
    var before := if h.loss == LostBeforeSend then w.history + [LostEntry(a)] else w.history;
    CleanAppend(w.history, LostEntry(a));
    LastSendAppend(w.history, LostEntry(a), a);
    CleanAppend(before, sent);
    CleanAppend(before + [sent], LostEntry(a));
  }

  lemma CallIsClean(w: World, a: Asset, h: Hooks)
    requires RecordedOk(w) && Clean(w.history)
    ensures Clean(PublishAsset(w, a, h).0.history)
  {
    if a in w.markers {
      NoSendWhileMarked(w, a, h);
      CleanAppend(w.history, LostEntry(a));
    } else if h.build.Some? {
      var d := Decide(Current(w, a), h.build.value);
      if d.Some? && d.value.Publish? {
        PublishesExactlyWhen(Current(w, a), h.build.value);
        assert OnRecord(LastSend(w.history, a), a, w.stored, w.markers);
        hide Decide, Clean, LastSend, Commit;
        CommitIsClean(w, a, h, d.value.content);
      }
    }
  }

  lemma {:induction false} RunIsClean(stored: map<Asset, Watermark>, events: seq<Event>)
    requires ProperlyKeyed(stored)
    ensures Clean(Run(Start(stored), events).history)
    decreases |events|
  {
    if events != [] {
      var before := Run(Start(stored), events[..|events| - 1]);
      RunIsClean(stored, events[..|events| - 1]);
      RunKeeps(stored, events[..|events| - 1]);
      hide Run, PublishAsset, Clean;
      match events[|events| - 1] {
        case Call(a, h) => CallIsClean(before, a, h);
        case Lose(a) => CleanAppend(before.history, LostEntry(a));
      }
      StepHistory(before, events[|events| - 1]);
    }
  }

  lemma StepHistory(w: World, e: Event)
    ensures e.Call? ==> Step(w, e).history == PublishAsset(w, e.asset, e.hooks).0.history
    ensures e.Lose? ==> Step(w, e).history == w.history + [LostEntry(e.asset)]
  {
  }

  /** Nothing of this asset between two positions. */
  predicate Quiet(history: seq<Entry>, a: Asset, i: nat, j: nat) {
    forall k :: i < k < j && k < |history| ==> history[k].asset != a
  }

  lemma {:induction false} QuietLastSend(history: seq<Entry>, a: Asset, i: nat, j: nat)
    requires i < j <= |history| && history[i].SentEntry? && history[i].asset == a && Quiet(history, a, i, j)
    ensures LastSend(history[..j], a) == if history[i].mismatched then None else Some(history[i].content)
    decreases j
  {
    assert history[..j][..j - 1] == history[..j - 1];
    if j - 1 > i {
      QuietLastSend(history, a, i, j - 1);
    }
  }

  /** In every run, two successive sends of an asset with the same content have the loss of its stored watermark between
      them, unless the first ended in a lineage mismatch. */
  lemma NoDoublePublish(stored: map<Asset, Watermark>, events: seq<Event>, i: nat, j: nat)
    requires ProperlyKeyed(stored)
    requires var h := Run(Start(stored), events).history;
             && i < j < |h| && h[i].SentEntry? && h[j].SentEntry? && h[i].asset == h[j].asset
             && h[i].content == h[j].content
             && (forall k :: i < k < j && h[k].SentEntry? ==> h[k].asset != h[i].asset)
    ensures var h := Run(Start(stored), events).history;
            h[i].mismatched || exists k :: i < k < j && h[k] == LostEntry(h[i].asset)
  {
    var h := Run(Start(stored), events).history;
    RunIsClean(stored, events);
    hide Run;
    if !h[i].mismatched && Quiet(h, h[i].asset, i, j) {
      QuietLastSend(h, h[i].asset, i, j);
      assert false;
    }
  }

  // ---- The coordinator and its state ----

  class AtomicFxCoordinator {
    var stored: map<Asset, Watermark>
    var last: map<(Asset, Lineage), nat>
    var markers: map<Asset, Watermark>
    ghost var issued: seq<Watermark>
    ghost var written: seq<Watermark>
    ghost var history: seq<Entry>

    ghost function State(): World
      reads this
    {
      World(stored, last, markers, issued, written, history)
    }

    constructor (stored: map<Asset, Watermark>)
      requires ProperlyKeyed(stored)
      ensures State() == Start(stored) && Inv(State())
    {
      this.stored, last, markers, issued, written, history := stored, map[], map[], [], [], [];
    }

    method Publish(a: Asset, h: Hooks) returns (reply: Reply)
      requires Inv(State())
      modifies this
      ensures Inv(State()) && (State(), reply) == PublishAsset(old(State()), a, h)
    {
      hide Inv, Decide, Classify, Assign, Commit, Recover;
      PublishKeeps(State(), a, h);
      if a in markers {
        reply := RecoverMarker(a, h);
        return;
      }
      if h.gateOpen.None? {
        return Raised;
      }
      if !h.gateOpen.value {
        return Finished(GateWouldBlock, None, false, false);
      }
      if h.flags.None? {
        return Raised;
      }
      if !(h.flags.value.0 && h.flags.value.1) {
        return Finished(Disabled, None, false, false);
      }
      if !h.readable || h.build.None? {
        return Raised;
      }
      var current := if a in stored then Some(stored[a]) else None;
      var decision := Decide(current, h.build.value);
      match decision {
        case None => reply := Raised;
        case Some(Publish(content)) => reply := SendThenCommit(a, h, current, content);
        case Some(d) => reply := Relayed(d);
      }
    }

    method SendThenCommit(a: Asset, h: Hooks, current: Option<Watermark>, content: Content) returns (reply: Reply)
      requires current == Current(State(), a)
      modifies this
      ensures (State(), reply) == SendAndCommit(old(State()), a, h, content)
    {
      hide Classify;
      if h.send == NoSubscribers {
        return Finished(NoSubscribersAtSend, None, false, false);
      }
      if h.send == AllFailed {
        return Finished(AllSendFailed, None, false, false);
      }
      if h.send == SendRaised {
        return Finished(SendException, None, false, false);
      }
      var number := LastOf(last, a, h.lineage) + 1;
      if current.Some? && current.value.lineage == h.lineage && number <= current.value.number {
        number := current.value.number + 1;
      }
      var wm := Watermark(a, h.lineage, number, content, h.sentAt);
      assert wm == NextWatermark(State(), a, h, content);
      hide NextWatermark, LastOf, Assign;
      last := last[(a, h.lineage) := Max(LastOf(last, a, h.lineage), number)];
      var relation := Classify(current, wm);
      var action := ActionFor(relation);
      EvictedIf(a, h.loss == LostBeforeSend);
      issued, history := issued + [wm], history + [SentEntry(a, content, relation == LineageMismatch)];
      EvictedIf(a, h.loss == LostAfterSend);
      var ok := true;
      if action == DoWrite {
        ok := Set(a, wm, h.fate);
        if !ok {
          markers := markers[a := wm];
        }
      }
      reply := Finished(OutcomeFor(action, ok), Some(relation), true, false);
    }

    method RecoverMarker(a: Asset, h: Hooks) returns (reply: Reply)
      requires a in markers
      modifies this
      ensures (State(), reply) == Recover(old(State()), a, h)
    {
      hide Classify;
      if !h.readable {
        return Raised;
      }
      var marker := markers[a];
      var current := if a in stored then Some(stored[a]) else None;
      var relation := Classify(current, marker);
      var action := ActionFor(relation);
      EvictedIf(a, h.loss != NoLoss);
      var ok := true;
      if action == DoWrite {
        ok := Set(a, marker, h.fate);
      }
      if ok {
        markers := markers - {a};
      }
      reply := Finished(OutcomeFor(action, ok), Some(relation), false, true);
    }

    /** What the store does on its own. */
    method EvictedIf(a: Asset, evicted: bool)
      modifies this`stored, this`history
      ensures State() == if evicted then Evict(old(State()), a) else old(State())
    {
      if evicted {
        stored := stored - {a};
        history := history + [LostEntry(a)];
      }
    }

    /** The write of the key; false unless it is known to have happened. */
    method Set(a: Asset, wm: Watermark, fate: WriteFate) returns (ok: bool)
      modifies this`stored, this`written
      ensures ok == (fate == Written) && State() == Store(old(State()), a, wm, fate)
    {
      if fate != NotWritten {
        stored := stored[a := wm];
        written := written + [wm];
      }
      ok := fate == Written;
    }
  }
}
