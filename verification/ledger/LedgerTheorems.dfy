/** What holds of every run of the ledger. */
module LedgerTheorems {
  import opened Wrappers
  import opened Totals
  import opened Axes
  import opened LedgerState
  import opened LedgerSpec
  import opened LedgerInvariant
  import opened LedgerAdvance
  import opened LedgerSafety
  import opened LedgerHistory
  import opened LedgerClock

  // ---- Cumulative totals are exactly once ----

  lemma EveryContributionIsBalanced(included: map<nat, Included>)
    requires forall k :: k in included ==> WellFormed(included[k].source, included[k].detail)
    ensures forall k :: k in Contributions(included) ==> Balanced(Contributions(included)[k])
  {
    forall k | k in included ensures Balanced(Contributions(included)[k]) {
      ContributionIsBalanced(included[k].source, included[k].detail);
    }
  }

  lemma TotalIsBalanced(included: map<nat, Included>)
    requires forall k :: k in included ==> WellFormed(included[k].source, included[k].detail)
    ensures Balanced(Total(Contributions(included)))
  {
    EveryContributionIsBalanced(included);
    forall x, y | Balanced(x) && Balanced(y) ensures Balanced(x + y) {
      SumIsBalanced(x, y);
    }
    NothingIsBalanced();
    hide Balanced, Contribution;
    TotalKeeps(Contributions(included), m => Balanced(m));
  }

  lemma NothingIsBalanced()
    ensures Balanced(multiset{})
  {
    forall s: Source, p: Pair ensures ReasonsAddUp(multiset{}, s, p) {
      assert UnknownReasons(multiset{}, s, p, multiset{}) && NotAttemptedReasons(multiset{}, s, p, multiset{});
    }
  }

  /** The rounds that the totals count. */
  ghost function IncludedRounds(st: Ledger): map<nat, Included> { IncludedOf(st.retired) }

  lemma CumulativeIsBalanced(st: Ledger)
    requires Inv(st)
    ensures st.cumulative == Total(Contributions(IncludedRounds(st))) && Balanced(st.cumulative)
  {
    IncludedWellFormed(st.retired);
    hide Balanced, IncludedOf, IdsOk, OwnersOk, OwnedIdsOk, RecordsOk, RegisteredOk, TombsOk, ChangesOk, FrozenOk,
         LineOk;
    TotalIsBalanced(IncludedRounds(st));
  }

  lemma IncludedWellFormed(retired: map<nat, Record>)
    requires RetiredRecordsOk(retired)
    ensures var m := IncludedOf(retired); forall k :: k in m ==> WellFormed(m[k].source, m[k].detail)
  {
    hide WellFormed;
  }

  /** In every run the cumulative rows are the contributions of the included rounds, each once, and for every source and
      pair their equations hold. */
  lemma CumulativeIsExactlyOnce(start: int, maxRecords: nat, events: seq<Event>)
    ensures var st := Run(EmptyLedger(start, maxRecords), events);
            st.cumulative == Total(Contributions(IncludedRounds(st))) && Balanced(st.cumulative)
  {
    hide Inv, Balanced, Run;
    RunKeeps(start, maxRecords, events);
    CumulativeIsBalanced(Run(EmptyLedger(start, maxRecords), events));
  }

  /** Its bucket has been closed by a frontier that has reached its end. */
  predicate ClosedBy(r: Record, frontier: Option<int>) {
    r.finish.Some? && frontier.Some? && BucketEnd(r.finish.value.wall) <= frontier.value
  }

  predicate OpenlyIncluded(records: map<nat, Record>, k: nat) { k in records && records[k].inclusion == OpenIncluded }

  ghost predicate IncludedThrough(st: Ledger, t: Ledger) {
    && (forall k :: k in IncludedRounds(t) <==>
          k in IncludedRounds(st) || (OpenlyIncluded(st.records, k) && ClosedBy(st.records[k], t.frontier)))
    && (forall k :: k in IncludedRounds(st) ==> IncludedRounds(t)[k] == IncludedRounds(st)[k])
    && (forall k :: k in IncludedRounds(t) && k !in IncludedRounds(st) ==>
          st.records[k].detail.Some?
          && IncludedRounds(t)[k] == Included(st.records[k].source, st.records[k].detail.value))
  }

  lemma NotClosedYet(st: Ledger)
    requires Inv(st)
    ensures forall k :: k in st.records ==>
              && k !in st.retired && !ClosedBy(st.records[k], st.frontier)
              && (st.records[k].inclusion == OpenIncluded ==> st.records[k].detail.Some?)
  {
    hide IdsOk, OwnersOk, OwnedIdsOk, CumulativeOk, TombsOk, ChangesOk, FrozenOk, LineOk;
    forall k | k in st.records
      ensures !ClosedBy(st.records[k], st.frontier)
      ensures st.records[k].inclusion == OpenIncluded ==> st.records[k].detail.Some?
    {
      assert RecordOk(st.start, st.frontier, st.records[k]);
    }
  }

  lemma RetiredByClose(st: Ledger, wall: int, mono: int)
    ensures var a := CloseBuckets(st, wall, mono);
            var target := CloseTarget(st.records, wall, mono);
            if target <= PreviousEnd(st.start, st.frontier) then a.retired == st.retired && a.frontier == st.frontier
            else a.retired == st.retired + Closing(st.records, target) && a.frontier == Some(target)
  {
    var closing := Closing(st.records, CloseTarget(st.records, wall, mono));
    RetireLeaves(Count(st, closing).(frontier := Some(CloseTarget(st.records, wall, mono))), closing, wall, mono);
    hide CloseTarget, Closing, IncludedOf, Contributions, CohortTallies, LatestStart, Bury, Total, Retire;
  }

  /** Closing includes precisely the rounds that were openly included when the frontier passed the end of their
      bucket. */
  lemma ClosingIncludes(st: Ledger, wall: int, mono: int)
    requires Inv(st)
    ensures IncludedThrough(st, CloseBuckets(st, wall, mono))
  {
    hide Inv, CloseBuckets, CloseTarget, Contributions, WellFormed, IncludedOf, Closing, ClosedBy;
    NotClosedYet(st);
    RetiredByClose(st, wall, mono);
    var target := CloseTarget(st.records, wall, mono);
    if target <= PreviousEnd(st.start, st.frontier) {
      assert IncludedRounds(CloseBuckets(st, wall, mono)) == IncludedRounds(st);
    } else {
      ClosingJoins(st, target);
    }
  }

  lemma ClosingJoins(st: Ledger, target: int)
    requires forall k :: k in st.records ==>
               && k !in st.retired && (st.records[k].inclusion == OpenIncluded ==> st.records[k].detail.Some?)
    ensures var m := IncludedOf(st.retired + Closing(st.records, target));
            && (forall k :: k in m <==>
                  k in IncludedOf(st.retired)
                  || (OpenlyIncluded(st.records, k) && ClosedBy(st.records[k], Some(target))))
            && (forall k :: k in IncludedOf(st.retired) ==> m[k] == IncludedOf(st.retired)[k])
            && (forall k :: k in m && k !in IncludedOf(st.retired) ==>
                  st.records[k].detail.Some? && m[k] == Included(st.records[k].source, st.records[k].detail.value))
  {
    IncludedOfUnion(st.retired, Closing(st.records, target));
  }

  ghost predicate SameClosed(a: Ledger, b: Ledger) {
    IncludedRounds(b) == IncludedRounds(a) && b.frontier == a.frontier && b.clock == a.clock
  }

  lemma IsolateCloses(st: Ledger, k: nat, how: Isolation)
    requires k in st.records
    ensures SameClosed(st, IsolateRecord(st, k, how)) && SameClosed(st, IsolateAndTouch(st, k, how))
    ensures SameClosed(st, Touch(st, k))
    ensures k in IsolateRecord(st, k, how).records
  {
    hide IncludedOf, SyncJob, Isolated, Touched;
  }

  lemma ConflictCloses(st: Ledger, k: nat, key: (Source, Round))
    requires k in st.records
    ensures SameClosed(st, Conflict(st, k, key))
  {
    hide IsolateRecord, IncludedRounds;
    IsolateCloses(st, k, AsConflict);
    if OwnedByOther(st, k, key) && st.owners[key] in st.records {
      StaysLive(st, k, st.owners[key]);
      IsolateCloses(IsolateRecord(st, k, AsConflict), st.owners[key], AsConflict);
    }
  }

  lemma StaysLive(st: Ledger, k: nat, j: nat)
    requires k in st.records && j in st.records
    ensures j in IsolateRecord(st, k, AsConflict).records
  {
  }

  lemma BindCloses(st: Ledger, k: nat, round: Round)
    requires k in st.records
    ensures SameClosed(st, Touch(Bind(st, k, round), k))
  {
    hide IncludedOf, SyncJob;
  }

  lemma EnterCloses(st: Ledger, e: Event)
    requires e.Register?
    ensures SameClosed(st, Enter(NoteNextEntry(st, e), e)) && SameClosed(st, st.(admissionStopped := true))
  {
    hide NewRecord;
  }

  lemma RegisterApplyCloses(st: Ledger, e: Event)
    requires e.Register?
    ensures SameClosed(st, RegisterApply(st, e).0)
  {
    hide Enter, NoteNextEntry, IsolateAndTouch, Touch, SameRegistration, SameClosed;
    EnterCloses(st, e);
    NothingCloses(st);
    if Live(st, e.id) {
      IsolateCloses(st, st.ids[e.id], AsConflict);
    }
  }

  lemma NothingCloses(st: Ledger)
    ensures SameClosed(st, st)
  {
  }

  /** Either nothing that matters here happens, or the readings are turned away and only the clock changes, or they are
      accepted and the ledger advances. */
  ghost predicate Closes(st: Ledger, e: Event, t: Ledger) {
    || SameClosed(st, t) || TurnedAway(st, e, t)
    || (CheckClock(st.clock, e.wall, e.mono).Accepted? && SameClosed(Advance(st, e.wall, e.mono), t))
  }

  /** A pair of readings that is turned away changes nothing but the clock. */
  predicate TurnedAway(st: Ledger, e: Event, t: Ledger) {
    CheckClock(st.clock, e.wall, e.mono).Rejected?
    && t == st.(clock := CheckClock(st.clock, e.wall, e.mono).clock)
  }

  lemma LinkLiveCloses(st: Ledger, k: nat, e: Event)
    requires e.LinkRound? && k in st.records
    ensures SameClosed(st, LinkLive(st, k, e).0)
  {
    hide Conflict, IsolateRecord, IsolateAndTouch, Touch, Bind, SameClosed;
    ConflictCloses(st, k, (st.records[k].source, e.round));
    IsolateCloses(st, k, AsConflict);
    IsolateCloses(st, k, AsMixed);
    IsolateCloses(st, k, AsUnavailable);
    BindStays(st, k, e.round);
    BindCloses(st, k, e.round);
  }

  lemma IncludesNothing(retired: map<nat, Record>, dead: map<nat, Record>)
    requires retired.Keys !! dead.Keys && IncludedOf(dead) == map[]
    ensures IncludedOf(retired + dead) == IncludedOf(retired)
  {
    IncludedOfUnion(retired, dead);
  }

  lemma LateIncludesNothing(k: nat, last: Record)
    requires last.inclusion != OpenIncluded
    ensures map[k := last].Keys == {k} && IncludedOf(map[k := last]) == map[]
  {
  }

  lemma FirstFinishCloses(st: Ledger, k: nat, e: Event)
    requires e.Finish? && k in st.records && k !in st.retired
    ensures SameClosed(st, FirstFinish(st, k, e).0)
  {
    hide IncludedOf, Put, Retire, Normalize, Finished, CloseAt;
    var r := Finished(st.records[k], e);
    if e.wall >= CloseAt(e.finishedWall) {
      LateCloses(st, k, r.(lifecycle := Finalized, inclusion := PostCloseExcluded), e.wall, e.mono);
    } else if e.report.retention != Keep {
      PutCloses(st, k, r.(lifecycle := ReportUnavailable, inclusion := OpenExcluded, everUnavailable := true));
    } else {
      PutCloses(st, k, r.(lifecycle := Finalized, inclusion := OpenIncluded,
                detail := Some(Normalize(r.source, e.report.summary, e.report.telemetryError))));
    }
  }

  lemma LateCloses(st: Ledger, k: nat, last: Record, wall: int, mono: int)
    requires k !in st.retired && last.inclusion != OpenIncluded
    ensures SameClosed(st, Retire(Put(st, k, last), map[k := last], wall, mono))
  {
    hide IncludedOf, SyncJob, Retire;
    RetireLeaves(Put(st, k, last), map[k := last], wall, mono);
    LateIncludesNothing(k, last);
    IncludesNothing(st.retired, map[k := last]);
  }

  lemma FinishLiveCloses(st: Ledger, k: nat, e: Event)
    requires e.Finish? && k in st.records && k !in st.retired
    ensures SameClosed(st, FinishLive(st, k, e).0)
  {
    hide Conflict, IsolateRecord, IsolateAndTouch, Touch, FirstFinish, SameClosed, FinishTimesWrong, DigestOf;
    FirstFinishCloses(st, k, e);
    ConflictCloses(st, k, (st.records[k].source, e.round));
    IsolateCloses(st, k, AsConflict);
    IsolateCloses(st, k, AsMixed);
    IsolateCloses(st, k, AsUnavailable);
  }

  lemma PutCloses(st: Ledger, k: nat, r: Record)
    ensures SameClosed(st, Put(st, k, r)) && k in Put(st, k, r).records
  {
  }

  lemma InitFailedApplyCloses(st: Ledger, e: Event)
    requires e.ReportInitFailed?
    ensures SameClosed(st, InitFailedApply(st, e).0)
  {
    hide Put, IncludedRounds, IsolateRecord, Unavailable, EvidenceTimesWrong;
    if Live(st, e.id) {
      var k := st.ids[e.id];
      var r := st.records[k];
      var at := r.(initFailed := Some(Instant(e.failedWall, e.failedMono)));
      var failed := at.(connection := InitFailed);
      PutCloses(st, k, if Unreported(r) then Unavailable(failed) else failed);
      PutCloses(st, k, at);
      IsolateCloses(Put(st, k, at), k, AsConflict);
    }
  }

  lemma ExitApplyCloses(st: Ledger, e: Event)
    requires e.WrapperExit?
    ensures SameClosed(st, ExitApply(st, e).0)
  {
    hide IncludedOf, SyncJob, Unavailable, EvidenceTimesWrong;
  }

  lemma FaultCloses(st: Ledger)
    ensures SameClosed(st, Faulted(st).0)
  {
  }

  lemma RegisterStepCloses(st: Ledger, e: Event)
    requires e.Register?
    ensures var t := RegisterStep(st, e).0; Closes(st, e, t)
  {
    hide CheckClock, Advance, SameClosed, IdentityFault, CandidateFault, FinishOutOfStep, EvidenceTimesWrong,
         RegisterApply, LinkLive, FinishLive, InitFailedApply, ExitApply;
    NothingCloses(st);
    FaultCloses(st);
    var a := Advance(st, e.wall, e.mono);
    NothingCloses(a);
    RegisterApplyCloses(a, e);
  }

  lemma LinkStepCloses(st: Ledger, e: Event)
    requires e.LinkRound?
    ensures var t := LinkStep(st, e).0; Closes(st, e, t)
  {
    hide CheckClock, Advance, SameClosed, IdentityFault, CandidateFault, FinishOutOfStep, EvidenceTimesWrong,
         RegisterApply, LinkLive, FinishLive, InitFailedApply, ExitApply;
    NothingCloses(st);
    FaultCloses(st);
    var a := Advance(st, e.wall, e.mono);
    NothingCloses(a);
    if Live(a, e.id) {
      LinkLiveCloses(a, a.ids[e.id], e);
    }
  }

  lemma FinishStepCloses(st: Ledger, e: Event)
    requires e.Finish? && Inv(st)
    ensures var t := FinishStep(st, e).0; Closes(st, e, t)
  {
    hide Inv, CheckClock, Advance, SameClosed, IdentityFault, CandidateFault, FinishOutOfStep, FinishLive;
    NothingCloses(st);
    FaultCloses(st);
    var a := Advance(st, e.wall, e.mono);
    NothingCloses(a);
    AdvanceKeeps(st, e.wall, e.mono);
    if Live(a, e.id) {
      NotRetired(a, a.ids[e.id]);
      FinishLiveCloses(a, a.ids[e.id], e);
    }
  }

  lemma NotRetired(st: Ledger, k: nat)
    requires Inv(st) && k in st.records
    ensures k !in st.retired
  {
  }

  lemma InitFailedStepCloses(st: Ledger, e: Event)
    requires e.ReportInitFailed?
    ensures var t := InitFailedStep(st, e).0; Closes(st, e, t)
  {
    hide CheckClock, Advance, SameClosed, IdentityFault, CandidateFault, FinishOutOfStep, EvidenceTimesWrong,
         RegisterApply, LinkLive, FinishLive, InitFailedApply, ExitApply;
    NothingCloses(st);
    FaultCloses(st);
    var a := Advance(st, e.wall, e.mono);
    NothingCloses(a);
    InitFailedApplyCloses(a, e);
  }

  lemma ExitStepCloses(st: Ledger, e: Event)
    requires e.WrapperExit?
    ensures var t := ExitStep(st, e).0; Closes(st, e, t)
  {
    hide CheckClock, Advance, SameClosed, IdentityFault, CandidateFault, FinishOutOfStep, EvidenceTimesWrong,
         RegisterApply, LinkLive, FinishLive, InitFailedApply, ExitApply;
    NothingCloses(st);
    FaultCloses(st);
    var a := Advance(st, e.wall, e.mono);
    NothingCloses(a);
    ExitApplyCloses(a, e);
  }

  lemma ObserveStepCloses(st: Ledger, e: Event)
    requires e.Observe?
    ensures var t := ObserveStep(st, e).0; Closes(st, e, t)
  {
    hide CheckClock, Advance, SameClosed, IdentityFault, CandidateFault, FinishOutOfStep, EvidenceTimesWrong,
         RegisterApply, LinkLive, FinishLive, InitFailedApply, ExitApply;
    NothingCloses(st);
    FaultCloses(st);
    var a := Advance(st, e.wall, e.mono);
    NothingCloses(a);
  }

  /** What the operation itself does, on top of the advance, leaves the totals alone. */
  lemma OnlyAdvancesClose(st: Ledger, e: Event)
    requires Inv(st)
    ensures var t := Step(st, e).0; Closes(st, e, t)
  {
    hide Inv, Advance, SameClosed, RegisterStep, LinkStep, FinishStep, InitFailedStep, ExitStep, ObserveStep;
    match e {
      case Register(_, _, _, _, _, _, _, _, _) => RegisterStepCloses(st, e);
      case LinkRound(_, _, _, _, _) => LinkStepCloses(st, e);
      case Finish(_, _, _, _, _, _, _, _) => FinishStepCloses(st, e);
      case ReportInitFailed(_, _, _, _, _) => InitFailedStepCloses(st, e);
      case WrapperExit(_, _, _, _, _) => ExitStepCloses(st, e);
      case Observe(_, _) => ObserveStepCloses(st, e);
    }
  }

  lemma AdvanceCloses(st: Ledger, wall: int, mono: int)
    requires Inv(st)
    ensures var a, b := CloseBuckets(st, wall, mono), Advance(st, wall, mono);
            IncludedRounds(b) == IncludedRounds(a) && b.frontier == a.frontier
  {
    hide Inv, CloseBuckets, Prunable, Expiring, IncludedOf;
    CloseBucketsKeeps(st, wall, mono);
    var a := Stamp(CloseBuckets(st, wall, mono), wall, mono);
    StampKeeps(CloseBuckets(st, wall, mono), wall, mono);
    MarkOverduesKeeps(a, mono);
    ExpireCloses(MarkOverdues(a, mono), wall, mono);
    AdvanceFields(st, wall, mono);
    var b := ExpireUnfinished(MarkOverdues(a, mono), wall, mono);
    assert Advance(st, wall, mono).retired == b.retired;
  }

  lemma ExpireCloses(st: Ledger, wall: int, mono: int)
    requires Inv(st)
    ensures IncludedRounds(ExpireUnfinished(st, wall, mono)) == IncludedRounds(st)
  {
    ExpiringSettled(st.start, st.frontier, st.records, wall, mono);
    Disjoint(st, Expiring(st.records, wall, mono));
    hide Inv, Expiring, IncludedOf;
    RetireLeaves(st, Expiring(st.records, wall, mono), wall, mono);
    IncludesNothing(st.retired, Expiring(st.records, wall, mono));
    ExpireIsRetire(st, wall, mono);
  }

  lemma ExpireIsRetire(st: Ledger, wall: int, mono: int)
    ensures ExpireUnfinished(st, wall, mono) == Retire(st, Expiring(st.records, wall, mono), wall, mono)
  {
    hide Retire;
  }

  /** Whatever the event: a round becomes part of the totals precisely when the frontier passes the end of its bucket
      while it is openly included. */
  lemma StepIncludes(st: Ledger, e: Event)
    requires Inv(st)
    ensures IncludedThrough(st, Step(st, e).0)
  {
    hide Inv, Step, Advance, CloseBuckets, IncludedThrough, IncludedRounds, CheckClock;
    var t := Step(st, e).0;
    OnlyAdvancesClose(st, e);
    AdvanceCloses(st, e.wall, e.mono);
    ClosingIncludes(st, e.wall, e.mono);
    NothingIncluded(st);
    if SameClosed(st, t) || TurnedAway(st, e, t) {
      ClockIncludesNothing(st, t.clock);
      SameIncluded(st, st, t);
    } else {
      SameIncluded(st, CloseBuckets(st, e.wall, e.mono), t);
    }
  }

  lemma ClockIncludesNothing(st: Ledger, c: Clock)
    ensures IncludedRounds(st.(clock := c)) == IncludedRounds(st)
  {
  }

  lemma NothingIncluded(st: Ledger)
    requires Inv(st)
    ensures IncludedThrough(st, st)
  {
    hide Inv, IncludedRounds, ClosedBy;
    NotClosedYet(st);
  }

  lemma SameIncluded(st: Ledger, a: Ledger, b: Ledger)
    requires IncludedThrough(st, a) && IncludedRounds(b) == IncludedRounds(a) && b.frontier == a.frontier
    ensures IncludedThrough(st, b)
  {
    hide IncludedRounds;
  }

  // ---- The clock of a run ----

  /** Every operation leaves the clock alone or reads it once. */
  lemma StepReads(st: Ledger, e: Event)
    requires Inv(st)
    ensures var t := Step(st, e).0; t.clock == st.clock || t.clock == Read(st.clock, Instant(e.wall, e.mono))
  {
    hide Inv, Step, Advance, IncludedRounds;
    OnlyAdvancesClose(st, e);
    AdvanceFields(st, e.wall, e.mono);
  }

  /** In every run of the ledger accepted monotonic time never goes back, and wall time only by anchoring again. */
  lemma {:induction false} RunClockNeverGoesBack(start: int, maxRecords: nat, events: seq<Event>, i: nat)
    requires i <= |events|
    ensures Onward(Run(EmptyLedger(start, maxRecords), events[..i]).clock,
                   Run(EmptyLedger(start, maxRecords), events).clock)
    ensures ClockOk(Run(EmptyLedger(start, maxRecords), events).clock)
    decreases |events|
  {
    hide Inv, Step;
    if i == |events| {
      assert events[..i] == events;
    }
    if events != [] {
      var before, e := events[..|events| - 1], events[|events| - 1];
      var n := if i == |events| then 0 else i;
      assert before[..n] == events[..n];
      RunClockNeverGoesBack(start, maxRecords, before, n);
      RunKeeps(start, maxRecords, before);
      StepReads(Run(EmptyLedger(start, maxRecords), before), e);
      ReadOnward(Run(EmptyLedger(start, maxRecords), before).clock, Instant(e.wall, e.mono));
    }
  }

  // ---- Live keys lie beyond the frontier ----

  /** Whatever the clocks did, a report that is still live lies strictly beyond everything that is closed. */
  lemma PendingKeysBeyondFrontier(start: int, maxRecords: nat, events: seq<Event>, k: nat)
    requires k in Run(EmptyLedger(start, maxRecords), events).records
    ensures var st := Run(EmptyLedger(start, maxRecords), events);
            st.records[k].finish.Some? && st.frontier.Some? ==>
              BucketEnd(st.records[k].finish.value.wall) > st.frontier.value
  {
    hide Inv, Run;
    var st := Run(EmptyLedger(start, maxRecords), events);
    RunKeeps(start, maxRecords, events);
    LiveRecordOk(st, k);
  }

  // ---- The change stream replays ----

  function Apply(open: set<nat>, c: Change): set<nat> {
    match c.action
    case Add => open + {c.seqNo}
    case Remove => open - {c.seqNo}
  }

  function Replay(changes: seq<Change>): set<nat>
    decreases |changes|
  {
    if changes == [] then {} else Apply(Replay(changes[..|changes| - 1]), changes[|changes| - 1])
  }

  lemma {:induction false} ReplayIsLastAction(changes: seq<Change>, k: nat)
    ensures var acts := ActionsOf(changes, k); k in Replay(changes) <==> acts != [] && acts[|acts| - 1] == Add
    decreases |changes|
  {
    if changes != [] {
      ReplayIsLastAction(changes[..|changes| - 1], k);
    }
  }

  ghost function OpenRounds(records: map<nat, Record>): set<nat> {
    set k | k in records && records[k].inclusion == OpenIncluded
  }

  lemma ReplayIsIncluded(st: Ledger)
    requires Inv(st)
    ensures Replay(st.changes) == OpenRounds(st.records) + IncludedRounds(st).Keys
  {
    hide Inv, OpenRounds, IncludedRounds, ActionsOf, Replay;
    forall k: nat
      ensures k in Replay(st.changes) <==> k in OpenRounds(st.records) + IncludedRounds(st).Keys
    {
      ReplayIsLastAction(st.changes, k);
      ReplayedOne(st, k);
    }
  }

  lemma ReplayedOne(st: Ledger, k: nat)
    requires Inv(st)
    ensures ActionsOf(st.changes, k) == [Add] <==> k in OpenRounds(st.records) + IncludedRounds(st).Keys
    ensures ActionsOf(st.changes, k) <= [Add, Remove]
  {
    hide IdsOk, OwnersOk, OwnedIdsOk, RecordsOk, CumulativeOk, RegisteredOk, TombsOk, FrozenOk, LineOk, WellFormed;
    assert ChangeOk(ActionsOf(st.changes, k), k, st.records, st.retired);
    assert k in st.retired ==> Contributes(st.retired[k]);
  }

  /** Replaying every change ever announced yields exactly the rounds that are included, open or frozen; and for one
      invocation the changes are a prefix of "added, removed". */
  lemma ChangeStreamReplays(start: int, maxRecords: nat, events: seq<Event>)
    ensures var st := Run(EmptyLedger(start, maxRecords), events);
            && Replay(st.changes) == OpenRounds(st.records) + IncludedRounds(st).Keys
            && forall k: nat :: ActionsOf(st.changes, k) <= [Add, Remove]
  {
    hide Inv, Run, OpenRounds, IncludedRounds, Replay;
    RunKeeps(start, maxRecords, events);
    var st := Run(EmptyLedger(start, maxRecords), events);
    ReplayIsIncluded(st);
    ChangesArePrefixes(st);
  }

  lemma ChangesArePrefixes(st: Ledger)
    requires Inv(st)
    ensures forall k: nat :: ActionsOf(st.changes, k) <= [Add, Remove]
  {
    forall k: nat ensures ActionsOf(st.changes, k) <= [Add, Remove] {
      ReplayedOne(st, k);
    }
  }

  // ---- Cohorts ----

  /** Every invocation ever registered for a source with its start in the range. */
  ghost function EverRegistered(registered: seq<Registration>, source: Source, lo: int, hi: int): set<nat> {
    set k: nat | k <= |registered| && RegisteredIn(registered, k, source, lo, hi)
  }

  predicate RegisteredIn(registered: seq<Registration>, k: nat, source: Source, lo: int, hi: int) {
    1 <= k <= |registered| && registered[k - 1].source == source && lo <= registered[k - 1].startedWall < hi
  }

  ghost function Cohort(records: map<nat, Record>, source: Source, lo: int, hi: int): set<nat> {
    set k | k in records && records[k].source == source && lo <= records[k].startedWall < hi
  }

  /** A cohort above the frozen line is counted over all history. */
  lemma CohortIsExact(st: Ledger, source: Source, lo: int, hi: int)
    requires Inv(st) && CohortExactFrom(st.frozenThrough) <= lo
    ensures Cohort(st.records, source, lo, hi) == EverRegistered(st.registered, source, lo, hi)
  {
    var live, ever := Cohort(st.records, source, lo, hi), EverRegistered(st.registered, source, lo, hi);
    forall k: nat ensures k in live <==> k in ever {
      InCohort(st, k, source, lo, hi);
    }
  }

  lemma InCohort(st: Ledger, k: nat, source: Source, lo: int, hi: int)
    requires Inv(st) && CohortExactFrom(st.frozenThrough) <= lo
    ensures (k in st.records && st.records[k].source == source && lo <= st.records[k].startedWall < hi)
            <==> RegisteredIn(st.registered, k, source, lo, hi)
  {
    hide IdsOk, OwnersOk, OwnedIdsOk, RecordsOk, CumulativeOk, TombsOk, ChangesOk, FrozenOk;
    if k in st.records {
      StartOf(st, k);
    } else if 1 <= k <= st.nTotal {
      FrozenCovers(st, k);
    }
  }

  lemma CohortIsExactInRuns(start: int, maxRecords: nat, events: seq<Event>, source: Source, lo: int, hi: int)
    requires CohortExactFrom(Run(EmptyLedger(start, maxRecords), events).frozenThrough) <= lo
    ensures var st := Run(EmptyLedger(start, maxRecords), events);
            |Cohort(st.records, source, lo, hi)| == |EverRegistered(st.registered, source, lo, hi)|
  {
    hide Inv, Run, Cohort, EverRegistered;
    RunKeeps(start, maxRecords, events);
    CohortIsExact(Run(EmptyLedger(start, maxRecords), events), source, lo, hi);
  }

  /** Nothing below the frozen line can still register. */
  lemma RegistersAboveTheLine(st: Ledger, e: Event)
    requires e.Register? && RegisterStep(st, e).1 == Registered
    ensures var t := RegisterStep(st, e).0;
            && e.startedWall >= CohortExactFrom(t.frozenThrough)
            && t.registered == st.registered + [Registration(e.source, e.startedWall)]
  {
    hide Advance, CheckClock, IdentityFault, RegisterApply;
    var a := Advance(st, e.wall, e.mono);
    AdvanceFields(st, e.wall, e.mono);
    RegisterReply(a, e);
  }

  lemma RegisterReply(st: Ledger, e: Event)
    requires e.Register? && RegisterApply(st, e).1 == Registered
    ensures var t := RegisterApply(st, e).0;
            && t.frozenThrough == st.frozenThrough && e.startedWall >= CohortExactFrom(t.frozenThrough)
            && t.registered == st.registered + [Registration(e.source, e.startedWall)]
  {
    hide NewRecord, IsolateAndTouch, Touch;
  }

  // ---- Populations ----

  /** The round is owned by the one invocation that started it. */
  ghost predicate OwnershipIsOneToOne(st: Ledger) {
    && (forall key :: key in st.owners ==> Owns(st.records, st.tombs, st.owners[key], key))
    && (forall k, key :: Owns(st.records, st.tombs, k, key) ==> key in st.owners && st.owners[key] == k)
  }

  lemma OneToOne(st: Ledger)
    requires Inv(st)
    ensures OwnershipIsOneToOne(st)
  {
    hide OwnedIdsOk, RecordsOk, CumulativeOk, RegisteredOk, ChangesOk, FrozenOk, LineOk;
    forall k, key | Owns(st.records, st.tombs, k, key) ensures key in st.owners && st.owners[key] == k {
      assert k in st.records ==> OwnerIs(st.owners, st.records[k].source, st.records[k].connection, k);
      assert k in st.tombs ==> OwnerIs(st.owners, st.tombs[k].source, st.tombs[k].connection, k);
    }
  }

  /** `N_res = N_live + N_tomb`, and the frozen counters together with the live records make up everything that ever
      registered. */
  ghost predicate PopulationsAddUp(st: Ledger) {
    && Numbers(st.ids) == st.records.Keys + st.tombs.Keys && st.records.Keys !! st.tombs.Keys
    && |st.ids| == |st.records| + |st.tombs| <= st.maxRecords
    && FrozenInvocations(st.frozen) + |st.records| == st.nTotal
    && (forall s: Source :: FrozenBalanced(st.frozen, s))
  }

  ghost function Numbers(ids: map<Id, nat>): set<nat> { set i | i in ids :: ids[i] }

  lemma {:induction false} InjectiveSize(ids: map<Id, nat>)
    requires forall i, j :: i in ids && j in ids && ids[i] == ids[j] ==> i == j
    ensures |Numbers(ids)| == |ids|
    decreases |ids|
  {
    if ids != map[] {
      assert ids.Keys != {};
      var i := Any(ids.Keys);
      var rest := ids - {i};
      assert rest.Keys == ids.Keys - {i};
      SizeOfKeys(ids);
      SizeOfKeys(rest);
      InjectiveSize(rest);
      assert Numbers(ids) == Numbers(rest) + {ids[i]};
    }
  }

  lemma EveryNumberIsResident(ids: map<Id, nat>, records: map<nat, Record>, tombs: map<nat, Tomb>)
    requires IdsOk(ids, records, tombs)
    ensures Numbers(ids) == records.Keys + tombs.Keys
  {
    forall k | k in records.Keys + tombs.Keys ensures k in Numbers(ids) {
      var i := if k in records then records[k].id else tombs[k].id;
      assert i in ids && ids[i] == k;
    }
  }

  lemma ResidentsAddUp(ids: map<Id, nat>, records: map<nat, Record>, tombs: map<nat, Tomb>)
    requires IdsOk(ids, records, tombs)
    ensures Numbers(ids) == records.Keys + tombs.Keys && |ids| == |records| + |tombs|
  {
    EveryNumberIsResident(ids, records, tombs);
    InjectiveSize(ids);
    SizeOfKeys(records);
    SizeOfKeys(tombs);
    assert |records.Keys + tombs.Keys| == |records.Keys| + |tombs.Keys|;
  }

  lemma FrozenCountersBalance(st: Ledger)
    requires Inv(st)
    ensures FrozenInvocations(st.frozen) == |st.retired| && forall s: Source :: FrozenBalanced(st.frozen, s)
  {
    hide IdsOk, OwnersOk, OwnedIdsOk, RecordsOk, CumulativeOk, RegisteredOk, TombsOk, ChangesOk, LineOk, FrozenBalanced;
    TotalBalances(st.retired);
  }

  /** In every run the index error is never raised, ownership is one to one, resident identifiers, records and
      tombstones add up, and so do the frozen counters and the live records. */
  lemma IdentityAndPopulation(start: int, maxRecords: nat, events: seq<Event>)
    ensures var st := Run(EmptyLedger(start, maxRecords), events);
            !st.indexError && OwnershipIsOneToOne(st) && PopulationsAddUp(st)
  {
    hide Run;
    RunKeeps(start, maxRecords, events);
    var st := Run(EmptyLedger(start, maxRecords), events);
    ResidentsAddUp(st.ids, st.records, st.tombs);
    OneToOne(st);
    FrozenCountersBalance(st);
    hide OwnersOk, OwnedIdsOk, RecordsOk, CumulativeOk, TombsOk, ChangesOk, OwnershipIsOneToOne, FrozenOk, LineOk;
  }

  /** The counters of everything that ever registered: the frozen ones, and a count of the live records. */
  ghost function EpochTotals(st: Ledger): multiset<CohortKey> { st.frozen + Total(CohortTallies(st.records)) }

  lemma EpochTotalsOf(st: Ledger)
    requires Inv(st)
    ensures FrozenInvocations(EpochTotals(st)) == st.nTotal && forall s: Source :: FrozenBalanced(EpochTotals(st), s)
  {
    FrozenCountersBalance(st);
    LiveSources(st);
    hide IdsOk, OwnersOk, OwnedIdsOk, RecordsOk, CumulativeOk, TombsOk, ChangesOk, LineOk, FrozenOk, CohortTallies,
         FrozenBalanced, AllRegistered;
    TotalBalances(st.records);
    forall s: Source ensures FrozenBalanced(EpochTotals(st), s) {
      BalancesAdd(st.frozen, Total(CohortTallies(st.records)), s);
    }
  }

  lemma LiveSources(st: Ledger)
    requires Inv(st)
    ensures forall k :: k in st.records ==> st.records[k].source != Unsupported
  {
    forall k | k in st.records ensures st.records[k].source != Unsupported {
      LiveRecordOk(st, k);
    }
  }

  /** In every run frozen and live counts together make up all registrations, and for every source both the connection
      and the lifecycle counts add up to its invocations. */
  lemma EpochTotalsAddUp(start: int, maxRecords: nat, events: seq<Event>)
    ensures var st := Run(EmptyLedger(start, maxRecords), events);
            FrozenInvocations(EpochTotals(st)) == |st.registered|
            && forall s: Source :: FrozenBalanced(EpochTotals(st), s)
  {
    hide Run, EpochTotals, FrozenBalanced, FrozenInvocations;
    RunKeeps(start, maxRecords, events);
    EpochTotalsOf(Run(EmptyLedger(start, maxRecords), events));
  }

  // ---- First finish wins ----

  /** What the answer to a report on a linked round says about it. */
  lemma FinishAnswers(st: Ledger, k: nat, e: Event)
    requires e.Finish? && k in st.records
    ensures var (t, reply) := FinishStarted(st, k, e);
            var r, mine := st.records[k], DigestOf(st.records[k].source, e);
            && (reply in {FinalizedReply, ReportUnavailableReply, PostCloseFinish} ==> r.finish.None?)
            && (reply == FinalizedReply ==>
                  && k in t.records && t.records[k].finish.Some? && t.records[k].finish.value.digest == mine
                  && OpenlyIncluded(t.records, k) && t.changes == st.changes + [Change(k, Add)])
            && (reply == DuplicateFinish ==>
                  r.finish.Some? && r.finish.value.digest == mine && t.changes == st.changes)
            && (reply == ConflictingFinish ==>
                  && r.finish.Some? && r.finish.value.digest != mine && k in t.records
                  && t.records[k].finish == r.finish && !OpenlyIncluded(t.records, k)
                  && Isolatedly(t.records[k].lifecycle))
  {
    hide Inv, IsolateAndTouch, Touch, FirstFinish, FinishTimesWrong, DigestOf, OpenlyIncluded, Isolatedly;
    FinishedFacts(st, k, e);
    IsolatedFacts(st, k, AsMixed);
    IsolatedFacts(st, k, AsUnavailable);
    IsolatedFacts(st, k, AsConflict);
    TouchFacts(st, k);
  }

  lemma FinishedFacts(st: Ledger, k: nat, e: Event)
    requires e.Finish? && k in st.records
    ensures var (t, reply) := FirstFinish(st, k, e);
            && reply in {FinalizedReply, ReportUnavailableReply, PostCloseFinish}
            && (reply == FinalizedReply ==>
                  && k in t.records && t.records[k].finish.Some?
                  && t.records[k].finish.value.digest == DigestOf(st.records[k].source, e)
                  && OpenlyIncluded(t.records, k) && t.changes == st.changes + [Change(k, Add)])
  {
    hide SyncJob, Retire, Normalize, CloseAt;
  }

  lemma IsolatedFacts(st: Ledger, k: nat, how: Isolation)
    requires k in st.records
    ensures var t := IsolateAndTouch(st, k, how);
            && k in t.records && t.records[k].finish == st.records[k].finish && !OpenlyIncluded(t.records, k)
            && (how == AsConflict ==> Isolatedly(t.records[k].lifecycle))
  {
    hide SyncJob;
  }

  lemma TouchFacts(st: Ledger, k: nat)
    requires k in st.records
    ensures var t := Touch(st, k);
            && t.changes == st.changes && k in t.records && t.records[k].finish == st.records[k].finish
            && (OpenlyIncluded(t.records, k) <==> OpenlyIncluded(st.records, k))
  {
    hide SyncJob;
  }

  /** In every run: whoever is told that its report is final has its record live and unfinished before, and finished
      with exactly this report, counted, and announced once, after. */
  lemma FinalizedIsFirst(start: int, maxRecords: nat, events: seq<Event>, e: Event)
    requires e.Finish? && Step(Run(EmptyLedger(start, maxRecords), events), e).1 == FinalizedReply
    ensures var st := Run(EmptyLedger(start, maxRecords), events);
            var t := Step(st, e).0;
            && Live(st, e.id)
            && var k := st.ids[e.id];
               && st.records[k].finish.None? && k in t.records && t.records[k].finish.Some?
               && t.records[k].finish.value.digest == DigestOf(st.records[k].source, e)
               && OpenlyIncluded(t.records, k) && t.changes == st.changes + [Change(k, Add)]
  {
    hide Run;
    RunKeeps(start, maxRecords, events);
    FinalizedStep(Run(EmptyLedger(start, maxRecords), events), e);
  }

  lemma FinalizedStep(st: Ledger, e: Event)
    requires e.Finish? && Inv(st) && Step(st, e).1 == FinalizedReply
    ensures var t := Step(st, e).0;
            && Live(st, e.id)
            && var k := st.ids[e.id];
               && st.records[k].finish.None? && k in t.records && t.records[k].finish.Some?
               && t.records[k].finish.value.digest == DigestOf(st.records[k].source, e)
               && OpenlyIncluded(t.records, k) && t.changes == st.changes + [Change(k, Add)]
  {
    hide Inv, Advance, CheckClock, FinishStarted, IdentityFault, CandidateFault, FinishOutOfStep, DigestOf,
           OpenlyIncluded,
         Conflict, IsolateRecord, IsolateAndTouch, FinishTomb;
    var a := Advance(st, e.wall, e.mono);
    FinalizedReaches(st, e);
    var k := a.ids[e.id];
    AdvanceIds(st, e.wall, e.mono);
    AdvanceRecord(st, e.wall, e.mono, k);
    AdvanceFields(st, e.wall, e.mono);
    FinishAnswers(a, k, e);
  }

  /** Only a report on a linked live record is told that it is final. */
  lemma FinalizedReaches(st: Ledger, e: Event)
    requires e.Finish? && Step(st, e).1 == FinalizedReply
    ensures var a := Advance(st, e.wall, e.mono);
            && Live(a, e.id) && a.records[a.ids[e.id]].connection == Started(e.round)
            && Step(st, e) == FinishStarted(a, a.ids[e.id], e)
  {
    hide Advance, CheckClock, FinishStarted, IdentityFault, CandidateFault, FinishOutOfStep, DigestOf,
         Conflict, IsolateRecord, IsolateAndTouch;
  }

  /** A proper report that gets through to a live record, for the round of its first finish. */
  ghost predicate Repeats(st: Ledger, e: Event, k: nat)
    requires e.Finish?
  {
    && Live(st, e.id) && st.ids[e.id] == k
    && st.records[k].finish.Some? && st.records[k].connection == Started(e.round)
    && !BeforeOrigin(st, e.wall) && CheckClock(st.clock, e.wall, e.mono).Accepted?
    && k in Advance(st, e.wall, e.mono).records
    && e.contract == RegisteredContract(st.records[k].source) && !e.report.problem
  }

  lemma RepeatSurvives(st: Ledger, e: Event, k: nat)
    requires e.Finish? && Inv(st) && Repeats(st, e, k)
    ensures var a := Advance(st, e.wall, e.mono);
            && Inv(a) && k in a.records && a.records[k] == st.records[k] && a.changes == st.changes
            && Live(a, e.id) && a.ids[e.id] == k && !OwnedByOther(a, k, (st.records[k].source, e.round))
  {
    hide Inv, Advance, CheckClock;
    AdvanceRecord(st, e.wall, e.mono, k);
    AdvanceFields(st, e.wall, e.mono);
    AdvanceKeeps(st, e.wall, e.mono);
    LiveIdentity(st, e.id, k);
    LiveOwner(Advance(st, e.wall, e.mono), k, e.round);
  }

  lemma RepeatReaches(st: Ledger, e: Event, k: nat)
    requires e.Finish? && Inv(st) && Repeats(st, e, k)
    ensures var a := Advance(st, e.wall, e.mono); k in a.records && Step(st, e) == FinishStarted(a, k, e)
  {
    hide Inv, Advance, CheckClock, FinishStarted, IdentityFault, CandidateFault;
    RepeatSurvives(st, e, k);
    NoIdentityFault(st, e.id);
    NoCandidateFault(st, (st.records[k].source, e.round));
    NoIndexError(st);
  }

  lemma LiveIdentity(st: Ledger, id: Id, k: nat)
    requires Inv(st) && Live(st, id) && st.ids[id] == k
    ensures st.records[k].id == id
  {
    hide OwnersOk, OwnedIdsOk, RecordsOk, CumulativeOk, RegisteredOk, TombsOk, ChangesOk, FrozenOk, LineOk;
  }

  lemma LiveOwner(st: Ledger, k: nat, round: Round)
    requires Inv(st) && k in st.records && st.records[k].connection == Started(round)
    ensures Live(st, st.records[k].id) && st.ids[st.records[k].id] == k
    ensures !OwnedByOther(st, k, (st.records[k].source, round))
  {
    hide OwnedIdsOk, RecordsOk, CumulativeOk, RegisteredOk, TombsOk, ChangesOk, FrozenOk, LineOk;
    assert OwnerIs(st.owners, st.records[k].source, st.records[k].connection, k);
  }

  /** A report with the digest of the first is out of order exactly if it is received before the time of the first. */
  lemma SameReportInOrder(start: int, frontier: Option<int>, r: Record, e: Event)
    requires e.Finish? && ReportOk(r) && r.finish.Some? && RecordOk(start, frontier, r)
    requires r.finish.value.digest == DigestOf(r.source, e)
    ensures FinishTimesWrong(r, e) <==> e.wall < r.finish.value.wall || e.mono < r.finish.value.mono
  {
  }

  /** The answer to a repeated report, given the first. */
  ghost predicate AnsweredBy(st: Ledger, first: FinishInfo, e: Event, k: nat)
    requires e.Finish? && k in st.records
  {
    var (t, reply) := Step(st, e);
    var same := first.digest == DigestOf(st.records[k].source, e);
    var late := first.wall <= e.wall && first.mono <= e.mono;
    var isolated := Isolatedly(st.records[k].lifecycle);
    && (reply == ConflictingFinish <==> !same)
    && (reply == DuplicateFinish <==> same && late && !isolated)
    && (reply == AfterConflictRedelivery <==> same && late && isolated)
    && (reply == TimeIntegrityError <==> same && !late)
    && k in t.records && t.records[k].finish == Some(first)
    && (OpenlyIncluded(t.records, k) <==> same && late && OpenlyIncluded(st.records, k))
    && (t.changes ==
        if !(same && late) && OpenlyIncluded(st.records, k) then st.changes + [Change(k, Remove)] else st.changes)
    && (!same ==> Isolatedly(t.records[k].lifecycle))
  }

  lemma RepeatAnswered(st: Ledger, e: Event, k: nat)
    requires e.Finish? && Inv(st) && Repeats(st, e, k) && ReportOk(st.records[k])
    ensures AnsweredBy(st, st.records[k].finish.value, e, k)
  {
    hide Inv, FinishStarted, FinishTimesWrong, DigestOf, Step, Advance, CheckClock, ReportOk, RecordOk, Isolatedly,
         OpenlyIncluded;
    RepeatSurvives(st, e, k);
    RepeatReaches(st, e, k);
    LiveRecordOk(st, k);
    if st.records[k].finish.value.digest == DigestOf(st.records[k].source, e) {
      SameReportInOrder(st.start, st.frontier, st.records[k], e);
    }
    var a := Advance(st, e.wall, e.mono);
    StartedAnswered(a, e, k);
    OpenlyIncludedIs(a, st, k);
  }

  lemma OpenlyIncludedIs(a: Ledger, b: Ledger, k: nat)
    requires k in a.records && k in b.records && a.records[k] == b.records[k]
    ensures OpenlyIncluded(a.records, k) <==> OpenlyIncluded(b.records, k)
  {
  }

  /** The same answer by its branches. */
  lemma StartedAnswered(a: Ledger, e: Event, k: nat)
    requires e.Finish? && k in a.records && a.records[k].finish.Some?
    requires e.contract == RegisteredContract(a.records[k].source) && !e.report.problem
    ensures var (t, reply) := FinishStarted(a, k, e);
            var r := a.records[k];
            var same := r.finish.value.digest == DigestOf(r.source, e);
            var late := !FinishTimesWrong(r, e);
            && (reply == ConflictingFinish <==> !same)
            && (reply == DuplicateFinish <==> same && late && !Isolatedly(r.lifecycle))
            && (reply == AfterConflictRedelivery <==> same && late && Isolatedly(r.lifecycle))
            && (reply == TimeIntegrityError <==> same && !late)
            && k in t.records && t.records[k].finish == r.finish
            && (OpenlyIncluded(t.records, k) <==> same && late && OpenlyIncluded(a.records, k))
            && (t.changes ==
                if !(same && late) && OpenlyIncluded(a.records, k) then a.changes + [Change(k, Remove)] else a.changes)
            && (!same ==> Isolatedly(t.records[k].lifecycle))
  {
    hide IsolateAndTouch, Touch, FinishTimesWrong, DigestOf, OpenlyIncluded, FirstFinish;
    IsolatedFacts(a, k, AsUnavailable);
    IsolatedFacts(a, k, AsConflict);
    IsolatedChanges(a, k, AsUnavailable);
    IsolatedChanges(a, k, AsConflict);
    TouchFacts(a, k);
  }

  lemma IsolatedChanges(st: Ledger, k: nat, how: Isolation)
    requires k in st.records
    ensures IsolateAndTouch(st, k, how).changes
            == if OpenlyIncluded(st.records, k) then st.changes + [Change(k, Remove)] else st.changes
  {
    hide SyncJob;
  }

  /** In every run the first finish of a live invocation wins: a later proper report for its round is called conflicting
      exactly if its digest differs, and a duplicate exactly if the digest is the same, it is not received before the
      time of the first, and the record is not isolated. The first finish stays, and whether it still counts is decided
      by the answer. */
  lemma FirstFinishWins(start: int, maxRecords: nat, events: seq<Event>, i: nat, e: Event, k: nat)
    requires e.Finish? && i <= |events|
    requires var s := Run(EmptyLedger(start, maxRecords), events[..i]); k in s.records && s.records[k].finish.Some?
    requires Repeats(Run(EmptyLedger(start, maxRecords), events), e, k)
    ensures var s, st := Run(EmptyLedger(start, maxRecords), events[..i]), Run(EmptyLedger(start, maxRecords), events);
            AnsweredBy(st, s.records[k].finish.value, e, k)
  {
    var st := Run(EmptyLedger(start, maxRecords), events);
    RunKeeps(start, maxRecords, events);
    HistoryFollows(start, maxRecords, events, i);
    HistoryFollows(start, maxRecords, events, 0);
    assert events[..0] == [];
    FirstReportOk(EmptyLedger(start, maxRecords), st, k);
    FirstReportStays(Run(EmptyLedger(start, maxRecords), events[..i]), st, k);
    hide Inv, Run, Follows, AnsweredBy, ReportOk;
    RepeatAnswered(st, e, k);
  }

  lemma FirstReportOk(a: Ledger, b: Ledger, k: nat)
    requires Follows(a, b) && k in b.records && k !in a.records
    ensures ReportOk(b.records[k])
  {
    hide ReportOk, Evolves, Leaves;
  }

  lemma FirstReportStays(a: Ledger, b: Ledger, k: nat)
    requires Follows(a, b) && k in a.records && k in b.records && a.records[k].finish.Some?
    ensures b.records[k].finish == a.records[k].finish
  {
    hide ReportOk, Leaves;
    assert Evolves(a.records[k], b.records[k]);
  }
}
