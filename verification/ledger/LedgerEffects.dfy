/** What each operation does, told by its event, its readings and the ledger it finds: when it is heard at all, when it
    is taken, and what it then leaves. */
module LedgerEffects {
  import opened Wrappers
  import opened Totals
  import opened Axes
  import opened LedgerState
  import opened LedgerSpec
  import opened LedgerInvariant
  import opened LedgerAdvance
  import opened LedgerSafety
  import opened LedgerHistory
  import opened LedgerClock
  import opened LedgerTheorems
  import opened LedgerTime

  // ---- What is heard ----

  function Readings(e: Event): Instant { Instant(e.wall, e.mono) }

  /** The pair of readings is taken for the present; the first pair may not lie before the ledger's own start. */
  predicate Heard(st: Ledger, e: Event) {
    Accepts(st.clock, Readings(e)) && (st.clock.last.None? ==> e.wall >= st.start)
  }

  /** A first report that would fall behind the closed frontier although its bucket is still open, or whose bucket is
      due by wall time alone. */
  predicate BetweenClocks(st: Ledger, r: Record, e: Event)
    requires e.Finish?
  {
    && r.connection == Started(e.round) && r.finish.None?
    && r.startedWall <= e.finishedWall <= e.wall && r.startedMono <= e.finishedMono <= e.mono
    && var f := FinishInfo(e.finishedWall, e.finishedMono, DigestOf(r.source, e));
       if e.wall < ClosingWall(f) then st.frontier.Some? && NextMinute(f) <= st.frontier.value
       else e.mono < ClosingMono(f)
  }

  predicate WithinLife(r: Record, atWall: int, atMono: int, e: Event) {
    r.startedWall <= atWall <= e.wall && r.startedMono <= atMono <= e.mono
  }

  /** The event is one that the ledger acts on once it is heard. */
  predicate Acted(st: Ledger, e: Event) {
    match e
    case Register(id, _, startedWall, _, _, _, job, serial, _) =>
      !(serial && job.None?) && ((id in st.ids && st.ids[id] in st.records) || startedWall >= st.start)
    case LinkRound(id, _, _, _, _) => id in st.ids
    case Finish(id, _, _, _, _, _, _, _) =>
      id in st.ids && (st.ids[id] in st.records ==> !BetweenClocks(st, st.records[st.ids[id]], e))
    case ReportInitFailed(id, wall, mono, _, _) =>
      id in st.ids && (st.ids[id] in st.records ==> WithinLife(st.records[st.ids[id]], wall, mono, e))
    case WrapperExit(id, wall, mono, _, _) =>
      id in st.ids && (st.ids[id] in st.records ==> WithinLife(st.records[st.ids[id]], wall, mono, e))
    case Observe(_, _) => true
  }

  ghost function Apply(a: Ledger, e: Event): (Ledger, Reply) {
    match e
    case Register(_, _, _, _, _, _, _, _, _) => RegisterApply(a, e)
    case LinkRound(_, _, _, _, _) => LinkApply(a, e)
    case Finish(_, _, _, _, _, _, _, _) => FinishApply(a, e)
    case ReportInitFailed(_, _, _, _, _) => InitFailedApply(a, e)
    case WrapperExit(_, _, _, _, _) => ExitApply(a, e)
    case Observe(_, _) => (a, Snapshot)
  }

  lemma Resident(st: Ledger, id: Id)
    requires Inv(st)
    ensures id in st.ids <==> Live(st, id) || Tombstoned(st, id)
    ensures !st.indexError
  {
    hide OwnersOk, OwnedIdsOk, RecordsOk, CumulativeOk, RegisteredOk, TombsOk, ChangesOk, FrozenOk, LineOk;
  }

  lemma OutOfStepIs(st: Ledger, r: Record, e: Event)
    requires e.Finish?
    ensures FinishOutOfStep(st, r, e) <==> BetweenClocks(st, r, e)
  {
    SameMinute(FinishInfo(e.finishedWall, e.finishedMono, DigestOf(r.source, e)));
  }

  /** The event is proper enough for its readings to be looked at. */
  predicate Looked(st: Ledger, e: Event) {
    && (if e.Register? then Acted(st, e) else e.Observe? || e.id in st.ids)
    && (st.clock.last.None? ==> e.wall >= st.start)
  }

  /** What an event that is turned away is told. */
  function TurnedAway(st: Ledger, e: Event): Reply {
    if e.Register? && !Acted(st, e) then InvalidArgument
    else if !e.Register? && !e.Observe? && e.id !in st.ids then
      (if st.identityPruned then ExpiredIdentityUnverified else Orphan)
    else if st.clock.last.None? && e.wall < st.start then InvalidArgument
    else if !Accepts(st.clock, Readings(e)) then
      (if st.clock.last.Some? && e.mono < st.clock.last.value.mono then TimeIntegrityError else ClockUnverified)
    else if e.Finish? then ClockUnverified
    else TimeIntegrityError
  }

  /** An event that is acted on and heard is carried out on the advanced ledger. Any other is turned away, and at most
      the clock keeps its readings, if they were looked at and not accepted. */
  ghost predicate Answered(st: Ledger, e: Event) {
    var (t, reply) := Step(st, e);
    if Acted(st, e) && Heard(st, e) then (t, reply) == Apply(Advance(st, e.wall, e.mono), e)
    else
      && t == (if Looked(st, e) && !Accepts(st.clock, Readings(e))
               then st.(clock := Read(st.clock, Readings(e))) else st)
      && reply == TurnedAway(st, e)
  }

  lemma GateSays(c: Clock, at: Instant)
    requires ClockOk(c)
    ensures CheckClock(c, at.wall, at.mono).Accepted? <==> Accepts(c, at)
    ensures !Accepts(c, at) ==>
              CheckClock(c, at.wall, at.mono) == Rejected(Read(c, at), c.last.Some? && at.mono < c.last.value.mono)
    ensures c.last.None? ==> Accepts(c, at)
  {
    hide Isolate;
  }

  lemma RegisterHeard(st: Ledger, e: Event)
    requires e.Register? && Inv(st) && ClockOk(st.clock)
    ensures Answered(st, e)
  {
    hide Inv, Advance, CheckClock, IdentityFault, Accepts, Read, ClockOk, Isolate, RegisterApply;
    GateSays(st.clock, Readings(e));
    NoIdentityFault(st, e.id);
    Resident(st, e.id);
  }

  lemma LinkHeard(st: Ledger, e: Event)
    requires e.LinkRound? && Inv(st) && ClockOk(st.clock)
    ensures Answered(st, e)
  {
    hide Inv, Advance, CheckClock, IdentityFault, Accepts, Read, ClockOk, Isolate, CandidateFault,
         LinkApply;
    GateSays(st.clock, Readings(e));
    NoIdentityFault(st, e.id);
    Resident(st, e.id);
    if Live(st, e.id) {
      NoCandidateFault(st, (st.records[st.ids[e.id]].source, e.round));
    }
  }

  lemma FinishHeard(st: Ledger, e: Event)
    requires e.Finish? && Inv(st) && ClockOk(st.clock)
    ensures Answered(st, e)
  {
    hide Inv, Advance, CheckClock, IdentityFault, Accepts, Read, ClockOk, Isolate, CandidateFault,
         FinishApply, FinishOutOfStep, BetweenClocks;
    GateSays(st.clock, Readings(e));
    NoIdentityFault(st, e.id);
    Resident(st, e.id);
    if Live(st, e.id) {
      NoCandidateFault(st, (st.records[st.ids[e.id]].source, e.round));
      OutOfStepIs(st, st.records[st.ids[e.id]], e);
    }
  }

  lemma EvidenceInLife(r: Record, atWall: int, atMono: int, e: Event)
    ensures EvidenceTimesWrong(r, atWall, atMono, e.wall, e.mono) <==> !WithinLife(r, atWall, atMono, e)
  {
  }

  lemma InitFailedHeard(st: Ledger, e: Event)
    requires e.ReportInitFailed? && Inv(st) && ClockOk(st.clock)
    ensures Answered(st, e)
  {
    hide Inv, Advance, CheckClock, IdentityFault, Accepts, Read, ClockOk, Isolate, InitFailedApply,
         EvidenceTimesWrong, WithinLife;
    GateSays(st.clock, Readings(e));
    NoIdentityFault(st, e.id);
    Resident(st, e.id);
    if Live(st, e.id) {
      EvidenceInLife(st.records[st.ids[e.id]], e.failedWall, e.failedMono, e);
    }
  }

  lemma ExitHeard(st: Ledger, e: Event)
    requires e.WrapperExit? && Inv(st) && ClockOk(st.clock)
    ensures Answered(st, e)
  {
    hide Inv, Advance, CheckClock, IdentityFault, Accepts, Read, ClockOk, Isolate, ExitApply,
         EvidenceTimesWrong, WithinLife;
    GateSays(st.clock, Readings(e));
    NoIdentityFault(st, e.id);
    Resident(st, e.id);
    if Live(st, e.id) {
      EvidenceInLife(st.records[st.ids[e.id]], e.exitedWall, e.exitedMono, e);
    }
  }

  lemma ObserveHeard(st: Ledger, e: Event)
    requires e.Observe? && Inv(st) && ClockOk(st.clock)
    ensures Answered(st, e)
  {
    hide Inv, Advance, CheckClock, Accepts, Read, ClockOk, Isolate;
    GateSays(st.clock, Readings(e));
    NoIndexError(st);
  }

  lemma EventHeard(st: Ledger, e: Event)
    requires Inv(st) && ClockOk(st.clock)
    ensures Answered(st, e)
  {
    hide Inv, Answered, ClockOk;
    match e {
      case Register(_, _, _, _, _, _, _, _, _) => RegisterHeard(st, e);
      case LinkRound(_, _, _, _, _) => LinkHeard(st, e);
      case Finish(_, _, _, _, _, _, _, _) => FinishHeard(st, e);
      case ReportInitFailed(_, _, _, _, _) => InitFailedHeard(st, e);
      case WrapperExit(_, _, _, _, _) => ExitHeard(st, e);
      case Observe(_, _) => ObserveHeard(st, e);
    }
  }

  lemma HeardMoves(st: Ledger, e: Event)
    requires Inv(st) && ClockOk(st.clock) && Acted(st, e) && Heard(st, e)
    ensures var t := Step(st, e).0; t.clock == st.clock.(last := Some(Readings(e))) && !t.clock.isolated
  {
    hide Inv, Step, Accepts, CheckClock, Isolate, Advance, Apply, Acted, TurnedAway, Looked, Read, ClockOk;
    EventHeard(st, e);
    NotIsolated(st.clock, Readings(e));
    AdvanceFields(st, e.wall, e.mono);
    AdvanceKeeps(st, e.wall, e.mono);
    ApplyKeepsClock(Advance(st, e.wall, e.mono), e);
  }

  lemma UnheardStays(st: Ledger, e: Event)
    requires Inv(st) && ClockOk(st.clock) && !(Acted(st, e) && Heard(st, e))
    ensures var (t, reply) := Step(st, e);
            && reply == TurnedAway(st, e) && t == st.(clock := t.clock)
            && (t.clock.last == st.clock.last || t.clock.reanchors == st.clock.reanchors + 1)
  {
    hide Inv, Step, Accepts, CheckClock, Isolate, Advance, Apply, Acted, TurnedAway, Looked, Read, ClockOk, Heard;
    EventHeard(st, e);
    GateIsExact(st.clock, Readings(e));
  }

  /** In every run the clock moves on, without being anchored again, exactly for the events that are acted on and heard;
      any other event leaves everything but the clock as it is, and is told why. */
  lemma MovesOnlyWhenHeard(start: int, maxRecords: nat, events: seq<Event>, e: Event)
    ensures var st := Run(EmptyLedger(start, maxRecords), events);
            var (t, reply) := Step(st, e);
            if Acted(st, e) && Heard(st, e)
            then t.clock == st.clock.(last := Some(Readings(e))) && !t.clock.isolated
            else
              && reply == TurnedAway(st, e) && t == st.(clock := t.clock)
              && (t.clock.last == st.clock.last || t.clock.reanchors == st.clock.reanchors + 1)
  {
    hide Inv, Run, Step, Acted, Heard, TurnedAway, ClockOk;
    var st := Run(EmptyLedger(start, maxRecords), events);
    RunKeeps(start, maxRecords, events);
    RunClockNeverGoesBack(start, maxRecords, events, 0);
    if Acted(st, e) && Heard(st, e) {
      HeardMoves(st, e);
    } else {
      UnheardStays(st, e);
    }
  }

  lemma NotIsolated(c: Clock, at: Instant)
    requires ClockOk(c) && Accepts(c, at)
    ensures !c.isolated
  {
  }

  lemma ApplyKeepsClock(a: Ledger, e: Event)
    requires Inv(a)
    ensures Apply(a, e).0.clock == a.clock && IncludedRounds(Apply(a, e).0) == IncludedRounds(a)
  {
    hide Inv, RegisterApply, LinkLive, FinishLive, InitFailedApply, ExitApply, IncludedRounds;
    match e {
      case Register(_, _, _, _, _, _, _, _, _) => RegisterApplyCloses(a, e);
      case LinkRound(_, _, _, _, _) => if Live(a, e.id) { LinkLiveCloses(a, a.ids[e.id], e); }
      case Finish(_, _, _, _, _, _, _, _) =>
        NotClosedYet(a);
        if Live(a, e.id) { FinishLiveCloses(a, a.ids[e.id], e); }
      case ReportInitFailed(_, _, _, _, _) => InitFailedApplyCloses(a, e);
      case WrapperExit(_, _, _, _, _) => ExitApplyCloses(a, e);
      case Observe(_, _) =>
    }
  }

  // ---- Closing on time ----

  /** What an event that is acted on and heard starts from. */
  lemma StartsFromAdvance(start: int, maxRecords: nat, events: seq<Event>, e: Event)
    requires var st := Run(EmptyLedger(start, maxRecords), events); Acted(st, e) && Heard(st, e)
    ensures var st := Run(EmptyLedger(start, maxRecords), events);
            var a := Advance(st, e.wall, e.mono);
            && Inv(st) && Inv(a) && Step(st, e) == Apply(a, e)
            && (forall k :: k in a.records ==> k in st.records && a.records[k] == MarkOverdue(st.records[k], e.mono))
            && (forall id :: id in a.ids ==> id in st.ids && st.ids[id] == a.ids[id])
            && a.nTotal == st.nTotal && a.registered == st.registered && a.changes == st.changes
            && a.admissionStopped == st.admissionStopped && a.maxRecords == st.maxRecords && a.start == st.start
            && a.jobs == st.jobs
  {
    hide Inv, Run, Step, Apply, Acted, Heard, Advance, Accepts, MarkOverdue;
    var st := Run(EmptyLedger(start, maxRecords), events);
    RunKeeps(start, maxRecords, events);
    RunClockNeverGoesBack(start, maxRecords, events, 0);
    EventHeard(st, e);
    AdvanceKeeps(st, e.wall, e.mono);
    AdvanceFields(st, e.wall, e.mono);
    AdvanceIds(st, e.wall, e.mono);
    forall k | k in Advance(st, e.wall, e.mono).records
      ensures k in st.records && Advance(st, e.wall, e.mono).records[k] == MarkOverdue(st.records[k], e.mono)
    {
      AdvanceRecord(st, e.wall, e.mono, k);
    }
  }

  /** In every run a counted round is in the cumulative rows after an event that is acted on and heard exactly if by the
      event's readings its bucket may close; a query alone takes exactly such records away. */
  lemma ClosesOnTime(start: int, maxRecords: nat, events: seq<Event>, e: Event, k: nat)
    requires var st := Run(EmptyLedger(start, maxRecords), events);
             Acted(st, e) && Heard(st, e) && k in st.records && st.records[k].finish.Some?
    ensures var st := Run(EmptyLedger(start, maxRecords), events);
            var t, due := Step(st, e).0, MayClose(st.records, st.records[k].finish.value, e.wall, e.mono);
            && (k in IncludedRounds(t) <==> due && st.records[k].inclusion == OpenIncluded)
            && (e.Observe? ==> (k in t.records <==> !due))
  {
    hide Inv, Run, Step, Acted, Heard, Advance, Accepts, MayClose, IncludedRounds;
    var st := Run(EmptyLedger(start, maxRecords), events);
    StartsFromAdvance(start, maxRecords, events, e);
    ClosesExactlyWhenDue(st, e.wall, e.mono, k);
    ApplyKeepsClock(Advance(st, e.wall, e.mono), e);
  }

  // ---- Giving a report up ----

  /** A record whose report is given up leaves the open contributions; nothing else is forgotten about it. */
  predicate GivenUp(r: Record, s: Record, how: Isolation) {
    && s == r.(lifecycle := s.lifecycle, inclusion := s.inclusion, everUnavailable := s.everUnavailable)
    && s.inclusion == (if r.inclusion == OpenIncluded then OpenExcluded else r.inclusion)
    && s.lifecycle == (match how
                       case AsMixed => ContractMixed
                       case AsConflict => if r.lifecycle == ContractMixed then ContractMixed else Conflicting
                       case AsUnavailable => if Isolatedly(r.lifecycle) then r.lifecycle else ReportUnavailable)
    && s.everUnavailable == (r.everUnavailable || s.lifecycle == ReportUnavailable)
  }

  /** What is announced about a record that was counted so far. */
  function Removal(records: map<nat, Record>, k: nat): seq<Change> {
    if k in records && records[k].inclusion == OpenIncluded then [Change(k, Remove)] else []
  }

  /** One record is given up, and announced, and nothing else changes. */
  ghost predicate OneGivenUp(a: Ledger, t: Ledger, k: nat, how: Isolation) {
    && k in a.records && t.records.Keys == a.records.Keys && GivenUp(a.records[k], t.records[k], how)
    && (forall j :: j in a.records && j != k ==> t.records[j] == a.records[j])
    && t.changes == a.changes + Removal(a.records, k)
    && t.(records := a.records, changes := a.changes, jobs := a.jobs) == a
  }

  /** Two parties to a conflict are given up, the second as far as it is still live. */
  ghost predicate BothGivenUp(a: Ledger, t: Ledger, k: nat, other: nat) {
    && k in a.records && t.records.Keys == a.records.Keys && GivenUp(a.records[k], t.records[k], AsConflict)
    && (other in a.records ==> GivenUp(a.records[other], t.records[other], AsConflict))
    && (forall j :: j in a.records && j != k && j != other ==> t.records[j] == a.records[j])
    && t.changes == a.changes + Removal(a.records, k) + Removal(a.records, other)
    && t.(records := a.records, changes := a.changes, jobs := a.jobs) == a
  }

  /** One record changes as given, and nothing else. */
  ghost predicate OneBecomes(a: Ledger, t: Ledger, k: nat, s: Record) {
    && t.records == a.records[k := s] && t.(records := a.records, jobs := a.jobs) == a
  }

  lemma IsolatedIsGivenUp(r: Record, how: Isolation)
    ensures GivenUp(r, Touched(Isolated(r, how)), how)
    ensures how == AsConflict ==> Touched(Isolated(r, how)) == Isolated(r, how) || r.everUnavailable
    ensures how == AsConflict ==> GivenUp(r, Isolated(r, how), how)
  {
  }

  lemma IsolateGivesUp(a: Ledger, k: nat, how: Isolation)
    requires k in a.records
    ensures OneGivenUp(a, IsolateAndTouch(a, k, how), k, how)
    ensures how == AsConflict ==> OneGivenUp(a, IsolateRecord(a, k, how), k, how)
  {
    hide SyncJob, GivenUp, IsolatedLifecycle, Touched;
    IsolatedIsGivenUp(a.records[k], how);
    var s := Isolated(a.records[k], how);
    assert a.records[k := s][k := Touched(s)] == a.records[k := Touched(s)];
  }

  lemma ConflictGivesUp(a: Ledger, k: nat, key: (Source, Round))
    requires Inv(a) && k in a.records
    ensures var t := Conflict(a, k, key);
            if OwnedByOther(a, k, key) then BothGivenUp(a, t, k, a.owners[key]) else OneGivenUp(a, t, k, AsConflict)
  {
    hide Inv, SyncJob, IsolateRecord, IsolateAndTouch, GivenUp;
    IsolateGivesUp(a, k, AsConflict);
    var s := IsolateRecord(a, k, AsConflict);
    if OwnedByOther(a, k, key) && a.owners[key] in a.records {
      IsolateKeeps(a, k, AsConflict);
      IsolateGivesUp(s, a.owners[key], AsConflict);
    }
  }

  /** A record that is only answered: one that is unavailable counts as ever unavailable. */
  predicate OnlyAnswered(r: Record, s: Record) {
    s == r.(everUnavailable := r.everUnavailable || r.lifecycle == ReportUnavailable)
  }

  lemma TouchAnswers(a: Ledger, k: nat)
    requires k in a.records
    ensures k in Touch(a, k).records && OnlyAnswered(a.records[k], Touch(a, k).records[k])
    ensures OneBecomes(a, Touch(a, k), k, Touch(a, k).records[k])
  {
    hide SyncJob;
  }

  // ---- Registering ----

  /** A new invocation that is in time, of a source that is known. */
  predicate NewInTime(a: Ledger, e: Event)
    requires e.Register?
  {
    && e.id !in a.ids && e.source != Unsupported
    && e.wall - Minutes(1) <= e.startedWall <= e.wall && e.mono - Minutes(1) <= e.startedMono <= e.mono
    && (if a.frozenThrough.Some? then e.startedWall > a.frozenThrough.value else e.startedWall >= 0)
  }

  predicate HasRoom(a: Ledger, e: Event)
    requires e.Register?
  {
    !a.admissionStopped && |a.ids| < a.maxRecords && e.fits
  }

  /** The record of a new invocation: nothing is known but its registration. */
  predicate Untouched(r: Record, e: Event)
    requires e.Register?
  {
    && r.id == e.id && r.source == e.source && r.startedWall == e.startedWall && r.startedMono == e.startedMono
    && r.job == e.job && r.serial == e.serial
    && r.connection == Unbound && r.lifecycle == AwaitingReport && r.initFailed == None && r.exit == NoExit
    && r.finish == None && r.inclusion == NotFinished && r.detail == None
    && !r.everOverdue && !r.everUnavailable && !r.lateFinish
  }

  /** The latest invocation of the job that registers, if the job runs one at a time and it has not ended yet. */
  predicate Unended(a: Ledger, j: nat, r: Record, e: Event)
    requires e.Register?
  {
    && e.serial && e.job.Some? && (e.source, e.job.value) in a.jobs && a.jobs[(e.source, e.job.value)].seqNo == j
    && r.serial && r.startedWall <= e.startedWall && r.startedMono <= e.startedMono
    && r.finish == None && r.exit == NoExit
  }

  /** The new entry shows that it has. */
  predicate EndedByEntry(r: Record, s: Record, e: Event)
    requires e.Register?
  {
    && s == r.(exit := NextEntry(e.startedWall, e.startedMono), lifecycle := s.lifecycle,
               everUnavailable := s.everUnavailable)
    && (if r.lifecycle in {AwaitingReport, InFlight, Overdue} then s.lifecycle == ReportUnavailable && s.everUnavailable
        else s.lifecycle == r.lifecycle && s.everUnavailable == r.everUnavailable)
  }

  predicate NotedBy(a: Ledger, j: nat, r: Record, s: Record, e: Event)
    requires e.Register?
  {
    if Unended(a, j, r, e) then EndedByEntry(r, s, e) else s == r
  }

  /** One more record under the next number, and no other change but a note on the previous invocation of its job. */
  ghost predicate Admitted(a: Ledger, t: Ledger, e: Event)
    requires e.Register?
  {
    var k := a.nTotal + 1;
    && t.nTotal == k && k !in a.records && t.records.Keys == a.records.Keys + {k} && Untouched(t.records[k], e)
    && t.ids == a.ids[e.id := k] && t.registered == a.registered + [Registration(e.source, e.startedWall)]
    && (forall j :: j in a.records ==> NotedBy(a, j, a.records[j], t.records[j], e))
    && (e.job.Some? ==> (e.source, e.job.value) in t.jobs && t.jobs[(e.source, e.job.value)].seqNo == k)
    && (forall key :: key in a.jobs && e.job != Some(key.1) ==> key in t.jobs && t.jobs[key] == a.jobs[key])
    && t.(nTotal := a.nTotal, records := a.records, ids := a.ids, registered := a.registered, jobs := a.jobs) == a
  }

  lemma FreshIsUntouched(e: Event)
    requires e.Register? && e.mono - Minutes(1) <= e.startedMono
    ensures Untouched(NewRecord(e), e)
  {
  }

  lemma EndedIs(r: Record, e: Event)
    requires e.Register?
    ensures var s := r.(exit := NextEntry(e.startedWall, e.startedMono));
            EndedByEntry(r, if Unreported(s) then Unavailable(s) else s, e)
  {
  }

  lemma LatestIsUnended(a: Ledger, j: nat, r: Record, e: Event)
    requires e.Register? && e.serial && e.job.Some? && (e.source, e.job.value) in a.jobs
    requires a.jobs[(e.source, e.job.value)] == Summarize(j, r)
    ensures EndsPrevious(a.jobs[(e.source, e.job.value)], e.startedWall, e.startedMono) <==> Unended(a, j, r, e)
  {
  }

  lemma NoteIsEvidence(a: Ledger, e: Event, j: nat)
    requires e.Register? && Inv(a) && JobsOk(a) && j in a.records
    ensures var noted := NoteNextEntry(a, e);
            && j in noted.records
            && NotedBy(a, j, a.records[j], noted.records[j], e)
  {
    hide Inv, EndsPrevious, EndedByEntry, Unreported, Unavailable, Summarize;
    if e.serial && e.job.Some? && (e.source, e.job.value) in a.jobs {
      var p := a.jobs[(e.source, e.job.value)];
      assert JobOk(a.records, p);
      if p.seqNo == j {
        LatestIsUnended(a, j, a.records[j], e);
        EndedIs(a.records[j], e);
      }
    }
  }

  lemma EntersAdmitted(a: Ledger, e: Event)
    requires e.Register? && Inv(a) && JobsOk(a) && NewInTime(a, e)
    ensures Admitted(a, Enter(NoteNextEntry(a, e), e), e)
  {
    hide Inv, JobsOk, Untouched, NotedBy, NewRecord, NoteNextEntry, NewInTime;
    FreshNumber(a);
    assert e.mono - Minutes(1) <= e.startedMono by { LateStart(a, e); }
    FreshIsUntouched(e);
    NotedOnly(a, e);
    var noted := NoteNextEntry(a, e);
    forall j | j in a.records
      ensures j in noted.records
              && NotedBy(a, j, a.records[j], noted.records[j], e)
    {
      NoteIsEvidence(a, e, j);
    }
    EnterOnly(a, noted, e);
  }

  lemma LateStart(a: Ledger, e: Event)
    requires e.Register? && NewInTime(a, e)
    ensures e.mono - Minutes(1) <= e.startedMono
  {
  }

  lemma EnterOnly(a: Ledger, noted: Ledger, e: Event)
    requires e.Register? && a.nTotal + 1 !in a.records && Untouched(NewRecord(e), e)
    requires noted == a.(records := noted.records) && noted.records.Keys == a.records.Keys
    requires forall j :: j in a.records ==>
               NotedBy(a, j, a.records[j], noted.records[j], e)
    ensures Admitted(a, Enter(noted, e), e)
  {
    hide Untouched, NotedBy, NewRecord;
    var t, k := Enter(noted, e), a.nTotal + 1;
    assert t.records == noted.records[k := NewRecord(e)];
    assert t.records.Keys == a.records.Keys + {k};
    forall j | j in a.records ensures NotedBy(a, j, a.records[j], t.records[j], e) {
      assert t.records[j] == noted.records[j];
    }
  }

  /** The whole answer to a registration, on the advanced ledger. */
  ghost predicate RegistersAs(a: Ledger, t: Ledger, reply: Reply, e: Event)
    requires e.Register?
  {
    && (reply == Registered <==> NewInTime(a, e) && HasRoom(a, e))
    && (reply == AdmissionStopped <==> NewInTime(a, e) && !HasRoom(a, e))
    && (reply == Registered ==> Admitted(a, t, e))
    && (reply == AdmissionStopped ==> t == a.(admissionStopped := true))
    && (e.id !in a.ids && !NewInTime(a, e) ==> t == a && reply == NotInTime(e))
    && (e.id in a.ids && a.ids[e.id] in a.records ==> RepeatedAs(a, t, reply, a.ids[e.id], e))
    && (e.id in a.ids && a.ids[e.id] !in a.records ==>
          && t == a && a.ids[e.id] in a.tombs
          && reply == if AlikeTomb(a.tombs[a.ids[e.id]], e) then DuplicateInvocation else RegistrationConflict)
  }

  function NotInTime(e: Event): Reply
    requires e.Register?
  {
    if e.startedWall > e.wall || e.startedMono > e.mono then TimeIntegrityError
    else if e.source == Unsupported then UnsupportedSource
    else if e.startedWall < e.wall - Minutes(1) || e.startedMono < e.mono - Minutes(1) then LateStartExcluded
    else ClockUnverified
  }

  /** The event repeats what was registered. */
  predicate Alike(r: Record, e: Event)
    requires e.Register?
  {
    && r.source == e.source && r.startedWall == e.startedWall && r.startedMono == e.startedMono
    && r.job == e.job && r.serial == e.serial
  }

  predicate AlikeTomb(t: Tomb, e: Event)
    requires e.Register?
  {
    && t.source == e.source && t.startedWall == e.startedWall && t.startedMono == e.startedMono
    && t.job == e.job && t.serial == e.serial
  }

  /** A live invocation that is registered again: it is answered if the event repeats the first one, or given up. */
  ghost predicate RepeatedAs(a: Ledger, t: Ledger, reply: Reply, k: nat, e: Event)
    requires e.Register? && k in a.records
  {
    var r := a.records[k];
    if Alike(r, e) then
      && reply == DuplicateInvocation && k in t.records && OnlyAnswered(r, t.records[k])
      && OneBecomes(a, t, k, t.records[k])
    else reply == RegistrationConflict && OneGivenUp(a, t, k, AsConflict)
  }

  lemma Repeats(a: Ledger, e: Event, k: nat)
    requires e.Register? && Live(a, e.id) && k == a.ids[e.id]
    ensures RepeatedAs(a, RegisterApply(a, e).0, RegisterApply(a, e).1, k, e)
  {
    hide IsolateAndTouch, Touch, OneGivenUp, OnlyAnswered, OneBecomes, Enter, NoteNextEntry;
    IsolateGivesUp(a, k, AsConflict);
    TouchAnswers(a, k);
  }

  lemma RegisterApplied(a: Ledger, e: Event)
    requires e.Register? && Inv(a) && JobsOk(a)
    ensures RegistersAs(a, RegisterApply(a, e).0, RegisterApply(a, e).1, e)
  {
    hide Inv, JobsOk, Enter, NoteNextEntry, Admitted, IsolateAndTouch, Touch, RepeatedAs;
    Resident(a, e.id);
    ResidentCount(a);
    if Live(a, e.id) {
      Repeats(a, e, a.ids[e.id]);
    }
    if NewInTime(a, e) {
      EntersAdmitted(a, e);
    }
  }

  lemma ResidentCount(a: Ledger)
    requires Inv(a)
    ensures |a.ids| == |a.records| + |a.tombs|
  {
    hide OwnersOk, OwnedIdsOk, RecordsOk, CumulativeOk, RegisteredOk, TombsOk, ChangesOk, FrozenOk, LineOk;
    ResidentsAddUp(a.ids, a.records, a.tombs);
  }

  /** In every run a registration that is acted on and heard is admitted exactly if it is new, in time, of a known
      source, and there is room; then it is one more record of which nothing else is known. */
  lemma RegistersExactlyWhen(start: int, maxRecords: nat, events: seq<Event>, e: Event)
    requires var st := Run(EmptyLedger(start, maxRecords), events); e.Register? && Acted(st, e) && Heard(st, e)
    ensures var st := Run(EmptyLedger(start, maxRecords), events);
            RegistersAs(Advance(st, e.wall, e.mono), Step(st, e).0, Step(st, e).1, e)
  {
    hide Inv, Run, Step, Acted, Heard, Advance, Accepts, RegistersAs, JobsOk;
    var st := Run(EmptyLedger(start, maxRecords), events);
    StartsFromAdvance(start, maxRecords, events, e);
    RunKeepsJobs(start, maxRecords, events);
    AdvanceAll(st, e.wall, e.mono);
    RegisterApplied(Advance(st, e.wall, e.mono), e);
  }

  // ---- Linking ----

  /** The whole answer to a link of a live record. */
  ghost predicate LinksAs(a: Ledger, t: Ledger, reply: Reply, k: nat, e: Event)
    requires e.LinkRound? && k in a.records
  {
    var r := a.records[k];
    var key := (r.source, e.round);
    var taken := key in a.owners && a.owners[key] != k;
    var proper := e.contract == RegisteredContract(r.source);
    && (reply == IdentityConflict <==> taken || !(r.connection == Unbound || r.connection == Started(e.round)))
    && (reply == Linked <==> !taken && r.connection == Unbound && proper)
    && (reply == UnregisteredContract <==> !taken && r.connection == Unbound && !proper)
    && (reply == RelinkedSame <==> !taken && r.connection == Started(e.round) && proper)
    && (reply == ContractMixedReply <==> !taken && r.connection == Started(e.round) && !proper)
    && (reply == IdentityConflict ==>
          if taken then BothGivenUp(a, t, k, a.owners[key]) else OneGivenUp(a, t, k, AsConflict))
    && (reply == UnregisteredContract ==> OneGivenUp(a, t, k, AsUnavailable))
    && (reply == ContractMixedReply ==> OneGivenUp(a, t, k, AsMixed))
    && (reply == RelinkedSame ==> k in t.records && OnlyAnswered(r, t.records[k]) && OneBecomes(a, t, k, t.records[k]))
    && (reply == Linked ==>
          && t.owners == a.owners[key := k] && t.ownedIds == a.ownedIds + {r.id}
          && k in t.records && OneBecomes(a, t.(owners := a.owners, ownedIds := a.ownedIds), k, t.records[k])
          && OnlyAnswered(r.(connection := Started(e.round),
                             lifecycle := if r.lifecycle == AwaitingReport then InFlight else r.lifecycle),
                           t.records[k]))
  }

  lemma LinkApplied(a: Ledger, k: nat, e: Event)
    requires e.LinkRound? && Inv(a) && k in a.records
    ensures LinksAs(a, LinkLive(a, k, e).0, LinkLive(a, k, e).1, k, e)
  {
    hide Inv, Conflict, IsolateRecord, IsolateAndTouch, Touch, Bind, OneGivenUp, BothGivenUp, OneBecomes, OnlyAnswered;
    ConflictGivesUp(a, k, (a.records[k].source, e.round));
    IsolateGivesUp(a, k, AsConflict);
    IsolateGivesUp(a, k, AsMixed);
    IsolateGivesUp(a, k, AsUnavailable);
    TouchAnswers(a, k);
    BindAnswers(a, k, e.round);
  }

  lemma BindAnswers(a: Ledger, k: nat, round: Round)
    requires k in a.records
    ensures var r, t := a.records[k], Touch(Bind(a, k, round), k);
            && t.owners == a.owners[(r.source, round) := k] && t.ownedIds == a.ownedIds + {r.id}
            && k in t.records && OneBecomes(a, t.(owners := a.owners, ownedIds := a.ownedIds), k, t.records[k])
            && OnlyAnswered(r.(connection := Started(round),
                               lifecycle := if r.lifecycle == AwaitingReport then InFlight else r.lifecycle),
                             t.records[k])
  {
    hide SyncJob;
  }

  /** In every run a link that is acted on and heard binds a live record exactly if it is unbound, the round is nobody
      else's and the contract is the registered one; every other case has its own answer and gives up whom it should. */
  lemma LinksExactlyWhen(start: int, maxRecords: nat, events: seq<Event>, e: Event)
    requires var st := Run(EmptyLedger(start, maxRecords), events); e.LinkRound? && Acted(st, e) && Heard(st, e)
    ensures var st := Run(EmptyLedger(start, maxRecords), events);
            var a := Advance(st, e.wall, e.mono);
            var (t, reply) := Step(st, e);
            if Live(a, e.id) then LinksAs(a, t, reply, a.ids[e.id], e)
            else
              && t == a
              && reply == if !Tombstoned(a, e.id) then (if a.identityPruned then ExpiredIdentityUnverified else Orphan)
                          else if a.tombs[a.ids[e.id]].expired then ExpiredStart
                          else if a.tombs[a.ids[e.id]].connection == Started(e.round) then RelinkedSame
                          else IdentityConflict
  {
    hide Inv, Run, Step, Acted, Heard, Advance, Accepts, LinksAs, LinkLive;
    var st := Run(EmptyLedger(start, maxRecords), events);
    StartsFromAdvance(start, maxRecords, events, e);
    var a := Advance(st, e.wall, e.mono);
    Resident(a, e.id);
    if Live(a, e.id) {
      LinkApplied(a, a.ids[e.id], e);
    }
  }

  // ---- Finishing ----

  /** The report's times lie within the life of the invocation. */
  predicate InOrder(r: Record, e: Event)
    requires e.Finish?
  {
    WithinLife(r, e.finishedWall, e.finishedMono, e) && ExitAllows(r.exit, e.finishedWall, e.finishedMono)
  }

  lemma OrderIs(r: Record, e: Event)
    requires e.Finish?
    ensures FinishTimesWrong(r, e) <==> !InOrder(r, e)
  {
  }

  /** The first finish of a record, as the event reports it. */
  function FirstOf(r: Record, e: Event): FinishInfo
    requires e.Finish?
  {
    FinishInfo(e.finishedWall, e.finishedMono,
               Digest(r.source, e.round, e.contract, e.finishedWall, e.finishedMono, e.report.summary,
                      e.report.telemetryError))
  }

  /** The record with its first finish; a late one is remembered as late if it is accepted after all. */
  predicate FinishedAs(r: Record, s: Record, e: Event)
    requires e.Finish?
  {
    && s == r.(finish := Some(FirstOf(r, e)), lifecycle := s.lifecycle, inclusion := s.inclusion, detail := s.detail,
               everUnavailable := s.everUnavailable, lateFinish := s.lateFinish)
    && s.lateFinish == (r.lateFinish || (r.lifecycle in {ReportUnavailable, Overdue} && s.lifecycle == Finalized))
  }

  predicate Counted(r: Record, s: Record, e: Event)
    requires e.Finish?
  {
    && FinishedAs(r, s, e) && s.lifecycle == Finalized && s.inclusion == OpenIncluded
    && s.everUnavailable == r.everUnavailable
    && s.detail.Some? && DetailSays(s.detail.value, r.source, e.report.summary, e.report.telemetryError)
  }

  predicate Refused(r: Record, s: Record, e: Event)
    requires e.Finish?
  {
    && FinishedAs(r, s, e) && s.lifecycle == ReportUnavailable && s.inclusion == OpenExcluded && s.everUnavailable
    && s.detail == r.detail
  }

  predicate LateRecord(r: Record, s: Record, e: Event)
    requires e.Finish?
  {
    && FinishedAs(r, s, e) && s.lifecycle == Finalized && s.inclusion == PostCloseExcluded
    && s.everUnavailable == r.everUnavailable && s.detail == r.detail
  }

  /** A report that comes after its bucket is due is not counted, and its record retires at once. */
  ghost predicate TooLate(a: Ledger, t: Ledger, k: nat, e: Event)
    requires e.Finish? && k in a.records
  {
    && t.records == a.records - {k} && t.retired.Keys == a.retired.Keys + {k}
    && (forall j :: j in a.retired ==> t.retired[j] == a.retired[j])
    && k in t.retired && LateRecord(a.records[k], t.retired[k], e) && t.changes == a.changes
  }

  /** The whole answer to a first report of a live record for its own round. */
  ghost predicate FinishesAs(a: Ledger, t: Ledger, reply: Reply, k: nat, e: Event)
    requires e.Finish? && k in a.records
  {
    var r := a.records[k];
    var proper := e.contract == RegisteredContract(r.source) && !e.report.problem;
    var open := proper && InOrder(r, e) && !Isolatedly(r.lifecycle);
    var due := e.wall >= ClosingWall(FirstOf(r, e));
    && (reply == ContractMixedReply <==> e.contract != RegisteredContract(r.source))
    && (reply == InputProblem <==> e.contract == RegisteredContract(r.source) && e.report.problem)
    && (reply == TimeIntegrityError <==> proper && !InOrder(r, e))
    && (reply == AfterConflictRedelivery <==> proper && InOrder(r, e) && Isolatedly(r.lifecycle))
    && (reply == PostCloseFinish <==> open && due)
    && (reply == ReportUnavailableReply <==> open && !due && e.report.retention != Keep)
    && (reply == FinalizedReply <==> open && !due && e.report.retention == Keep)
    && (reply == ContractMixedReply ==> OneGivenUp(a, t, k, AsMixed))
    && (reply == InputProblem || reply == TimeIntegrityError ==> OneGivenUp(a, t, k, AsUnavailable))
    && (reply == AfterConflictRedelivery ==> k in t.records && OneBecomes(a, t, k, r) && t.records[k] == r)
    && (reply == PostCloseFinish ==> TooLate(a, t, k, e))
    && (reply == ReportUnavailableReply ==>
          && k in t.records && Refused(r, t.records[k], e)
          && OneBecomes(a, t.(admissionStopped := a.admissionStopped), k, t.records[k])
          && (t.admissionStopped <==> a.admissionStopped || e.report.retention == OverBudget))
    && (reply == FinalizedReply ==>
          && k in t.records && Counted(r, t.records[k], e) && t.changes == a.changes + [Change(k, Add)]
          && OneBecomes(a, t.(changes := a.changes), k, t.records[k]))
  }

  lemma CountedIs(r: Record, e: Event)
    requires e.Finish? && e.wall < ClosingWall(FirstOf(r, e)) && e.report.retention == Keep
    ensures Finished(r, e).source == r.source
    ensures Counted(r, Finished(r, e).(lifecycle := Finalized, inclusion := OpenIncluded,
                       detail := Some(Normalize(r.source, e.report.summary, e.report.telemetryError))), e)
  {
    SameMinute(FirstOf(r, e));
    NormalizeSays(r.source, e.report.summary, e.report.telemetryError);
    hide Normalize, DetailSays, ClosingWall, NextMinute, CloseAt;
  }

  lemma RefusedIs(r: Record, e: Event)
    requires e.Finish? && e.wall < ClosingWall(FirstOf(r, e)) && e.report.retention != Keep
    ensures Refused(r, Finished(r, e).(lifecycle := ReportUnavailable, inclusion := OpenExcluded,
                                       everUnavailable := true), e)
  {
    SameMinute(FirstOf(r, e));
    hide ClosingWall, NextMinute, CloseAt;
  }

  lemma LateRecordIs(r: Record, e: Event)
    requires e.Finish? && e.wall >= ClosingWall(FirstOf(r, e))
    ensures LateRecord(r, Finished(r, e).(lifecycle := Finalized, inclusion := PostCloseExcluded), e)
  {
    SameMinute(FirstOf(r, e));
    hide ClosingWall, NextMinute, CloseAt;
  }

  lemma LateIs(a: Ledger, k: nat, e: Event)
    requires e.Finish? && k in a.records && k !in a.retired && e.wall >= ClosingWall(FirstOf(a.records[k], e))
    ensures var last := Finished(a.records[k], e).(lifecycle := Finalized, inclusion := PostCloseExcluded);
            TooLate(a, Retire(Put(a, k, last), map[k := last], e.wall, e.mono), k, e)
  {
    hide Retire, SyncJob, ClosingWall, LateRecord, Finished;
    var last := Finished(a.records[k], e).(lifecycle := Finalized, inclusion := PostCloseExcluded);
    LateRecordIs(a.records[k], e);
    RetireLeaves(Put(a, k, last), map[k := last], e.wall, e.mono);
    assert map[k := last].Keys == {k} && a.records[k := last] - {k} == a.records - {k};
  }

  lemma FirstFinishRefuses(a: Ledger, k: nat, e: Event)
    requires e.Finish? && k in a.records && e.wall < ClosingWall(FirstOf(a.records[k], e)) && e.report.retention != Keep
    ensures var (t, reply) := FirstFinish(a, k, e);
            && reply == ReportUnavailableReply && k in t.records && Refused(a.records[k], t.records[k], e)
            && OneBecomes(a, t.(admissionStopped := a.admissionStopped), k, t.records[k])
            && (t.admissionStopped <==> a.admissionStopped || e.report.retention == OverBudget)
  {
    hide Finished, Normalize, Retire, SyncJob, ClosingWall, CloseAt, Refused, DigestOf;
    SameMinute(FirstOf(a.records[k], e));
    RefusedIs(a.records[k], e);
  }

  lemma FirstFinishCounts(a: Ledger, k: nat, e: Event)
    requires e.Finish? && k in a.records && e.wall < ClosingWall(FirstOf(a.records[k], e)) && e.report.retention == Keep
    ensures var (t, reply) := FirstFinish(a, k, e);
            && reply == FinalizedReply && k in t.records && Counted(a.records[k], t.records[k], e)
            && t.changes == a.changes + [Change(k, Add)] && OneBecomes(a, t.(changes := a.changes), k, t.records[k])
  {
    hide Finished, Normalize, Retire, SyncJob, ClosingWall, CloseAt, Counted, DigestOf;
    SameMinute(FirstOf(a.records[k], e));
    CountedIs(a.records[k], e);
  }

  lemma FirstFinishIsLate(a: Ledger, k: nat, e: Event)
    requires e.Finish? && k in a.records && k !in a.retired && e.wall >= ClosingWall(FirstOf(a.records[k], e))
    ensures FirstFinish(a, k, e).1 == PostCloseFinish && TooLate(a, FirstFinish(a, k, e).0, k, e)
  {
    hide Finished, Normalize, Retire, SyncJob, ClosingWall, CloseAt, TooLate, DigestOf;
    SameMinute(FirstOf(a.records[k], e));
    LateIs(a, k, e);
  }

  lemma FinishApplied(a: Ledger, k: nat, e: Event)
    requires e.Finish? && k in a.records && k !in a.retired && a.records[k].finish.None?
    ensures FinishesAs(a, FinishStarted(a, k, e).0, FinishStarted(a, k, e).1, k, e)
  {
    hide IsolateAndTouch, Touch, FirstFinish, OneGivenUp, OneBecomes, FinishTimesWrong, InOrder, ClosingWall, DigestOf,
         Counted, Refused, TooLate;
    OrderIs(a.records[k], e);
    IsolateGivesUp(a, k, AsMixed);
    IsolateGivesUp(a, k, AsUnavailable);
    TouchAnswers(a, k);
    AnsweredAsItIs(a.records[k], Touch(a, k).records[k]);
    if e.wall >= ClosingWall(FirstOf(a.records[k], e)) {
      FirstFinishIsLate(a, k, e);
    } else if e.report.retention != Keep {
      FirstFinishRefuses(a, k, e);
    } else {
      FirstFinishCounts(a, k, e);
    }
  }

  lemma AnsweredAsItIs(r: Record, s: Record)
    requires OnlyAnswered(r, s)
    ensures Isolatedly(r.lifecycle) ==> s == r
  {
  }

  /** In every run a first report that is acted on and heard, for the round of a live invocation, is counted exactly if
      it is proper, its times lie within the life of the invocation, the record is not isolated, its bucket is not due
      and there is room for it; then the detail says what the report says, pair by pair. Every other case has its own
      answer. */
  lemma FinishesExactlyWhen(start: int, maxRecords: nat, events: seq<Event>, e: Event, k: nat)
    requires var st := Run(EmptyLedger(start, maxRecords), events);
             && e.Finish? && Acted(st, e) && Heard(st, e)
             && var a := Advance(st, e.wall, e.mono);
                e.id in a.ids && a.ids[e.id] == k && k in a.records
                && a.records[k].finish.None? && a.records[k].connection == Started(e.round)
    ensures var st := Run(EmptyLedger(start, maxRecords), events);
            FinishesAs(Advance(st, e.wall, e.mono), Step(st, e).0, Step(st, e).1, k, e)
  {
    hide Inv, Run, Step, Acted, Heard, Advance, Accepts, FinishesAs, FinishStarted;
    var st := Run(EmptyLedger(start, maxRecords), events);
    StartsFromAdvance(start, maxRecords, events, e);
    var a := Advance(st, e.wall, e.mono);
    NotClosedYet(a);
    LiveIdentity(a, e.id, k);
    LiveOwner(a, k, e.round);
    FinishApplied(a, k, e);
  }

  /** A report for a live record that is not linked to its round. */
  ghost predicate MisdirectedAs(a: Ledger, t: Ledger, reply: Reply, k: nat, e: Event)
    requires e.Finish? && k in a.records
  {
    var r := a.records[k];
    var key := (r.source, e.round);
    var taken := key in a.owners && a.owners[key] != k;
    && (reply == StartUnrecorded <==> !taken && r.connection == Unbound)
    && (reply == IdentityConflict <==> taken || r.connection != Unbound)
    && (reply == StartUnrecorded ==> OneGivenUp(a, t, k, AsUnavailable))
    && (reply == IdentityConflict ==>
          if taken then BothGivenUp(a, t, k, a.owners[key]) else OneGivenUp(a, t, k, AsConflict))
  }

  lemma Misdirected(a: Ledger, k: nat, e: Event)
    requires e.Finish? && Inv(a) && k in a.records && a.records[k].connection != Started(e.round)
    ensures MisdirectedAs(a, FinishLive(a, k, e).0, FinishLive(a, k, e).1, k, e)
  {
    hide Inv, Conflict, IsolateRecord, IsolateAndTouch, FinishStarted, OneGivenUp, BothGivenUp;
    ConflictGivesUp(a, k, (a.records[k].source, e.round));
    IsolateGivesUp(a, k, AsConflict);
    IsolateGivesUp(a, k, AsUnavailable);
  }

  lemma MisdirectedExactlyWhen(start: int, maxRecords: nat, events: seq<Event>, e: Event, k: nat)
    requires var st := Run(EmptyLedger(start, maxRecords), events);
             && e.Finish? && Acted(st, e) && Heard(st, e)
             && var a := Advance(st, e.wall, e.mono);
                e.id in a.ids && a.ids[e.id] == k && k in a.records && a.records[k].connection != Started(e.round)
    ensures var st := Run(EmptyLedger(start, maxRecords), events);
            MisdirectedAs(Advance(st, e.wall, e.mono), Step(st, e).0, Step(st, e).1, k, e)
  {
    hide Inv, Run, Step, Acted, Heard, Advance, Accepts, MisdirectedAs, FinishLive;
    var st := Run(EmptyLedger(start, maxRecords), events);
    StartsFromAdvance(start, maxRecords, events, e);
    Misdirected(Advance(st, e.wall, e.mono), k, e);
  }

  /** A report says the same as one before in every respect that is kept of it. */
  predicate SaysTheSame(d: Digest, e: Event)
    requires e.Finish?
  {
    && d.round == e.round && d.contract == e.contract && d.wall == e.finishedWall && d.mono == e.finishedMono
    && d.summary == e.report.summary && d.telemetryError == e.report.telemetryError
  }

  /** A further report of a live record for its own round. */
  ghost predicate RefinishedAs(a: Ledger, t: Ledger, reply: Reply, k: nat, e: Event)
    requires e.Finish? && k in a.records && a.records[k].finish.Some?
  {
    var r := a.records[k];
    var proper := e.contract == RegisteredContract(r.source) && !e.report.problem;
    var same := r.finish.value.digest.source == r.source && SaysTheSame(r.finish.value.digest, e);
    && (reply == ContractMixedReply <==> e.contract != RegisteredContract(r.source))
    && (reply == InputProblem <==> e.contract == RegisteredContract(r.source) && e.report.problem)
    && (reply == ConflictingFinish <==> proper && !same)
    && (reply == TimeIntegrityError <==> proper && same && !InOrder(r, e))
    && (reply == AfterConflictRedelivery <==> proper && same && InOrder(r, e) && Isolatedly(r.lifecycle))
    && (reply == DuplicateFinish <==> proper && same && InOrder(r, e) && !Isolatedly(r.lifecycle))
    && (reply == ContractMixedReply ==> OneGivenUp(a, t, k, AsMixed))
    && (reply == ConflictingFinish ==> OneGivenUp(a, t, k, AsConflict))
    && (reply == InputProblem || reply == TimeIntegrityError ==> OneGivenUp(a, t, k, AsUnavailable))
    && (reply == AfterConflictRedelivery || reply == DuplicateFinish ==>
          k in t.records && OnlyAnswered(r, t.records[k]) && OneBecomes(a, t, k, t.records[k]))
  }

  lemma Refinishes(a: Ledger, k: nat, e: Event)
    requires e.Finish? && k in a.records && a.records[k].finish.Some?
    ensures RefinishedAs(a, FinishStarted(a, k, e).0, FinishStarted(a, k, e).1, k, e)
  {
    hide IsolateAndTouch, Touch, FirstFinish, OneGivenUp, OneBecomes, OnlyAnswered, FinishTimesWrong, InOrder;
    OrderIs(a.records[k], e);
    IsolateGivesUp(a, k, AsMixed);
    IsolateGivesUp(a, k, AsConflict);
    IsolateGivesUp(a, k, AsUnavailable);
    TouchAnswers(a, k);
  }

  /** The answer to a report for an invocation that is only remembered. */
  function Remembered(t: Tomb, e: Event): Reply
    requires e.Finish?
  {
    if t.expired then ExpiredFinish
    else if t.connection != Started(e.round) then IdentityConflict
    else if e.report.problem then InputProblem
    else if t.finish.Some? && t.finish.value.digest.source == t.source && SaysTheSame(t.finish.value.digest, e)
    then PostCloseDuplicate
    else PostCloseConflict
  }

  /** In every run a further report for a live invocation and its round is a duplicate exactly if it is proper, the
      same, in order and the record is not isolated, and a conflict exactly if it is proper and differs; one for an
      invocation that is only remembered, or not at all, changes nothing. */
  lemma RefinishesExactlyWhen(start: int, maxRecords: nat, events: seq<Event>, e: Event)
    requires var st := Run(EmptyLedger(start, maxRecords), events);
             e.Finish? && Acted(st, e) && Heard(st, e)
    ensures var st := Run(EmptyLedger(start, maxRecords), events);
            var a := Advance(st, e.wall, e.mono);
            var (t, reply) := Step(st, e);
            if e.id !in a.ids then t == a && reply == if a.identityPruned then ExpiredIdentityUnverified else Orphan
            else if a.ids[e.id] !in a.records then
              t == a && a.ids[e.id] in a.tombs && reply == Remembered(a.tombs[a.ids[e.id]], e)
            else
              var k := a.ids[e.id];
              a.records[k].finish.Some? && a.records[k].connection == Started(e.round) ==>
                RefinishedAs(a, t, reply, k, e)
  {
    hide Inv, Run, Step, Acted, Heard, Advance, Accepts, RefinishedAs, FinishStarted;
    var st := Run(EmptyLedger(start, maxRecords), events);
    StartsFromAdvance(start, maxRecords, events, e);
    var a := Advance(st, e.wall, e.mono);
    Resident(a, e.id);
    if Live(a, e.id) {
      var k := a.ids[e.id];
      if a.records[k].finish.Some? && a.records[k].connection == Started(e.round) {
        LiveOwner(a, k, e.round);
        Refinishes(a, k, e);
      }
    }
  }

  // ---- Evidence ----

  /** A record without a report is given up on this evidence; any other only keeps it. */
  predicate Settled(r: Record, s: Record) {
    if r.lifecycle in {AwaitingReport, InFlight, Overdue}
    then s == r.(lifecycle := ReportUnavailable, everUnavailable := true) else s == r
  }

  function FailedAt(e: Event): Option<Instant>
    requires e.ReportInitFailed?
  {
    Some(Instant(e.failedWall, e.failedMono))
  }

  /** The whole answer to a report that the initialisation of a live invocation has failed. */
  ghost predicate InitFailsAs(a: Ledger, t: Ledger, reply: Reply, k: nat, e: Event)
    requires e.ReportInitFailed? && k in a.records
  {
    var r := a.records[k];
    && (reply == DuplicateInitFailure <==> r.initFailed == FailedAt(e))
    && (reply == InitFailureConflict <==> r.initFailed.Some? && r.initFailed != FailedAt(e))
    && (reply == IdentityConflict <==> r.initFailed.None? && r.connection.Started?)
    && (reply == InitFailureRecorded <==> r.initFailed.None? && !r.connection.Started?)
    && (r.initFailed.Some? ==> t == a)
    && (reply == IdentityConflict ==>
          && k in t.records && GivenUp(r.(initFailed := FailedAt(e)), t.records[k], AsConflict)
          && t.changes == a.changes + Removal(a.records, k) && OneBecomes(a, t.(changes := a.changes), k, t.records[k]))
    && (reply == InitFailureRecorded ==>
          && k in t.records && Settled(r.(initFailed := FailedAt(e), connection := InitFailed), t.records[k])
          && OneBecomes(a, t, k, t.records[k]))
  }

  lemma InitFails(a: Ledger, k: nat, e: Event)
    requires e.ReportInitFailed? && Live(a, e.id) && k == a.ids[e.id]
    requires WithinLife(a.records[k], e.failedWall, e.failedMono, e)
    ensures InitFailsAs(a, InitFailedApply(a, e).0, InitFailedApply(a, e).1, k, e)
  {
    hide SyncJob, IsolateRecord, GivenUp;
    InitConflictIs(a, k, FailedAt(e));
  }

  lemma InitConflictIs(a: Ledger, k: nat, at: Option<Instant>)
    requires k in a.records
    ensures var r := a.records[k];
            var t := IsolateRecord(Put(a, k, r.(initFailed := at)), k, AsConflict);
            && k in t.records && GivenUp(r.(initFailed := at), t.records[k], AsConflict)
            && t.changes == a.changes + Removal(a.records, k)
            && OneBecomes(a, t.(changes := a.changes), k, t.records[k])
  {
    hide SyncJob, GivenUp, Isolated;
    IsolatedIsGivenUp(a.records[k].(initFailed := at), AsConflict);
    IsolateGivesUp(Put(a, k, a.records[k].(initFailed := at)), k, AsConflict);
  }

  /** In every run a failed initialisation is recorded exactly if it is the first one reported for a live invocation
      that is not linked to a round. */
  lemma InitFailsExactlyWhen(start: int, maxRecords: nat, events: seq<Event>, e: Event)
    requires var st := Run(EmptyLedger(start, maxRecords), events); e.ReportInitFailed? && Acted(st, e) && Heard(st, e)
    ensures var st := Run(EmptyLedger(start, maxRecords), events);
            var a := Advance(st, e.wall, e.mono);
            var (t, reply) := Step(st, e);
            if e.id !in a.ids then t == a && reply == if a.identityPruned then ExpiredIdentityUnverified else Orphan
            else if a.ids[e.id] in a.records then InitFailsAs(a, t, reply, a.ids[e.id], e)
            else
              && t == a && a.ids[e.id] in a.tombs
              && reply == if a.tombs[a.ids[e.id]].expired then ExpiredWrapper else DuplicateInitFailure
  {
    hide Inv, Run, Step, Heard, Advance, Accepts, InitFailsAs;
    var st := Run(EmptyLedger(start, maxRecords), events);
    StartsFromAdvance(start, maxRecords, events, e);
    var a := Advance(st, e.wall, e.mono);
    Resident(a, e.id);
    if Live(a, e.id) {
      SameLife(st.records[a.ids[e.id]], e.mono);
      InitFails(a, a.ids[e.id], e);
    }
  }

  lemma SameLife(r: Record, mono: int)
    ensures var s := MarkOverdue(r, mono); s.startedWall == r.startedWall && s.startedMono == r.startedMono
  {
  }

  /** The exit lies after the entry of the next invocation of the job. */
  predicate AfterNextEntry(r: Record, e: Event)
    requires e.WrapperExit?
  {
    r.exit.NextEntry? && (e.exitedWall > r.exit.wall || e.exitedMono > r.exit.mono)
  }

  /** The exit lies before the report. */
  predicate BeforeReport(r: Record, e: Event)
    requires e.WrapperExit?
  {
    r.finish.Some? && (e.exitedWall < r.finish.value.wall || e.exitedMono < r.finish.value.mono)
  }

  ghost predicate ExitsAs(a: Ledger, t: Ledger, reply: Reply, k: nat, e: Event)
    requires e.WrapperExit? && k in a.records
  {
    var r := a.records[k];
    && (reply == TimeIntegrityError <==> AfterNextEntry(r, e))
    && (reply == DuplicateWrapperExit <==> r.exit == WrapperExited(e.exitedWall, e.exitedMono))
    && (reply == WrapperExitConflict
        <==> if r.exit.WrapperExited? then r.exit != WrapperExited(e.exitedWall, e.exitedMono)
             else !AfterNextEntry(r, e) && BeforeReport(r, e))
    && (reply == WrapperExitRecorded <==> !r.exit.WrapperExited? && !AfterNextEntry(r, e) && !BeforeReport(r, e))
    && (reply != WrapperExitRecorded ==> t == a)
    && (reply == WrapperExitRecorded ==>
          && k in t.records && Settled(r.(exit := WrapperExited(e.exitedWall, e.exitedMono)), t.records[k])
          && OneBecomes(a, t, k, t.records[k]))
  }

  lemma Exits(a: Ledger, k: nat, e: Event)
    requires e.WrapperExit? && Live(a, e.id) && k == a.ids[e.id]
    requires WithinLife(a.records[k], e.exitedWall, e.exitedMono, e)
    ensures ExitsAs(a, ExitApply(a, e).0, ExitApply(a, e).1, k, e)
  {
    hide SyncJob;
  }

  /** In every run the exit of the wrapper of a live invocation is recorded exactly if it is the first one reported, not
      after the next entry of its job, and not before the report. */
  lemma ExitsExactlyWhen(start: int, maxRecords: nat, events: seq<Event>, e: Event)
    requires var st := Run(EmptyLedger(start, maxRecords), events); e.WrapperExit? && Acted(st, e) && Heard(st, e)
    ensures var st := Run(EmptyLedger(start, maxRecords), events);
            var a := Advance(st, e.wall, e.mono);
            var (t, reply) := Step(st, e);
            if e.id !in a.ids then t == a && reply == if a.identityPruned then ExpiredIdentityUnverified else Orphan
            else if a.ids[e.id] in a.records then ExitsAs(a, t, reply, a.ids[e.id], e)
            else
              && t == a && a.ids[e.id] in a.tombs
              && reply == if a.tombs[a.ids[e.id]].expired then ExpiredWrapper else DuplicateWrapperExit
  {
    hide Inv, Run, Step, Heard, Advance, Accepts, ExitsAs;
    var st := Run(EmptyLedger(start, maxRecords), events);
    StartsFromAdvance(start, maxRecords, events, e);
    var a := Advance(st, e.wall, e.mono);
    Resident(a, e.id);
    if Live(a, e.id) {
      SameLife(st.records[a.ids[e.id]], e.mono);
      Exits(a, a.ids[e.id], e);
    }
  }

  // ---- What the cumulative rows count ----

  ghost function Having(included: map<nat, Included>, t: Tally): set<nat> {
    set k | k in included && RoundHas(included[k].source, included[k].detail, t)
  }

  ghost function HavingWriting(included: map<nat, Included>, t: Tally): set<nat> {
    set k | k in included && WritingHas(included[k].source, included[k].detail, t)
  }

  ghost function HavingFinalDb(included: map<nat, Included>, t: Tally): set<nat> {
    set k | k in included && FinalDbHas(included[k].source, included[k].detail, t)
  }

  lemma OneMoreHaving(s: set<nat>, less: set<nat>, k: nat, has: bool)
    requires s == (if has then less + {k} else less) && k !in less
    ensures |s| == |less| + One(has)
  {
  }

  lemma HavingWithoutOne(included: map<nat, Included>, k: nat, t: Tally)
    requires k in included
    ensures |Having(included, t)|
            == |Having(included - {k}, t)| + One(RoundHas(included[k].source, included[k].detail, t))
  {
    hide RoundHas, One;
    var less, has := included - {k}, RoundHas(included[k].source, included[k].detail, t);
    forall j: nat ensures j in Having(included, t) <==> j in Having(less, t) || (j == k && has) {
    }
    assert k !in Having(less, t);
    hide Having;
    OneMoreHaving(Having(included, t), Having(less, t), k, has);
  }

  lemma HavingWritingWithoutOne(included: map<nat, Included>, k: nat, t: Tally)
    requires k in included
    ensures |HavingWriting(included, t)|
            == |HavingWriting(included - {k}, t)| + One(WritingHas(included[k].source, included[k].detail, t))
  {
    hide WritingHas, One;
    var less, has := included - {k}, WritingHas(included[k].source, included[k].detail, t);
    forall j: nat ensures j in HavingWriting(included, t) <==> j in HavingWriting(less, t) || (j == k && has) {
    }
    assert k !in HavingWriting(less, t);
    hide HavingWriting;
    OneMoreHaving(HavingWriting(included, t), HavingWriting(less, t), k, has);
  }

  lemma HavingFinalDbWithoutOne(included: map<nat, Included>, k: nat, t: Tally)
    requires k in included
    ensures |HavingFinalDb(included, t)|
            == |HavingFinalDb(included - {k}, t)| + One(FinalDbHas(included[k].source, included[k].detail, t))
  {
    hide FinalDbHas, One;
    var less, has := included - {k}, FinalDbHas(included[k].source, included[k].detail, t);
    forall j: nat ensures j in HavingFinalDb(included, t) <==> j in HavingFinalDb(less, t) || (j == k && has) {
    }
    assert k !in HavingFinalDb(less, t);
    hide HavingFinalDb;
    OneMoreHaving(HavingFinalDb(included, t), HavingFinalDb(less, t), k, has);
  }

  lemma ContributionsWithoutOne(included: map<nat, Included>, k: nat)
    requires k in included
    ensures Contributions(included) - {k} == Contributions(included - {k})
    ensures k in Contributions(included)
            && Contributions(included)[k] == Contribution(included[k].source, included[k].detail)
  {
    hide Contribution;
  }

  lemma NothingHas(t: Tally)
    ensures Having(map[], t) == {} && HavingWriting(map[], t) == {} && HavingFinalDb(map[], t) == {}
    ensures Total(Contributions(map[])) == multiset{}
  {
    assert Contributions(map[]) == map[];
  }

  lemma {:induction false} TotalCounts(included: map<nat, Included>, t: Tally)
    ensures Total(Contributions(included))[t]
            == |Having(included, t)| + |HavingWriting(included, t)| + |HavingFinalDb(included, t)|
    decreases |included|
  {
    hide Contribution, Contributions, Having, HavingWriting, HavingFinalDb, RoundHas, WritingHas, FinalDbHas, Total;
    if included == map[] {
      NothingHas(t);
    } else {
      var k :| k in included;
      TotalCounts(included - {k}, t);
      ContributionsWithoutOne(included, k);
      HavingWithoutOne(included, k, t);
      HavingWritingWithoutOne(included, k, t);
      HavingFinalDbWithoutOne(included, k, t);
      TotalTakesAnyKey(Contributions(included), k);
      ContributionCounts(included[k].source, included[k].detail, t);
    }
  }

  /** In every run each counter is the number of included rounds whose recorded detail has what it counts; the counters
      of malformed and unrecorded items count the axes of an item one by one. */
  lemma CumulativeCounts(start: int, maxRecords: nat, events: seq<Event>, t: Tally)
    ensures var st := Run(EmptyLedger(start, maxRecords), events);
            var included := IncludedRounds(st);
            st.cumulative[t] == |Having(included, t)| + |HavingWriting(included, t)| + |HavingFinalDb(included, t)|
  {
    hide Run, Contributions, Having, HavingWriting, HavingFinalDb;
    CumulativeIsExactlyOnce(start, maxRecords, events);
    TotalCounts(IncludedRounds(Run(EmptyLedger(start, maxRecords), events)), t);
  }

  // ---- What the cohorts count ----

  /** The record counts under this key. */
  predicate CountsUnder(r: Record, t: CohortKey) {
    && r.source == t.source
    && match t
       case Invocations(_) => true
       case ConnectionOf(_, UnboundName) => r.connection == Unbound
       case ConnectionOf(_, StartedName) => r.connection.Started?
       case ConnectionOf(_, InitFailedName) => r.connection == InitFailed
       case LifecycleOf(_, lifecycle) => r.lifecycle == lifecycle
       case EverOverdue(_) => r.everOverdue
       case EverUnavailable(_) => r.everUnavailable
       case LateFinish(_) => r.lateFinish
  }

  ghost function Under(records: map<nat, Record>, t: CohortKey): set<nat> {
    set k | k in records && CountsUnder(records[k], t)
  }

  lemma TallyCounts(r: Record, t: CohortKey)
    ensures CohortTally(r)[t] == One(CountsUnder(r, t))
  {
  }

  lemma UnderWithoutOne(records: map<nat, Record>, k: nat, t: CohortKey)
    requires k in records
    ensures |Under(records, t)| == |Under(records - {k}, t)| + One(CountsUnder(records[k], t))
  {
    hide CountsUnder, One;
    var less, has := records - {k}, CountsUnder(records[k], t);
    forall j: nat ensures j in Under(records, t) <==> j in Under(less, t) || (j == k && has) {
    }
    assert k !in Under(less, t);
    hide Under;
    OneMoreHaving(Under(records, t), Under(less, t), k, has);
  }

  lemma TalliesWithoutOne(records: map<nat, Record>, k: nat)
    requires k in records
    ensures CohortTallies(records) - {k} == CohortTallies(records - {k})
    ensures k in CohortTallies(records) && CohortTallies(records)[k] == CohortTally(records[k])
  {
    hide CohortTally;
  }

  /** Each counter of any records is the number of those that have what it counts. */
  lemma {:induction false} CohortCounts(records: map<nat, Record>, t: CohortKey)
    ensures Total(CohortTallies(records))[t] == |Under(records, t)|
    decreases |records|
  {
    hide CohortTally, CohortTallies, Under, CountsUnder, Total;
    if records == map[] {
      NothingUnder(t);
    } else {
      var k :| k in records;
      CohortCounts(records - {k}, t);
      UnderWithoutOne(records, k, t);
      TalliesWithoutOne(records, k);
      TotalTakesAnyKey(CohortTallies(records), k);
      TallyCounts(records[k], t);
    }
  }

  lemma NothingUnder(t: CohortKey)
    ensures Under(map[], t) == {} && Total(CohortTallies(map[])) == multiset{}
  {
    assert CohortTallies(map[]) == map[];
  }

  /** In every run each total of the epoch is the number of invocations, retired or live, that have what it counts. */
  lemma EpochTotalsCount(start: int, maxRecords: nat, events: seq<Event>, t: CohortKey)
    ensures var st := Run(EmptyLedger(start, maxRecords), events);
            EpochTotals(st)[t] == |Under(st.retired, t)| + |Under(st.records, t)|
  {
    hide Run, CohortTallies, Under, Total, IdsOk, OwnersOk, OwnedIdsOk, RecordsOk, CumulativeOk, RegisteredOk, TombsOk,
         ChangesOk, LineOk;
    RunKeeps(start, maxRecords, events);
    var st := Run(EmptyLedger(start, maxRecords), events);
    CohortCounts(st.retired, t);
    CohortCounts(st.records, t);
  }
}
