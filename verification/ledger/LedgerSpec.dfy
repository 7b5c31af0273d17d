/** What each public operation of the ledger does to its state, by plain scans over the records: no index is consulted.
    The class in RoundLedger.dfy works through its indexes and is proved to do exactly this. */
module LedgerSpec {
  import opened Wrappers
  import opened Totals
  import opened Axes
  import opened LedgerState

  datatype Retention = Keep | TooLarge | OverBudget

  /** A report as `finish` receives it: `problem` is a failed size or shape check, `retention` says whether its detail
      fits what the ledger may still hold. */
  datatype Report = Report(problem: bool, summary: Summary, telemetryError: bool, retention: Retention)

  datatype Event =
    | Register(id: Id, source: Source, startedWall: int, startedMono: int, wall: int, mono: int,
               job: Option<int>, serial: bool, fits: bool)
    | LinkRound(id: Id, round: Round, contract: Contract, wall: int, mono: int)
    | Finish(id: Id, round: Round, contract: Contract, finishedWall: int, finishedMono: int, report: Report,
             wall: int, mono: int)
    | ReportInitFailed(id: Id, failedWall: int, failedMono: int, wall: int, mono: int)
    | WrapperExit(id: Id, exitedWall: int, exitedMono: int, wall: int, mono: int)
    | Observe(wall: int, mono: int)

  datatype Reply =
    | PostCloseUnverified | InvalidArgument | TimeIntegrityError | ClockUnverified
    | DuplicateInvocation | RegistrationConflict | UnsupportedSource | LateStartExcluded | AdmissionStopped | Registered
    | Orphan | ExpiredIdentityUnverified | ExpiredStart | ExpiredFinish | ExpiredWrapper
    | IdentityConflict | RelinkedSame | ContractMixedReply | UnregisteredContract | Linked
    | StartUnrecorded | InputProblem | ConflictingFinish | AfterConflictRedelivery | DuplicateFinish
    | PostCloseDuplicate | PostCloseConflict | PostCloseFinish | ReportUnavailableReply | FinalizedReply
    | DuplicateInitFailure | InitFailureConflict | InitFailureRecorded
    | DuplicateWrapperExit | WrapperExitConflict | WrapperExitRecorded
    | Snapshot

  /** The registered contract of a source. */
  function RegisteredContract(source: Source): Contract {
    if source == Investing then 3 else 1
  }

  // ---- Clocks ----

  datatype Gate = Rejected(clock: Clock, monoRegressed: bool) | Accepted

  function Abs(x: int): nat { if x < 0 then -x else x }

  /** The step from one candidate pair to the next is steady enough to trust. */
  predicate Steady(previous: Instant, wall: int, mono: int) {
    wall > previous.wall && mono > previous.mono
    && Abs((wall - previous.wall) - (mono - previous.mono)) <= REANCHOR_STEP_SKEW
  }

  /** An isolated clock gathers steady pairs until it may be anchored again. */
  function Isolate(c: Clock, wall: int, mono: int): Clock {
    var steady := c.candidate.Some? && Steady(c.candidate.value, wall, mono);
    var repeat := c.candidate == Some(Instant(wall, mono));
    var pairs := if steady then (if c.pairs + 1 < REANCHOR_PAIRS then c.pairs + 1 else REANCHOR_PAIRS)
                 else if repeat then c.pairs else 1;
    var firstMono := if steady || repeat then c.firstMono else mono;
    if pairs >= REANCHOR_PAIRS && mono - firstMono >= REANCHOR_MIN_SPAN then
      Clock(Some(Instant(wall, mono)), false, None, 0, firstMono, c.reanchors + 1)
    else
      Clock(c.last, true, Some(Instant(wall, mono)), pairs, firstMono, c.reanchors)
  }

  predicate Suspicious(c: Clock, wall: int, mono: int) {
    c.last.Some? && (wall < c.last.value.wall
                     || Abs((wall - c.last.value.wall) - (mono - c.last.value.mono)) > MAX_CLOCK_SKEW)
  }

  function CheckClock(c: Clock, wall: int, mono: int): Gate {
    if c.last.Some? && mono < c.last.value.mono then Rejected(c, true)
    else if c.isolated || Suspicious(c, wall, mono) then Rejected(Isolate(c, wall, mono), false)
    else Accepted
  }

  // ---- Updating one record ----

  function SyncJob(jobs: map<(Source, int), JobSummary>, k: nat, r: Record): map<(Source, int), JobSummary> {
    if r.job.Some? && (r.source, r.job.value) in jobs && jobs[(r.source, r.job.value)].seqNo == k
    then jobs[(r.source, r.job.value) := Summarize(k, r)] else jobs
  }

  function Put(st: Ledger, k: nat, r: Record): Ledger {
    st.(records := st.records[k := r], jobs := SyncJob(st.jobs, k, r))
  }

  /** A record that is answered while it is unavailable is marked as ever unavailable. */
  function Touched(r: Record): Record {
    if r.lifecycle == ReportUnavailable then r.(everUnavailable := true) else r
  }

  function Touch(st: Ledger, k: nat): Ledger
    requires k in st.records
  {
    Put(st, k, Touched(st.records[k]))
  }

  datatype Isolation = AsMixed | AsConflict | AsUnavailable

  function IsolatedLifecycle(lifecycle: Lifecycle, how: Isolation): Lifecycle {
    match how
    case AsMixed => ContractMixed
    case AsConflict => if lifecycle == ContractMixed then ContractMixed else Conflicting
    case AsUnavailable =>
      if lifecycle == ContractMixed || lifecycle == Conflicting then lifecycle else ReportUnavailable
  }

  /** Its report is given up, and it leaves the open contributions. */
  function Isolated(r: Record, how: Isolation): Record {
    r.(lifecycle := IsolatedLifecycle(r.lifecycle, how),
       inclusion := if r.inclusion == OpenIncluded then OpenExcluded else r.inclusion)
  }

  /** Isolates a record, announcing the removal of what it had contributed. */
  function IsolateRecord(st: Ledger, k: nat, how: Isolation): Ledger
    requires k in st.records
  {
    var out := st.records[k].inclusion == OpenIncluded;
    Put(st, k, Isolated(st.records[k], how))
    .(changes := if out then st.changes + [Change(k, Remove)] else st.changes)
  }

  function IsolateAndTouch(st: Ledger, k: nat, how: Isolation): Ledger
    requires k in st.records
  {
    Touch(IsolateRecord(st, k, how), k)
  }

  // ---- Retirement ----

  /** The tombstone of a record; one that finished after its bucket closed retires at the present at the earliest. */
  function Bury(r: Record, wall: int, mono: int): Tomb {
    var late := r.inclusion == PostCloseExcluded;
    Tomb(r.id, r.source, r.startedWall, r.startedMono, r.job, r.serial, r.connection, r.lifecycle, r.finish,
         if late && RetireAt(r) < wall then wall else RetireAt(r),
         if late && RetireMono(r) < mono then mono else RetireMono(r),
         r.finish.None?)
  }

  ghost function Buried(dead: map<nat, Record>, wall: int, mono: int): map<nat, Tomb> {
    map k | k in dead :: Bury(dead[k], wall, mono)
  }

  function CohortTally(r: Record): multiset<CohortKey> {
    Times(Invocations(r.source), 1)
    + Times(ConnectionOf(r.source, NameOf(r.connection)), 1)
    + Times(LifecycleOf(r.source, r.lifecycle), 1)
    + Times(EverOverdue(r.source), One(r.everOverdue))
    + Times(EverUnavailable(r.source), One(r.everUnavailable))
    + Times(LateFinish(r.source), One(r.lateFinish))
  }

  ghost function CohortTallies(dead: map<nat, Record>): map<nat, multiset<CohortKey>> {
    map k | k in dead :: CohortTally(dead[k])
  }

  /** The latest start among `base` and the given records. */
  ghost function LatestStart(dead: map<nat, Record>, base: Option<int>): (w: Option<int>)
    ensures dead == map[] ==> w == base
    ensures forall k :: k in dead ==> w.Some? && dead[k].startedWall <= w.value
    ensures base.Some? ==> w.Some? && base.value <= w.value
    ensures w == base || exists k :: k in dead && w == Some(dead[k].startedWall)
    decreases |dead|
  {
    if dead == map[] then base else
      var k :| k in dead;
      assert forall j :: j in dead ==> j == k || j in dead - {k};
      var rest := LatestStart(dead - {k}, base);
      if rest.Some? && dead[k].startedWall <= rest.value then rest else Some(dead[k].startedWall)
  }

  /** Retires the given records, each in the state in which it is counted for the last time. */
  ghost function Retire(st: Ledger, dead: map<nat, Record>, wall: int, mono: int): Ledger {
    st.(records := st.records - dead.Keys,
        tombs := st.tombs + Buried(dead, wall, mono),
        retired := st.retired + dead,
        frozen := st.frozen + Total(CohortTallies(dead)),
        frozenThrough := LatestStart(dead, st.frozenThrough))
  }

  // ---- Advancing ----

  /** The least of `d` and the members of `s`. */
  ghost function Least(s: set<int>, d: int): (m: int)
    ensures m <= d && (forall x :: x in s ==> m <= x)
    ensures m == d || m in s
    decreases |s|
  {
    if s == {} then d else
      var x := Any(s);
      assert forall y :: y in s ==> y == x || y in s - {x};
      var rest := Least(s - {x}, d);
      if x < rest then x else rest
  }

  /** A finished record whose bucket is due by wall time, but whose monotonic clock has not got there. */
  predicate HeldBack(r: Record, limit: int, mono: int) {
    r.finish.Some? && BucketEnd(r.finish.value.wall) <= limit && mono < RetireMono(r)
  }

  /** Buckets up to here may close: seventy minutes back in whole minutes, and before every record held back. */
  ghost function CloseTarget(records: map<nat, Record>, wall: int, mono: int): int {
    var limit := FloorMinute(wall - GRACE);
    Least(set k | k in records && HeldBack(records[k], limit, mono) ::
            BucketEnd(records[k].finish.value.wall) - MINUTE, limit)
  }

  /** The records whose bucket ends at `target` or before. */
  ghost function Closing(records: map<nat, Record>, target: int): map<nat, Record> {
    map k | k in records && records[k].finish.Some? && BucketEnd(records[k].finish.value.wall) <= target :: records[k]
  }

  /** Of the given records, those that count. */
  ghost function IncludedOf(records: map<nat, Record>): map<nat, Included> {
    map k | k in records && records[k].inclusion == OpenIncluded && records[k].detail.Some? ::
      Included(records[k].source, records[k].detail.value)
  }

  ghost function Contributions(included: map<nat, Included>): map<nat, multiset<Tally>> {
    map k | k in included :: Contribution(included[k].source, included[k].detail)
  }

  ghost function CloseBuckets(st: Ledger, wall: int, mono: int): Ledger {
    var target := CloseTarget(st.records, wall, mono);
    if target <= PreviousEnd(st.start, st.frontier) then st else
      var closing := Closing(st.records, target);
      Retire(st.(cumulative := st.cumulative + Total(Contributions(IncludedOf(closing))), frontier := Some(target)),
             closing, wall, mono)
  }

  predicate OverdueBy(r: Record, mono: int) {
    r.finish.None? && Pending(r) && mono - r.startedMono >= OVERDUE_AFTER
  }

  function MarkOverdue(r: Record, mono: int): Record {
    if OverdueBy(r, mono) then r.(lifecycle := Overdue, everOverdue := true) else r
  }

  ghost function MarkOverdues(st: Ledger, mono: int): Ledger {
    st.(records := map k | k in st.records :: MarkOverdue(st.records[k], mono))
  }

  predicate Expirable(r: Record, wall: int, mono: int) {
    r.finish.None? && wall >= r.startedWall + UNFINISHED_EXPIRY && mono >= r.startedMono + UNFINISHED_EXPIRY
  }

  function Expired(r: Record): Record { r.(lifecycle := ReportUnavailable, everUnavailable := true) }

  ghost function ExpireUnfinished(st: Ledger, wall: int, mono: int): Ledger {
    Retire(st, map k | k in st.records && Expirable(st.records[k], wall, mono) :: Expired(st.records[k]), wall, mono)
  }

  predicate Prunable(t: Tomb, wall: int, mono: int) {
    wall >= t.retireAt + LATE_WINDOW && mono >= t.retireMono + LATE_WINDOW
  }

  /** Forgets the given tombstones together with their identities. */
  ghost function Prune(st: Ledger, gone: set<nat>): Ledger {
    st.(tombs := st.tombs - gone,
        ids := (map i | i in st.ids && st.ids[i] !in gone :: st.ids[i]),
        owners := (map key | key in st.owners && st.owners[key] !in gone :: st.owners[key]),
        ownedIds := (set i | i in st.ownedIds && !(i in st.ids && st.ids[i] in gone)),
        identityPruned := st.identityPruned || gone != {})
  }

  ghost function Prunables(tombs: map<nat, Tomb>, wall: int, mono: int): set<nat> {
    set k | k in tombs && Prunable(tombs[k], wall, mono)
  }

  ghost function PruneTombs(st: Ledger, wall: int, mono: int): Ledger {
    Prune(st, Prunables(st.tombs, wall, mono))
  }

  function Stamp(st: Ledger, wall: int, mono: int): Ledger {
    st.(clock := st.clock.(last := Some(Instant(wall, mono))))
  }

  /** An accepted event first brings the whole ledger up to its pair of clock readings. */
  ghost function Advance(st: Ledger, wall: int, mono: int): Ledger {
    PruneTombs(
      ExpireUnfinished(
        MarkOverdues(Stamp(CloseBuckets(st, wall, mono), wall, mono), mono), wall, mono), wall, mono)
  }

  // ---- Before an event is accepted ----

  predicate OwnerBroken(st: Ledger, k: nat, source: Source, connection: Connection) {
    connection.Started? && !((source, connection.round) in st.owners && st.owners[(source, connection.round)] == k)
  }

  /** The identity check on the invocation itself. */
  predicate IdentityFault(st: Ledger, id: Id) {
    if Live(st, id) then
      OwnerBroken(st, st.ids[id], st.records[st.ids[id]].source, st.records[st.ids[id]].connection)
    else
      || (Tombstoned(st, id)
          && OwnerBroken(st, st.ids[id], st.tombs[st.ids[id]].source, st.tombs[st.ids[id]].connection))
      || (id in st.ownedIds && !Tombstoned(st, id))
  }

  /** The identity check on the invocation that owns the round an event names. */
  predicate CandidateFault(st: Ledger, key: (Source, Round)) {
    key in st.owners &&
    var k := st.owners[key];
    if k in st.records then st.records[k].source != key.0 || st.records[k].connection != Started(key.1)
    else if k in st.tombs then st.tombs[k].source != key.0 || st.tombs[k].connection != Started(key.1)
    else true
  }

  function Faulted(st: Ledger): (Ledger, Reply) { (st.(indexError := true), PostCloseUnverified) }

  function MissingEvent(st: Ledger): Reply { if st.identityPruned then ExpiredIdentityUnverified else Orphan }

  predicate BeforeOrigin(st: Ledger, wall: int) { st.clock.last.None? && wall < st.start }

  function ClockReply(g: Gate): Reply
    requires g.Rejected?
  {
    if g.monoRegressed then TimeIntegrityError else ClockUnverified
  }

  // ---- Register ----

  predicate SameRegistration(e: Event, source: Source, startedWall: int, startedMono: int, job: Option<int>,
                             serial: bool)
    requires e.Register?
  {
    e.source == source && e.startedWall == startedWall && e.startedMono == startedMono && e.job == job
    && e.serial == serial
  }

  ghost function RegisterStep(st: Ledger, e: Event): (Ledger, Reply)
    requires e.Register?
  {
    if e.serial && e.job.None? then (st, InvalidArgument)
    else if st.indexError then (st, PostCloseUnverified)
    else if IdentityFault(st, e.id) then Faulted(st)
    else if !Live(st, e.id) && e.startedWall < st.start then (st, InvalidArgument)
    else if BeforeOrigin(st, e.wall) then (st, InvalidArgument)
    else
      var gate := CheckClock(st.clock, e.wall, e.mono);
      if gate.Rejected? then (st.(clock := gate.clock), ClockReply(gate))
      else RegisterApply(Advance(st, e.wall, e.mono), e)
  }

  function RegisterApply(st: Ledger, e: Event): (Ledger, Reply)
    requires e.Register?
  {
    if Live(st, e.id) then
      var k := st.ids[e.id];
      var r := st.records[k];
      if SameRegistration(e, r.source, r.startedWall, r.startedMono, r.job, r.serial)
      then (Touch(st, k), DuplicateInvocation)
      else (IsolateAndTouch(st, k, AsConflict), RegistrationConflict)
    else if Tombstoned(st, e.id) then
      var t := st.tombs[st.ids[e.id]];
      (st, if SameRegistration(e, t.source, t.startedWall, t.startedMono, t.job, t.serial)
           then DuplicateInvocation else RegistrationConflict)
    else if e.startedWall > e.wall || e.startedMono > e.mono then (st, TimeIntegrityError)
    else if e.source == Unsupported then (st, UnsupportedSource)
    else if e.wall - e.startedWall > REGISTRATION_FRESHNESS || e.mono - e.startedMono > REGISTRATION_FRESHNESS then
      (st, LateStartExcluded)
    else if e.startedWall < CohortExactFrom(st.frozenThrough) then (st, ClockUnverified)
    else if st.admissionStopped || |st.records| + |st.tombs| >= st.maxRecords || !e.fits then
      (st.(admissionStopped := true), AdmissionStopped)
    else (Enter(NoteNextEntry(st, e), e), Registered)
  }

  function NewRecord(e: Event): Record
    requires e.Register?
  {
    MarkOverdue(
      Record(e.id, e.source, e.startedWall, e.startedMono, e.job, e.serial, Unbound, AwaitingReport, None, NoExit,
             None, NotFinished, None, false, false, false), e.mono)
  }

  function Enter(st: Ledger, e: Event): Ledger
    requires e.Register?
  {
    var k := st.nTotal + 1;
    st.(nTotal := k, ids := st.ids[e.id := k], records := st.records[k := NewRecord(e)],
        registered := st.registered + [Registration(e.source, e.startedWall)],
        jobs := if e.job.Some? then st.jobs[(e.source, e.job.value) := Summarize(k, NewRecord(e))] else st.jobs)
  }

  /** A serial job's new entry shows that its previous invocation has ended, unless the times contradict it. */
  predicate EndsPrevious(p: JobSummary, startedWall: int, startedMono: int) {
    && p.serial && startedWall >= p.startedWall && startedMono >= p.startedMono
    && p.finished.None? && p.exit == NoExit
  }

  function NoteNextEntry(st: Ledger, e: Event): Ledger
    requires e.Register?
  {
    if e.serial && e.job.Some? && (e.source, e.job.value) in st.jobs then
      var p := st.jobs[(e.source, e.job.value)];
      if EndsPrevious(p, e.startedWall, e.startedMono) && p.seqNo in st.records then
        var r := st.records[p.seqNo].(exit := NextEntry(e.startedWall, e.startedMono));
        st.(records := st.records[p.seqNo := if Unreported(r) then Unavailable(r) else r])
      else st
    else st
  }

  function Unavailable(r: Record): Record { r.(lifecycle := ReportUnavailable, everUnavailable := true) }

  // ---- Link ----

  ghost function LinkStep(st: Ledger, e: Event): (Ledger, Reply)
    requires e.LinkRound?
  {
    if st.indexError then (st, PostCloseUnverified)
    else if IdentityFault(st, e.id) then Faulted(st)
    else if !Live(st, e.id) && !Tombstoned(st, e.id) then (st, MissingEvent(st))
    else if Live(st, e.id) && CandidateFault(st, (st.records[st.ids[e.id]].source, e.round)) then Faulted(st)
    else if BeforeOrigin(st, e.wall) then (st, InvalidArgument)
    else
      var gate := CheckClock(st.clock, e.wall, e.mono);
      if gate.Rejected? then (st.(clock := gate.clock), ClockReply(gate))
      else LinkApply(Advance(st, e.wall, e.mono), e)
  }

  function LinkApply(st: Ledger, e: Event): (Ledger, Reply)
    requires e.LinkRound?
  {
    if Live(st, e.id) then LinkLive(st, st.ids[e.id], e)
    else if Tombstoned(st, e.id) then
      var t := st.tombs[st.ids[e.id]];
      (st, if t.expired then ExpiredStart
           else if t.connection == Started(e.round) then RelinkedSame else IdentityConflict)
    else (st, MissingEvent(st))
  }

  /** Another invocation owns the round. */
  predicate OwnedByOther(st: Ledger, k: nat, key: (Source, Round)) { key in st.owners && st.owners[key] != k }

  /** Both parties of a conflict over a round are isolated, as far as they are still live. */
  function Conflict(st: Ledger, k: nat, key: (Source, Round)): Ledger
    requires k in st.records
  {
    var s := IsolateRecord(st, k, AsConflict);
    if OwnedByOther(st, k, key) && st.owners[key] in st.records then IsolateRecord(s, st.owners[key], AsConflict) else s
  }

  function LinkLive(st: Ledger, k: nat, e: Event): (Ledger, Reply)
    requires e.LinkRound? && k in st.records
  {
    var r := st.records[k];
    var key := (r.source, e.round);
    if (r.connection.Started? && r.connection.round != e.round) || OwnedByOther(st, k, key) then
      (Conflict(st, k, key), IdentityConflict)
    else match r.connection
      case InitFailed => (IsolateRecord(st, k, AsConflict), IdentityConflict)
      case Started(_) =>
        if e.contract == RegisteredContract(r.source) then (Touch(st, k), RelinkedSame)
        else (IsolateAndTouch(st, k, AsMixed), ContractMixedReply)
      case Unbound =>
        if e.contract == RegisteredContract(r.source) then (Touch(Bind(st, k, e.round), k), Linked)
        else (IsolateAndTouch(st, k, AsUnavailable), UnregisteredContract)
  }

  function Bind(st: Ledger, k: nat, round: Round): Ledger
    requires k in st.records
  {
    var r := st.records[k];
    Put(st, k, r.(connection := Started(round),
                  lifecycle := if r.lifecycle == AwaitingReport then InFlight else r.lifecycle))
    .(owners := st.owners[(r.source, round) := k], ownedIds := st.ownedIds + {r.id})
  }

  // ---- Finish ----

  predicate WithinClocks(r: Record, e: Event)
    requires e.Finish?
  {
    r.startedWall <= e.finishedWall <= e.wall && r.startedMono <= e.finishedMono <= e.mono
  }

  /** A first finish may neither fall behind the closed frontier while its own bucket is still open, nor find its
      bucket closed by wall time alone. */
  predicate FinishOutOfStep(st: Ledger, r: Record, e: Event)
    requires e.Finish?
  {
    && r.connection == Started(e.round) && r.finish.None? && WithinClocks(r, e)
    && var closeAt := CloseAt(e.finishedWall);
       || (st.frontier.Some? && BucketEnd(e.finishedWall) <= st.frontier.value && e.wall < closeAt)
       || (e.wall >= closeAt && e.mono < e.finishedMono + closeAt - e.finishedWall)
  }

  ghost function FinishStep(st: Ledger, e: Event): (Ledger, Reply)
    requires e.Finish?
  {
    if st.indexError then (st, PostCloseUnverified)
    else if IdentityFault(st, e.id) then Faulted(st)
    else if !Live(st, e.id) && !Tombstoned(st, e.id) then (st, MissingEvent(st))
    else if Live(st, e.id) && CandidateFault(st, (st.records[st.ids[e.id]].source, e.round)) then Faulted(st)
    else if BeforeOrigin(st, e.wall) then (st, InvalidArgument)
    else
      var gate := CheckClock(st.clock, e.wall, e.mono);
      if gate.Rejected? then (st.(clock := gate.clock), ClockReply(gate))
      else if Live(st, e.id) && FinishOutOfStep(st, st.records[st.ids[e.id]], e) then (st, ClockUnverified)
      else FinishApply(Advance(st, e.wall, e.mono), e)
  }

  function DigestOf(source: Source, e: Event): Digest
    requires e.Finish?
  {
    Digest(source, e.round, e.contract, e.finishedWall, e.finishedMono, e.report.summary, e.report.telemetryError)
  }

  ghost function FinishApply(st: Ledger, e: Event): (Ledger, Reply)
    requires e.Finish?
  {
    if Live(st, e.id) then FinishLive(st, st.ids[e.id], e)
    else if Tombstoned(st, e.id) then (st, FinishTomb(st.tombs[st.ids[e.id]], e))
    else (st, MissingEvent(st))
  }

  function FinishTomb(t: Tomb, e: Event): Reply
    requires e.Finish?
  {
    if t.expired then ExpiredFinish
    else if t.connection != Started(e.round) then IdentityConflict
    else if e.report.problem then InputProblem
    else if t.finish.Some? && t.finish.value.digest == DigestOf(t.source, e) then PostCloseDuplicate
    else PostCloseConflict
  }

  predicate FinishTimesWrong(r: Record, e: Event)
    requires e.Finish?
  {
    || !WithinClocks(r, e)
    || (match r.exit
        case NoExit => false
        case NextEntry(w, m) => e.finishedWall > w || e.finishedMono > m
        case WrapperExited(w, m) => e.finishedWall > w || e.finishedMono > m)
  }

  ghost function FinishLive(st: Ledger, k: nat, e: Event): (Ledger, Reply)
    requires e.Finish? && k in st.records
  {
    var r := st.records[k];
    var key := (r.source, e.round);
    if OwnedByOther(st, k, key) then (Conflict(st, k, key), IdentityConflict)
    else match r.connection
      case InitFailed => (IsolateRecord(st, k, AsConflict), IdentityConflict)
      case Unbound => (IsolateAndTouch(st, k, AsUnavailable), StartUnrecorded)
      case Started(round) =>
        if round != e.round then (IsolateRecord(st, k, AsConflict), IdentityConflict)
        else FinishStarted(st, k, e)
  }

  ghost function FinishStarted(st: Ledger, k: nat, e: Event): (Ledger, Reply)
    requires e.Finish? && k in st.records
  {
    var r := st.records[k];
    if e.contract != RegisteredContract(r.source) then (IsolateAndTouch(st, k, AsMixed), ContractMixedReply)
    else if e.report.problem then (IsolateAndTouch(st, k, AsUnavailable), InputProblem)
    else if r.finish.Some? && r.finish.value.digest != DigestOf(r.source, e) then
      (IsolateAndTouch(st, k, AsConflict), ConflictingFinish)
    else if FinishTimesWrong(r, e) then (IsolateAndTouch(st, k, AsUnavailable), TimeIntegrityError)
    else if r.lifecycle == Conflicting || r.lifecycle == ContractMixed then (Touch(st, k), AfterConflictRedelivery)
    else if r.finish.Some? then (Touch(st, k), DuplicateFinish)
    else FirstFinish(st, k, e)
  }

  /** The record as its first finish leaves it, apart from whether it counts. */
  function Finished(r: Record, e: Event): Record
    requires e.Finish?
  {
    r.(finish := Some(FinishInfo(e.finishedWall, e.finishedMono, DigestOf(r.source, e))),
       lateFinish := r.lateFinish || ((r.lifecycle == ReportUnavailable || r.lifecycle == Overdue)
                                      && (e.wall >= CloseAt(e.finishedWall) || e.report.retention == Keep)))
  }

  ghost function FirstFinish(st: Ledger, k: nat, e: Event): (Ledger, Reply)
    requires e.Finish? && k in st.records
  {
    var r := Finished(st.records[k], e);
    if e.wall >= CloseAt(e.finishedWall) then
      var last := r.(lifecycle := Finalized, inclusion := PostCloseExcluded);
      (Retire(Put(st, k, last), map[k := last], e.wall, e.mono), PostCloseFinish)
    else if e.report.retention != Keep then
      (Put(st, k, r.(lifecycle := ReportUnavailable, inclusion := OpenExcluded, everUnavailable := true))
       .(admissionStopped := st.admissionStopped || e.report.retention == OverBudget), ReportUnavailableReply)
    else
      (Put(st, k, r.(lifecycle := Finalized, inclusion := OpenIncluded,
                     detail := Some(Normalize(r.source, e.report.summary, e.report.telemetryError))))
       .(changes := st.changes + [Change(k, Add)]), FinalizedReply)
  }

  // ---- Evidence ----

  ghost function InitFailedStep(st: Ledger, e: Event): (Ledger, Reply)
    requires e.ReportInitFailed?
  {
    if st.indexError then (st, PostCloseUnverified)
    else if IdentityFault(st, e.id) then Faulted(st)
    else if !Live(st, e.id) && !Tombstoned(st, e.id) then (st, MissingEvent(st))
    else if BeforeOrigin(st, e.wall) then (st, InvalidArgument)
    else
      var gate := CheckClock(st.clock, e.wall, e.mono);
      if gate.Rejected? then (st.(clock := gate.clock), ClockReply(gate))
      else if Live(st, e.id) && EvidenceTimesWrong(st.records[st.ids[e.id]], e.failedWall, e.failedMono, e.wall, e.mono)
      then (st, TimeIntegrityError)
      else InitFailedApply(Advance(st, e.wall, e.mono), e)
  }

  predicate EvidenceTimesWrong(r: Record, atWall: int, atMono: int, wall: int, mono: int) {
    atWall < r.startedWall || atMono < r.startedMono || atWall > wall || atMono > mono
  }

  function InitFailedApply(st: Ledger, e: Event): (Ledger, Reply)
    requires e.ReportInitFailed?
  {
    if Live(st, e.id) then
      var k := st.ids[e.id];
      var r := st.records[k];
      var at := Some(Instant(e.failedWall, e.failedMono));
      if EvidenceTimesWrong(r, e.failedWall, e.failedMono, e.wall, e.mono) then (st, TimeIntegrityError)
      else if r.initFailed.Some? then (st, if r.initFailed == at then DuplicateInitFailure else InitFailureConflict)
      else if r.connection.Started? then
        (IsolateRecord(Put(st, k, r.(initFailed := at)), k, AsConflict), IdentityConflict)
      else
        var failed := r.(initFailed := at, connection := InitFailed);
        (Put(st, k, if Unreported(r) then Unavailable(failed) else failed), InitFailureRecorded)
    else if Tombstoned(st, e.id) then
      (st, if st.tombs[st.ids[e.id]].expired then ExpiredWrapper else DuplicateInitFailure)
    else (st, MissingEvent(st))
  }

  ghost function ExitStep(st: Ledger, e: Event): (Ledger, Reply)
    requires e.WrapperExit?
  {
    if st.indexError then (st, PostCloseUnverified)
    else if IdentityFault(st, e.id) then Faulted(st)
    else if !Live(st, e.id) && !Tombstoned(st, e.id) then (st, MissingEvent(st))
    else if BeforeOrigin(st, e.wall) then (st, InvalidArgument)
    else
      var gate := CheckClock(st.clock, e.wall, e.mono);
      if gate.Rejected? then (st.(clock := gate.clock), ClockReply(gate))
      else if Live(st, e.id) && EvidenceTimesWrong(st.records[st.ids[e.id]], e.exitedWall, e.exitedMono, e.wall, e.mono)
      then (st, TimeIntegrityError)
      else ExitApply(Advance(st, e.wall, e.mono), e)
  }

  function ExitApply(st: Ledger, e: Event): (Ledger, Reply)
    requires e.WrapperExit?
  {
    if Live(st, e.id) then
      var k := st.ids[e.id];
      var r := st.records[k];
      if EvidenceTimesWrong(r, e.exitedWall, e.exitedMono, e.wall, e.mono)
         || (r.exit.NextEntry? && (e.exitedWall > r.exit.wall || e.exitedMono > r.exit.mono))
      then (st, TimeIntegrityError)
      else if r.exit.WrapperExited? then
        (st, if r.exit == WrapperExited(e.exitedWall, e.exitedMono) then DuplicateWrapperExit else WrapperExitConflict)
      else if r.finish.Some? && (e.exitedWall < r.finish.value.wall || e.exitedMono < r.finish.value.mono) then
        (st, WrapperExitConflict)
      else
        var exited := r.(exit := WrapperExited(e.exitedWall, e.exitedMono));
        (Put(st, k, if Unreported(r) then Unavailable(exited) else exited), WrapperExitRecorded)
    else if Tombstoned(st, e.id) then
      (st, if st.tombs[st.ids[e.id]].expired then ExpiredWrapper else DuplicateWrapperExit)
    else (st, MissingEvent(st))
  }

  // ---- Queries and runs ----

  ghost function ObserveStep(st: Ledger, e: Event): (Ledger, Reply)
    requires e.Observe?
  {
    if st.indexError then (st, PostCloseUnverified)
    else if BeforeOrigin(st, e.wall) then (st, InvalidArgument)
    else
      var gate := CheckClock(st.clock, e.wall, e.mono);
      if gate.Rejected? then (st.(clock := gate.clock), ClockReply(gate))
      else (Advance(st, e.wall, e.mono), Snapshot)
  }

  ghost function Step(st: Ledger, e: Event): (Ledger, Reply) {
    match e
    case Register(_, _, _, _, _, _, _, _, _) => RegisterStep(st, e)
    case LinkRound(_, _, _, _, _) => LinkStep(st, e)
    case Finish(_, _, _, _, _, _, _, _) => FinishStep(st, e)
    case ReportInitFailed(_, _, _, _, _) => InitFailedStep(st, e)
    case WrapperExit(_, _, _, _, _) => ExitStep(st, e)
    case Observe(_, _) => ObserveStep(st, e)
  }

  ghost function Run(st: Ledger, events: seq<Event>): Ledger
    decreases |events|
  {
    if events == [] then st else Step(Run(st, events[..|events| - 1]), events[|events| - 1]).0
  }
}
