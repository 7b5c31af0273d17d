/** The state of the round ledger (app/d7_round_ledger.py) as values.  Records and tombstones are keyed by their
    sequence number; `ids` is the dictionary from the invocation identifiers that are still resident. */
module LedgerState {
  import opened Wrappers
  import opened Axes

  type Id = int
  type Round = int
  type Contract = int

  const MINUTE := 60_000_000
  const GRACE := 70 * MINUTE
  const CLOSE_DELAY := 4_200_000_000
  const OVERDUE_AFTER := 900_000_000
  const LATE_WINDOW := 7_200_000_000
  const UNFINISHED_EXPIRY := 14_400_000_000
  const REGISTRATION_FRESHNESS := 60_000_000
  const MAX_CLOCK_SKEW := 60_000_000
  const REANCHOR_STEP_SKEW := 1_000_000
  const REANCHOR_PAIRS := 3
  const REANCHOR_MIN_SPAN := 10_000_000

  datatype Connection = Unbound | Started(round: Round) | InitFailed
  datatype Lifecycle =
    | AwaitingReport | InFlight | Overdue | ReportUnavailable | Finalized | Conflicting | ContractMixed
  datatype Inclusion = NotFinished | OpenIncluded | OpenExcluded | PostCloseExcluded
  datatype Exit = NoExit | NextEntry(wall: int, mono: int) | WrapperExited(wall: int, mono: int)

  /** The canonical object that is hashed; equal digests are equal objects. */
  datatype Digest =
    Digest(source: Source, round: Round, contract: Contract, wall: int, mono: int, summary: Summary,
           telemetryError: bool)
  datatype FinishInfo = FinishInfo(wall: int, mono: int, digest: Digest)
  datatype Instant = Instant(wall: int, mono: int)

  datatype Record = Record(
    id: Id, source: Source, startedWall: int, startedMono: int, job: Option<int>, serial: bool,
    connection: Connection, lifecycle: Lifecycle, initFailed: Option<Instant>, exit: Exit,
    finish: Option<FinishInfo>, inclusion: Inclusion, detail: Option<Detail>,
    everOverdue: bool, everUnavailable: bool, lateFinish: bool)

  datatype Tomb = Tomb(
    id: Id, source: Source, startedWall: int, startedMono: int, job: Option<int>, serial: bool,
    connection: Connection, lifecycle: Lifecycle, finish: Option<FinishInfo>,
    retireAt: int, retireMono: int, expired: bool)

  /** What the job index remembers of the latest registration of a job, whatever becomes of its record. */
  datatype JobSummary = JobSummary(
    seqNo: nat, serial: bool, startedWall: int, startedMono: int, exit: Exit, finished: Option<Instant>)

  datatype Action = Add | Remove
  datatype Change = Change(seqNo: nat, action: Action)

  datatype Registration = Registration(source: Source, startedWall: int)
  datatype Included = Included(source: Source, detail: Detail)

  /** A key of the frozen cohort counters. */
  datatype CohortKey =
    | Invocations(source: Source)
    | ConnectionOf(source: Source, connection: ConnectionName)
    | LifecycleOf(source: Source, lifecycle: Lifecycle)
    | EverOverdue(source: Source)
    | EverUnavailable(source: Source)
    | LateFinish(source: Source)
  datatype ConnectionName = UnboundName | StartedName | InitFailedName

  datatype Clock = Clock(
    last: Option<Instant>, isolated: bool, candidate: Option<Instant>, pairs: nat, firstMono: int, reanchors: nat)

  datatype Ledger = Ledger(
    start: int, maxRecords: nat,
    ids: map<Id, nat>, records: map<nat, Record>, tombs: map<nat, Tomb>,
    owners: map<(Source, Round), nat>, ownedIds: set<Id>, jobs: map<(Source, int), JobSummary>,
    cumulative: multiset<Tally>, frontier: Option<int>,
    frozen: multiset<CohortKey>, frozenThrough: Option<int>,
    nTotal: nat, identityPruned: bool, admissionStopped: bool, indexError: bool,
    clock: Clock,
    // What has happened so far; no operation reads it.  `retired` holds every record that ever left the ledger, as it
    // was counted for the last time.
    registered: seq<Registration>, retired: map<nat, Record>, changes: seq<Change>)

  function EmptyLedger(start: int, maxRecords: nat): Ledger {
    Ledger(start, maxRecords, map[], map[], map[], map[], {}, map[], multiset{}, None, multiset{}, None, 0,
           false, false, false, Clock(None, false, None, 0, 0, 0), [], map[], [])
  }

  // ---- Times derived from a record ----

  /** Python's floor division by a minute, back in microseconds. */
  function FloorMinute(x: int): (r: int)
    ensures r <= x < r + MINUTE && r % MINUTE == 0
  {
    x / MINUTE * MINUTE
  }

  function BucketEnd(finishedWall: int): int { FloorMinute(finishedWall) + MINUTE }

  function CloseAt(finishedWall: int): int { BucketEnd(finishedWall) + CLOSE_DELAY }

  function RetireAt(r: Record): int {
    match r.finish
    case Some(f) => CloseAt(f.wall)
    case None => r.startedWall + UNFINISHED_EXPIRY
  }

  function RetireMono(r: Record): int {
    match r.finish
    case Some(f) => f.mono + CloseAt(f.wall) - f.wall
    case None => r.startedMono + UNFINISHED_EXPIRY
  }

  /** The end of the last bucket that is already closed. */
  function PreviousEnd(start: int, frontier: Option<int>): int { frontier.GetOr(FloorMinute(start)) }

  function CohortExactFrom(frozenThrough: Option<int>): int {
    match frozenThrough
    case Some(w) => w + 1
    case None => 0
  }

  function Summarize(k: nat, r: Record): JobSummary {
    JobSummary(k, r.serial, r.startedWall, r.startedMono, r.exit,
               if r.finish.Some? then Some(Instant(r.finish.value.wall, r.finish.value.mono)) else None)
  }

  // ---- Lookup ----

  predicate Live(st: Ledger, id: Id) { id in st.ids && st.ids[id] in st.records }
  predicate Tombstoned(st: Ledger, id: Id) { id in st.ids && st.ids[id] !in st.records && st.ids[id] in st.tombs }

  predicate Pending(r: Record) { r.lifecycle == AwaitingReport || r.lifecycle == InFlight }
  predicate Unreported(r: Record) { Pending(r) || r.lifecycle == Overdue }

  function NameOf(c: Connection): ConnectionName {
    match c
    case Unbound => UnboundName
    case Started(_) => StartedName
    case InitFailed => InitFailedName
  }
}
