/** The counters of the authentication executor (app/auth_executor.py): submitters, workers, cancellations and resets
    interleave at the metrics lock, and bookkeeping may fail without stopping the work. */
module AuthExecutor {
  import opened Wrappers

  type Job = nat

  datatype Metrics = Metrics(
    submitted: int, submitFailed: int, started: int, neverStarted: int, inFlight: int, inFlightMax: int,
    count: int, queuedMax: int, errors: int)

  const ZERO := Metrics(0, 0, 0, 0, 0, 0, 0, 0, 0)

  function Queued(m: Metrics): int { m.submitted - m.submitFailed - m.started - m.neverStarted }

  function Max(a: int, b: int): int { if a < b then b else a }

  // ---- What one critical section does to the counters ----

  /** How far a start was recorded before something failed: not at all, only on the receipt, or fully before it. */
  datatype StartFate = Started | NothingStarted | ReceiptOnly | StartedThenRaised

  /** How far a finish was recorded: fully, not at all, only the gauge, or fully and then an error. */
  datatype FinishFate = Recorded | NothingRecorded | GaugeOnly | RecordedThenRaised

  function NoteSubmitted(m: Metrics): Metrics { m.(submitted := m.submitted + 1) }

  function NoteSubmitFailed(m: Metrics): Metrics { m.(submitFailed := m.submitFailed + 1) }

  function NotePeak(m: Metrics): Metrics { m.(queuedMax := Max(m.queuedMax, Queued(m))) }

  function NoteStarted(m: Metrics): Metrics {
    m.(started := m.started + 1, inFlight := m.inFlight + 1, inFlightMax := Max(m.inFlightMax, m.inFlight + 1))
  }

  function NoteError(m: Metrics): Metrics { m.(errors := m.errors + 1) }

  function StartLedger(m: Metrics, fate: StartFate): Metrics {
    match fate
    case Started => NoteStarted(m)
    case NothingStarted => NoteError(m)
    case ReceiptOnly => NoteError(m)
    case StartedThenRaised => NoteError(NoteStarted(m))
  }

  function Receipt(fate: StartFate): bool { fate != NothingStarted }

  /** The end of a worker; one that holds a receipt may not take the gauge below zero. */
  function FinishLedger(m: Metrics, receipt: bool, fate: FinishFate): Metrics {
    if receipt && m.inFlight <= 0 then NoteError(m)
    else
      var gauged := if receipt then m.(inFlight := m.inFlight - 1) else m;
      match fate
      case Recorded => gauged.(count := m.count + 1)
      case NothingRecorded => NoteError(m)
      case GaugeOnly => NoteError(gauged)
      case RecordedThenRaised => NoteError(gauged.(count := m.count + 1))
  }

  /** Whether the cancellation of a queued submission was counted; here an error leaves no trace. */
  predicate CountedOff(fate: FinishFate) { fate == Recorded || fate == RecordedThenRaised }

  function NeverStartedLedger(m: Metrics, fate: FinishFate): Metrics {
    match fate
    case Recorded => m.(count := m.count + 1, neverStarted := m.neverStarted + 1)
    case RecordedThenRaised => m.(count := m.count + 1, neverStarted := m.neverStarted + 1)
    case NothingRecorded => m
    case GaugeOnly => m.(count := m.count + 1)
  }

  predicate ResetAllowed(m: Metrics) { m.inFlight <= 0 && Queued(m) == 0 }

  function ResetLedger(m: Metrics): Metrics { Metrics(0, 0, 0, 0, m.inFlight, m.inFlight, 0, 0, 0) }

  // ---- The lane ----

  class AuthExecutorLane {
    var metrics: Metrics

    constructor ()
      ensures metrics == ZERO
    {
      metrics := ZERO;
    }

    method Submitted()
      modifies this
      ensures metrics == NoteSubmitted(old(metrics)) && Queued(metrics) == Queued(old(metrics)) + 1
    {
      metrics := metrics.(submitted := metrics.submitted + 1);
    }

    method SubmitFailed()
      modifies this
      ensures metrics == NoteSubmitFailed(old(metrics)) && Queued(metrics) == Queued(old(metrics)) - 1
    {
      metrics := metrics.(submitFailed := metrics.submitFailed + 1);
    }

    /** The new counters are built beside the old ones and put in their place at once; the receipt comes just before. */
    method WorkerStarted(fate: StartFate) returns (receipt: bool)
      modifies this
      ensures metrics == StartLedger(old(metrics), fate) && receipt == Receipt(fate)
    {
      receipt := false;
      if fate == NothingStarted {
        metrics := metrics.(errors := metrics.errors + 1);
        return;
      }
      var now := metrics.(started := metrics.started + 1, inFlight := metrics.inFlight + 1);
      now := now.(inFlightMax := if now.inFlightMax < now.inFlight then now.inFlight else now.inFlightMax);
      receipt := true;
      if fate == ReceiptOnly {
        metrics := metrics.(errors := metrics.errors + 1);
        return;
      }
      metrics := now;
      if fate == StartedThenRaised {
        metrics := metrics.(errors := metrics.errors + 1);
      }
    }

    method WorkerFinished(receipt: bool, fate: FinishFate)
      modifies this
      ensures metrics == FinishLedger(old(metrics), receipt, fate)
      ensures old(metrics.inFlight) >= 0 ==> metrics.inFlight >= 0
    {
      if (receipt && metrics.inFlight <= 0) || fate == NothingRecorded {
        metrics := metrics.(errors := metrics.errors + 1);
        return;
      }
      if receipt {
        metrics := metrics.(inFlight := metrics.inFlight - 1);
      }
      if fate == GaugeOnly {
        metrics := metrics.(errors := metrics.errors + 1);
        return;
      }
      metrics := metrics.(count := metrics.count + 1);
      if fate == RecordedThenRaised {
        metrics := metrics.(errors := metrics.errors + 1);
      }
    }

    method Reset() returns (ok: bool)
      modifies this
      ensures ok <==> ResetAllowed(old(metrics))
      ensures metrics == if ok then ResetLedger(old(metrics)) else old(metrics)
    {
      ok := metrics.inFlight <= 0 && Queued(metrics) == 0;
      if ok {
        metrics := Metrics(0, 0, 0, 0, metrics.inFlight, metrics.inFlight, 0, 0, 0);
      }
    }
  }

  // ---- Jobs ----

  /** Where a submission stands.  A job that was dequeued runs, though its start may not be recorded yet. */
  datatype Phase = Reserved | InQueue | Cancelled | Dequeued | Working(receipt: bool) | Gone

  /** `debt` are the reservations that nothing has offset; `finished` are the workers that ended since the last reset,
      recorded or not, and `never` the cancellations counted since then. */
  datatype World = World(metrics: Metrics, jobs: map<Job, Phase>, debt: set<Job>, finished: set<Job>, never: set<Job>)

  const START := World(ZERO, map[], {}, {}, {})

  datatype Event =
    | Reserve(job: Job)
    | SubmitOk(job: Job)
    | SubmitRaises(job: Job, noted: bool)
    | SamplePeak
    | CancelQueued(job: Job)
    | RecordCancelled(job: Job, finish: FinishFate)
    | Dequeue(job: Job)
    | RecordStart(job: Job, start: StartFate)
    | RecordFinish(job: Job, finish: FinishFate)
    | Reset

  predicate At(w: World, job: Job, p: Phase) { job in w.jobs && w.jobs[job] == p }

  function Move(w: World, job: Job, p: Phase): World { w.(jobs := w.jobs[job := p]) }

  /** Each event is one critical section or one hand-over between threads; one that is not due changes nothing. */
  function Step(w: World, e: Event): World {
    match e
    case Reserve(j) =>
      if j in w.jobs then w else Move(w, j, Reserved).(metrics := NoteSubmitted(w.metrics), debt := w.debt + {j})
    case SubmitOk(j) => if At(w, j, Reserved) then Move(w, j, InQueue) else w
    case SubmitRaises(j, noted) =>
      if !At(w, j, Reserved) then w
      else if noted then Move(w, j, Gone).(metrics := NoteSubmitFailed(w.metrics), debt := w.debt - {j})
      else Move(w, j, Gone)
    case SamplePeak => w.(metrics := NotePeak(w.metrics))
    case CancelQueued(j) => if At(w, j, InQueue) then Move(w, j, Cancelled) else w
    case RecordCancelled(j, fate) =>
      if !At(w, j, Cancelled) then w
      else
        var t := Move(w, j, Gone).(metrics := NeverStartedLedger(w.metrics, fate));
        if CountedOff(fate) then t.(debt := w.debt - {j}, never := w.never + {j}) else t
    case Dequeue(j) => if At(w, j, InQueue) then Move(w, j, Dequeued) else w
    case RecordStart(j, fate) =>
      if !At(w, j, Dequeued) then w
      else
        Move(w, j, Working(Receipt(fate))).(
          metrics := StartLedger(w.metrics, fate),
          debt := if fate == Started || fate == StartedThenRaised then w.debt - {j} else w.debt)
    case RecordFinish(j, fate) =>
      if !(j in w.jobs && w.jobs[j].Working?) then w
      else
        Move(w, j, Gone).(metrics := FinishLedger(w.metrics, w.jobs[j].receipt, fate), finished := w.finished + {j})
    case Reset =>
      if ResetAllowed(w.metrics) then w.(metrics := ResetLedger(w.metrics), finished := {}, never := {}) else w
  }

  function Run(w: World, events: seq<Event>): World
    decreases |events|
  {
    if events == [] then w else Step(Run(w, events[..|events| - 1]), events[|events| - 1])
  }

  // ---- Under every interleaving and every fault ----

  predicate Unsettled(p: Phase) { p == Reserved || p == InQueue || p == Cancelled || p == Dequeued }

  predicate Inv(w: World) {
    && Queued(w.metrics) == |w.debt| && w.metrics.inFlight >= 0 && w.metrics.inFlightMax >= w.metrics.inFlight
    && w.debt <= w.jobs.Keys
    && (forall j :: j in w.jobs && Unsettled(w.jobs[j]) ==> j in w.debt)
  }

  predicate GaugeOk(m: Metrics) { m.inFlight >= 0 && m.inFlightMax >= m.inFlight }

  /** A job moves on without being counted off. */
  lemma MoveKeeps(w: World, t: World, j: Job)
    requires Inv(w) && j in w.jobs && j in t.jobs && t.jobs == w.jobs[j := t.jobs[j]] && t.debt == w.debt
    requires Unsettled(t.jobs[j]) ==> Unsettled(w.jobs[j])
    requires Queued(t.metrics) == Queued(w.metrics) && GaugeOk(t.metrics)
    ensures Inv(t)
  {
  }

  /** A job is counted off. */
  lemma SettleKeeps(w: World, t: World, j: Job)
    requires Inv(w) && j in w.jobs && Unsettled(w.jobs[j]) && j in t.jobs && t.jobs == w.jobs[j := t.jobs[j]]
    requires !Unsettled(t.jobs[j]) && t.debt == w.debt - {j}
    requires Queued(t.metrics) == Queued(w.metrics) - 1 && GaugeOk(t.metrics)
    ensures Inv(t)
  {
    assert j in w.debt && |w.debt - {j}| == |w.debt| - 1;
  }

  lemma ReserveKeeps(w: World, j: Job)
    requires Inv(w)
    ensures Inv(Step(w, Reserve(j)))
  {
    assert j !in w.jobs ==> j !in w.debt && |w.debt + {j}| == |w.debt| + 1;
  }

  lemma HandOversKeep(w: World, e: Event)
    requires Inv(w) && (e.SubmitOk? || e.CancelQueued? || e.Dequeue?)
    ensures Inv(Step(w, e))
  {
    var t := Step(w, e);
    if t != w {
      MoveKeeps(w, t, e.job);
    }
  }

  lemma SubmitRaisesKeeps(w: World, j: Job, noted: bool)
    requires Inv(w)
    ensures Inv(Step(w, SubmitRaises(j, noted)))
  {
    if At(w, j, Reserved) {
      if noted {
        SettleKeeps(w, Step(w, SubmitRaises(j, noted)), j);
      } else {
        MoveKeeps(w, Step(w, SubmitRaises(j, noted)), j);
      }
    }
  }

  lemma RecordCancelledKeeps(w: World, j: Job, fate: FinishFate)
    requires Inv(w)
    ensures Inv(Step(w, RecordCancelled(j, fate)))
  {
    if At(w, j, Cancelled) {
      if CountedOff(fate) {
        SettleKeeps(w, Step(w, RecordCancelled(j, fate)), j);
      } else {
        MoveKeeps(w, Step(w, RecordCancelled(j, fate)), j);
      }
    }
  }

  lemma RecordStartKeeps(w: World, j: Job, fate: StartFate)
    requires Inv(w)
    ensures Inv(Step(w, RecordStart(j, fate)))
  {
    if At(w, j, Dequeued) {
      if fate == Started || fate == StartedThenRaised {
        SettleKeeps(w, Step(w, RecordStart(j, fate)), j);
      } else {
        MoveKeeps(w, Step(w, RecordStart(j, fate)), j);
      }
    }
  }

  lemma RecordFinishKeeps(w: World, j: Job, fate: FinishFate)
    requires Inv(w)
    ensures Inv(Step(w, RecordFinish(j, fate)))
  {
    if j in w.jobs && w.jobs[j].Working? {
      MoveKeeps(w, Step(w, RecordFinish(j, fate)), j);
    }
  }

  lemma LedgerOnlyKeeps(w: World, e: Event)
    requires Inv(w) && (e == SamplePeak || e == Reset)
    ensures Inv(Step(w, e))
  {
  }

  lemma StepKeeps(w: World, e: Event)
    requires Inv(w)
    ensures Inv(Step(w, e))
  {
    hide Inv, Step;
    match e {
      case Reserve(j) => ReserveKeeps(w, j);
      case SubmitOk(j) => HandOversKeep(w, e);
      case SubmitRaises(j, noted) => SubmitRaisesKeeps(w, j, noted);
      case SamplePeak => LedgerOnlyKeeps(w, e);
      case CancelQueued(j) => HandOversKeep(w, e);
      case RecordCancelled(j, fate) => RecordCancelledKeeps(w, j, fate);
      case Dequeue(j) => HandOversKeep(w, e);
      case RecordStart(j, fate) => RecordStartKeeps(w, j, fate);
      case RecordFinish(j, fate) => RecordFinishKeeps(w, j, fate);
      case Reset => LedgerOnlyKeeps(w, e);
    }
  }

  lemma StartInv()
    ensures Inv(START)
  {
  }

  lemma {:induction false} RunKeeps(events: seq<Event>)
    ensures Inv(Run(START, events))
    decreases |events|
  {
    hide Inv, Step;
    StartInv();
    if events != [] {
      RunKeeps(events[..|events| - 1]);
      StepKeeps(Run(START, events[..|events| - 1]), events[|events| - 1]);
    }
  }

  ghost function UnsettledJobs(w: World): set<Job> { set j | j in w.jobs && Unsettled(w.jobs[j]) }

  lemma SubsetSize<T>(a: set<T>, b: set<T>)
    requires a <= b
    ensures |a| <= |b|
  {
    assert b == a + (b - a);
  }

  /** In every run, whatever bookkeeping fails: at least the unsettled submissions are counted as queued, so the count
      is never negative, and neither is the gauge of running workers. */
  lemma CountersNeverNegative(events: seq<Event>)
    ensures var w := Run(START, events);
            Queued(w.metrics) >= |UnsettledJobs(w)| >= 0 && 0 <= w.metrics.inFlight <= w.metrics.inFlightMax
  {
    RunKeeps(events);
    hide Run;
    SubsetSize(UnsettledJobs(Run(START, events)), Run(START, events).debt);
  }

  /** A reset finds nobody unsettled, so none of the submissions it forgets can still be counted off. */
  lemma ResetFindsNobodyUnsettled(events: seq<Event>)
    requires ResetAllowed(Run(START, events).metrics)
    ensures UnsettledJobs(Run(START, events)) == {}
  {
    RunKeeps(events);
    var w := Run(START, events);
    hide Run;
    NoMembers(w.debt);
  }

  lemma NoMembers<T>(s: set<T>)
    ensures |s| == 0 <==> s == {}
  {
  }

  // ---- What moves each counter ----

  predicate Due(w: World, e: Event) {
    match e
    case Reserve(j) => j !in w.jobs
    case SubmitOk(j) => At(w, j, Reserved)
    case SubmitRaises(j, _) => At(w, j, Reserved)
    case SamplePeak => true
    case CancelQueued(j) => At(w, j, InQueue)
    case RecordCancelled(j, _) => At(w, j, Cancelled)
    case Dequeue(j) => At(w, j, InQueue)
    case RecordStart(j, _) => At(w, j, Dequeued)
    case RecordFinish(j, _) => j in w.jobs && w.jobs[j].Working?
    case Reset => w.metrics.inFlight <= 0 && Queued(w.metrics) == 0
  }

  /** The start of a worker is in the books. */
  predicate Starts(e: Event) { e.RecordStart? && e.start in {Started, StartedThenRaised} }

  /** The end of a worker has a start to offset, or was never due to. */
  predicate Offsets(w: World, e: Event)
    requires Due(w, e)
  {
    e.RecordFinish? && (w.jobs[e.job] == Working(true) ==> w.metrics.inFlight > 0)
  }

  function Plus(b: bool): int { if b then 1 else 0 }

  /** In every run each counter moves by one exactly at its own events, and a reset alone sets it back; the peaks are
      those of the gauge whenever it moves, and of the queue whenever it is sampled. */
  lemma EachCounterMoves(events: seq<Event>, e: Event)
    ensures var w := Run(START, events);
            var m, n := w.metrics, Step(w, e).metrics;
            if !Due(w, e) then n == m
            else if e == Reset then n == Metrics(0, 0, 0, 0, m.inFlight, m.inFlight, 0, 0, 0)
            else
              && n.submitted == m.submitted + Plus(e.Reserve?)
              && n.submitFailed == m.submitFailed + Plus(e.SubmitRaises? && e.noted)
              && n.started == m.started + Plus(Starts(e))
              && n.neverStarted
                 == m.neverStarted + Plus(e.RecordCancelled? && e.finish in {Recorded, RecordedThenRaised})
              && n.inFlight == m.inFlight + Plus(Starts(e))
                               - Plus(Offsets(w, e) && w.jobs[e.job] == Working(true) && e.finish != NothingRecorded)
              && n.inFlightMax == (if Starts(e) && n.inFlight > m.inFlightMax then n.inFlight else m.inFlightMax)
              && n.count == m.count + Plus(Offsets(w, e) && e.finish in {Recorded, RecordedThenRaised})
                            + Plus(e.RecordCancelled? && e.finish != NothingRecorded)
              && n.queuedMax == (if e == SamplePeak && Queued(m) > m.queuedMax then Queued(m) else m.queuedMax)
              && n.errors == m.errors + Plus(e.RecordStart? && e.start != Started)
                             + Plus(e.RecordFinish? && (!Offsets(w, e) || e.finish != Recorded))
  {
    hide Run;
  }

  // ---- Without faults ----

  predicate Faultless(e: Event) {
    match e
    case SubmitRaises(_, noted) => noted
    case RecordCancelled(_, fate) => fate == Recorded
    case RecordStart(_, fate) => fate == Started
    case RecordFinish(_, fate) => fate == Recorded
    case _ => true
  }

  ghost function WorkingJobs(jobs: map<Job, Phase>): set<Job> { set j | j in jobs && jobs[j].Working? }

  predicate Outstanding(w: World, j: Job) { j in w.jobs && Unsettled(w.jobs[j]) }

  ghost predicate Exact(w: World) {
    && w.metrics.inFlight == |WorkingJobs(w.jobs)|
    && w.metrics.count == |w.finished| + |w.never| && w.metrics.neverStarted == |w.never|
    && PhasesExact(w) && w.finished !! w.never
  }

  lemma StartsWork(jobs: map<Job, Phase>, j: Job, p: Phase)
    requires j in jobs && !jobs[j].Working?
    ensures p.Working? ==> WorkingJobs(jobs[j := p]) == WorkingJobs(jobs) + {j} && j !in WorkingJobs(jobs)
    ensures !p.Working? ==> WorkingJobs(jobs[j := p]) == WorkingJobs(jobs)
  {
  }

  lemma EndsWork(jobs: map<Job, Phase>, j: Job)
    requires j in jobs && jobs[j].Working?
    ensures WorkingJobs(jobs[j := Gone]) == WorkingJobs(jobs) - {j} && j in WorkingJobs(jobs)
    ensures |WorkingJobs(jobs)| >= 1 && |WorkingJobs(jobs[j := Gone])| == |WorkingJobs(jobs)| - 1
  {
  }

  lemma ReserveIsNoWork(jobs: map<Job, Phase>, j: Job)
    requires j !in jobs
    ensures WorkingJobs(jobs[j := Reserved]) == WorkingJobs(jobs)
  {
  }

  ghost predicate PhasesExact(w: World) {
    && (forall j :: j in w.jobs && w.jobs[j].Working? ==> w.jobs[j].receipt)
    && (forall j :: j in w.debt <==> Outstanding(w, j))
    && (forall j :: j in w.finished || j in w.never ==> At(w, j, Gone))
  }

  lemma PhasesStayExact(w: World, e: Event)
    requires PhasesExact(w) && Faultless(e) && (e == Reset && ResetAllowed(w.metrics) ==> w.debt == {})
    requires w.metrics.inFlight == |WorkingJobs(w.jobs)|
    ensures PhasesExact(Step(w, e))
  {
    hide WorkingJobs, Step, Faultless;
    var t := Step(w, e);
    forall j | j in t.jobs && t.jobs[j].Working? ensures t.jobs[j].receipt {
      ReceiptStays(w, e, j);
    }
    forall j ensures j in t.debt <==> Outstanding(t, j) {
      DebtStays(w, e, j);
    }
    forall j | j in t.finished || j in t.never ensures At(t, j, Gone) {
      EndedStays(w, e, j);
    }
  }

  lemma ReceiptStays(w: World, e: Event, j: Job)
    requires j in w.jobs && w.jobs[j].Working? ==> w.jobs[j].receipt
    requires Faultless(e)
    ensures var t := Step(w, e); j in t.jobs && t.jobs[j].Working? ==> t.jobs[j].receipt
  {
    hide StartLedger, FinishLedger, NeverStartedLedger, ResetLedger, NoteSubmitted, NoteSubmitFailed, NotePeak,
         ResetAllowed;
  }

  lemma DebtStays(w: World, e: Event, j: Job)
    requires j in w.debt <==> Outstanding(w, j)
    requires Faultless(e) && (e == Reset && ResetAllowed(w.metrics) ==> w.debt == {})
    ensures var t := Step(w, e); j in t.debt <==> Outstanding(t, j)
  {
    hide StartLedger, FinishLedger, NeverStartedLedger, ResetLedger, NoteSubmitted, NoteSubmitFailed, NotePeak,
         ResetAllowed;
  }

  lemma EndedStays(w: World, e: Event, j: Job)
    requires j in w.finished || j in w.never ==> At(w, j, Gone)
    ensures var t := Step(w, e); j in t.finished || j in t.never ==> At(t, j, Gone)
  {
    hide StartLedger, FinishLedger, NeverStartedLedger, ResetLedger, NoteSubmitted, NoteSubmitFailed, NotePeak,
         ResetAllowed;
  }

  lemma NewEventExact(w: World, e: Event)
    requires Exact(w) && Queued(w.metrics) == |w.debt| && (e.Reserve? || e == SamplePeak || e == Reset)
    ensures Exact(Step(w, e))
  {
    hide WorkingJobs, PhasesExact;
    NoMembers(w.debt);
    PhasesStayExact(w, e);
    if e.Reserve? && e.job !in w.jobs {
      ReserveIsNoWork(w.jobs, e.job);
    }
  }

  lemma HandOverExact(w: World, e: Event)
    requires Exact(w) && (e.SubmitOk? || e.CancelQueued? || e.Dequeue? || (e.SubmitRaises? && e.noted))
    ensures Exact(Step(w, e))
  {
    hide WorkingJobs, PhasesExact;
    PhasesStayExact(w, e);
    if Step(w, e) != w {
      StartsWork(w.jobs, e.job, Step(w, e).jobs[e.job]);
    }
  }

  lemma CancelExact(w: World, j: Job)
    requires Exact(w)
    ensures Exact(Step(w, RecordCancelled(j, Recorded)))
  {
    PhasesStayExact(w, RecordCancelled(j, Recorded));
    if At(w, j, Cancelled) {
      assert j !in w.never && j !in w.finished;
      hide WorkingJobs, PhasesExact;
      StartsWork(w.jobs, j, Gone);
    }
  }

  lemma StartExact(w: World, j: Job)
    requires Exact(w)
    ensures Exact(Step(w, RecordStart(j, Started)))
  {
    hide WorkingJobs, PhasesExact;
    PhasesStayExact(w, RecordStart(j, Started));
    if At(w, j, Dequeued) {
      StartsWork(w.jobs, j, Working(true));
    }
  }

  lemma FinishExact(w: World, j: Job)
    requires Exact(w)
    ensures Exact(Step(w, RecordFinish(j, Recorded)))
  {
    PhasesStayExact(w, RecordFinish(j, Recorded));
    if j in w.jobs && w.jobs[j].Working? {
      assert w.jobs[j].receipt && j !in w.never && j !in w.finished;
      hide WorkingJobs, PhasesExact;
      EndsWork(w.jobs, j);
    }
  }

  lemma DebtIsQueued(w: World)
    requires Inv(w)
    ensures Queued(w.metrics) == |w.debt|
  {
  }

  lemma StepStaysExact(w: World, e: Event)
    requires Inv(w) && Exact(w) && Faultless(e)
    ensures Exact(Step(w, e))
  {
    DebtIsQueued(w);
    hide Exact, Step, Inv;
    match e {
      case Reserve(j) => NewEventExact(w, e);
      case SubmitOk(j) => HandOverExact(w, e);
      case SubmitRaises(j, noted) => HandOverExact(w, e);
      case SamplePeak => NewEventExact(w, e);
      case CancelQueued(j) => HandOverExact(w, e);
      case RecordCancelled(j, fate) => CancelExact(w, j);
      case Dequeue(j) => HandOverExact(w, e);
      case RecordStart(j, fate) => StartExact(w, j);
      case RecordFinish(j, fate) => FinishExact(w, j);
      case Reset => NewEventExact(w, e);
    }
  }

  lemma StartIsExact()
    ensures Exact(START)
  {
    assert WorkingJobs(map[]) == {};
  }

  lemma {:induction false} RunStaysExact(events: seq<Event>)
    requires forall i :: 0 <= i < |events| ==> Faultless(events[i])
    ensures Exact(Run(START, events))
    decreases |events|
  {
    hide Exact, Step, Inv;
    StartIsExact();
    if events != [] {
      RunStaysExact(events[..|events| - 1]);
      RunKeeps(events[..|events| - 1]);
      StepStaysExact(Run(START, events[..|events| - 1]), events[|events| - 1]);
    }
  }

  /** In every run without faults the gauge is the number of running workers, the queue count is the number of unsettled
      submissions, and the count is what has finished or was cancelled before it started. */
  lemma CountersAreExact(events: seq<Event>)
    requires forall i :: 0 <= i < |events| ==> Faultless(events[i])
    ensures var w := Run(START, events);
            && w.metrics.inFlight == |WorkingJobs(w.jobs)|
            && Queued(w.metrics) == |UnsettledJobs(w)|
            && w.metrics.count == |w.finished| + |w.never| && w.metrics.neverStarted == |w.never|
  {
    RunStaysExact(events);
    RunKeeps(events);
    var w := Run(START, events);
    hide Run, WorkingJobs;
    assert w.debt == UnsettledJobs(w);
  }
}
