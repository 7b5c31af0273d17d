/** Draining legacy writers before activation (app/atomic_quiesce_durable.py, app/atomic_quiesce_startup.py,
    scripts/activate_atomic_fx.py): processes with cached modes, refreshes whose read and swap may lie apart, one
    transaction that halts and opens a quiesce session, and the acknowledgements of whoever has seen the halt. */
module Quiesce {
  import opened Wrappers
  import opened WriteModes
  import opened WriteControls
  import opened WriteRuntime

  type Pid = nat
  type Thread = nat
  type SessionId = nat

  /** A read that has been made but not yet swapped in. */
  datatype Pending = Pending(read: Read, since: int)

  datatype Process = Process(startedAt: int, snapshot: Snapshot, pending: map<Thread, Pending>)

  datatype Session = Session(id: SessionId, generation: int, haltedAt: int)

  datatype Ack = Ack(session: SessionId, boot: Pid, startedAt: int, generation: int, action: Mode)

  datatype World = World(
    now: int, row: Row, processes: map<Pid, Process>, open: Option<Session>, usedSessions: set<SessionId>,
    acks: set<Ack>,
    // When legacy mode was left, that is, when the halt was committed; no operation reads it.
    leftAt: Option<int>)

  datatype Event =
    | Update(brick: Brick)
    | HaltAndOpen(session: SessionId, expected: int, stamp: int)
    | StartProcess(pid: Pid)
    | BeginRefresh(pid: Pid, thread: Thread, fails: bool)
    | EndRefresh(pid: Pid, thread: Thread)
    | Acknowledge(pid: Pid)
    | ConsumeSession

  // ---- The operations ----

  function OpenQuiesce(w: World, id: SessionId, generation: int, haltedAt: int): (World, CasResult) {
    if generation < 0 || w.row.format != FORMAT || w.row.mode != Halt || w.row.generation != generation
       || w.row.epoch != 0 || w.open.Some? || id in w.usedSessions
    then (w, PreconditionFailed)
    else (w.(open := Some(Session(id, generation, haltedAt)), usedSessions := w.usedSessions + {id}), Applied)
  }

  function LeftAt(w: World, row: Row): Option<int> {
    if w.leftAt.None? && row.mode != Legacy then Some(w.now) else w.leftAt
  }

  /** Halt and open in one transaction: either both are committed or neither. The halt is stamped before the commit. */
  function CommitHalt(w: World, id: SessionId, expected: int, stamp: int): (World, CasResult) {
    var halted := Run1(Some(w.row), RequestHalt(expected));
    if halted.1 != Applied then (w, halted.1)
    else
      var row := halted.0.GetOr(w.row);
      var session := OpenQuiesce(w.(row := row, leftAt := LeftAt(w, row)), id, expected + 1, stamp);
      if session.1 != Applied then (w, session.1) else session
  }

  function RecordAck(w: World, session: SessionId, pid: Pid, startedAt: int, generation: int, action: Mode)
    : (World, CasResult)
  {
    if generation < 0 || action != Halt || w.row.format != FORMAT || w.row.mode != Halt
       || w.open.None? || w.open.value.id != session
       || generation < w.open.value.generation || startedAt <= w.open.value.haltedAt
    then (w, PreconditionFailed)
    else if exists a :: a in w.acks && a.session == session && a.boot == pid then (w, CasLost)
    else (w.(acks := w.acks + {Ack(session, pid, startedAt, generation, action)}), Applied)
  }

  /** A process acknowledges what its own cache enforces, once at its start. */
  function AcknowledgeIfQuiescing(w: World, pid: Pid): World {
    if pid !in w.processes || w.open.None? then w
    else
      var p := w.processes[pid];
      RecordAck(w, w.open.value.id, pid, p.startedAt, p.snapshot.generation, p.snapshot.enforced).0
  }

  /** An acknowledgement that proves the drain of a session. */
  predicate Qualifies(a: Ack, s: Session) {
    a.session == s.id && a.action == Halt && a.generation >= s.generation && a.startedAt > s.haltedAt
  }

  predicate Drained(w: World, expected: Option<int>) {
    && w.open.Some? && w.row.format == FORMAT && w.row.mode == Halt && w.row.generation == w.open.value.generation
    && w.row.epoch == 0
    && (expected.Some? ==> expected.value >= 0 && w.open.value.generation == expected.value)
    && exists a :: a in w.acks && Qualifies(a, w.open.value)
  }

  // ---- Runs ----

  /** A stamp is taken from the clock before its transaction commits; one that lies in the future does not exist. */
  function Effect(w: World, e: Event): World {
    match e
    case Update(b) =>
      var row := Run1(Some(w.row), b).0.GetOr(w.row);
      w.(row := row, leftAt := LeftAt(w, row))
    case HaltAndOpen(id, expected, stamp) => if stamp > w.now then w else CommitHalt(w, id, expected, stamp).0
    case StartProcess(pid) =>
      if pid in w.processes then w else w.(processes := w.processes[pid := Process(w.now, INITIAL, map[])])
    case BeginRefresh(pid, thread, fails) =>
      if pid !in w.processes then w
      else
        var p := w.processes[pid];
        var read := if fails then ReadFailed(true) else ReadRow(Some(w.row));
        w.(processes := w.processes[pid := p.(pending := p.pending[thread := Pending(read, w.now)])])
    case EndRefresh(pid, thread) =>
      if pid !in w.processes || thread !in w.processes[pid].pending then w
      else
        var p := w.processes[pid];
        w.(processes := w.processes[pid :=
             p.(snapshot := Refresh(p.snapshot, p.pending[thread].read), pending := p.pending - {thread})])
    case Acknowledge(pid) => AcknowledgeIfQuiescing(w, pid)
    case ConsumeSession => w.(open := None)
  }

  function Step(w: World, e: Event): World { Effect(w, e).(now := w.now + 1) }

  const START := World(0, SEED, map[], None, {}, {}, None)

  function Run(w: World, events: seq<Event>): World
    decreases |events|
  {
    if events == [] then w else Step(Run(w, events[..|events| - 1]), events[|events| - 1])
  }

  // ---- The invariant ----

  /** A read of a row that was there: the legacy row exactly if it was made before legacy mode was left. */
  predicate ReadOk(q: Pending, leftAt: Option<int>) {
    q.read.ReadRow? ==>
      && q.read.row.Some? && RowOk(q.read.row.value)
      && (q.read.row.value.mode == Legacy <==> leftAt.None? || q.since < leftAt.value)
  }

  predicate ProcessOk(p: Process, now: int, leftAt: Option<int>) {
    && p.startedAt < now
    && (forall t :: t in p.pending ==> p.startedAt < p.pending[t].since < now && ReadOk(p.pending[t], leftAt))
    && (p.snapshot.enforced != Legacy ==> leftAt.Some? && p.snapshot.initialized)
    && (p.snapshot.latched ==> leftAt.Some?)
    && p.snapshot.enforced != UnknownMode
  }

  predicate RowTimeOk(row: Row, leftAt: Option<int>, now: int) {
    && RowOk(row) && (leftAt.Some? <==> row.mode != Legacy) && (leftAt.Some? ==> leftAt.value < now)
  }

  /** The stamp of a session is not later than the commit of its halt. */
  predicate SessionOk(open: Option<Session>, leftAt: Option<int>) {
    open.Some? ==> leftAt.Some? && open.value.haltedAt <= leftAt.value
  }

  predicate AckOk(a: Ack, processes: map<Pid, Process>, leftAt: Option<int>) {
    && leftAt.Some? && a.boot in processes && processes[a.boot].startedAt == a.startedAt
  }

  ghost predicate Inv(w: World) {
    && RowTimeOk(w.row, w.leftAt, w.now) && SessionOk(w.open, w.leftAt)
    && (forall pid :: pid in w.processes ==> ProcessOk(w.processes[pid], w.now, w.leftAt))
    && (forall a :: a in w.acks ==> AckOk(a, w.processes, w.leftAt))
  }

  lemma EndRefreshKeepsProcess(p: Process, t: Thread, now: int, leftAt: Option<int>)
    requires ProcessOk(p, now, leftAt) && t in p.pending
    ensures ProcessOk(p.(snapshot := Refresh(p.snapshot, p.pending[t].read), pending := p.pending - {t}), now, leftAt)
  {
    assert ReadOk(p.pending[t], leftAt);
  }

  /** A committed halt finds legacy mode, and leaves it. */
  lemma CommitHaltIsFirst(w: World, id: SessionId, expected: int, stamp: int)
    requires Inv(w) && stamp <= w.now
    ensures var t := CommitHalt(w, id, expected, stamp);
            && RowTimeOk(t.0.row, t.0.leftAt, w.now + 1) && SessionOk(t.0.open, t.0.leftAt)
            && t.0.processes == w.processes && t.0.acks == w.acks
            && (t.1 == Applied ==> w.leftAt.None? && t.0.leftAt == Some(w.now))
            && (t.1 != Applied ==> t.0 == w)
  {
    Run1Keeps(w.row, RequestHalt(expected));
  }

  lemma ProcessKeptByUpdate(p: Process, now: int, leftAt: Option<int>)
    requires ProcessOk(p, now, leftAt)
    ensures ProcessOk(p, now + 1, leftAt)
    ensures leftAt.None? ==> ProcessOk(p, now + 1, Some(now))
  {
  }

  lemma UpdateKeeps(w: World, e: Event)
    requires Inv(w) && (e.Update? || e.HaltAndOpen?)
    ensures Inv(Step(w, e))
  {
    if e.Update? {
      Run1Keeps(w.row, e.brick);
      Run1Later(w.row, e.brick);
    } else if e.stamp <= w.now {
      CommitHaltIsFirst(w, e.session, e.expected, e.stamp);
    }
    hide Run1, CommitHalt, ProcessOk, RowOk;
    var t := Step(w, e);
    forall pid | pid in t.processes ensures ProcessOk(t.processes[pid], t.now, t.leftAt) {
      ProcessKeptByUpdate(w.processes[pid], w.now, w.leftAt);
    }
  }

  lemma RefreshEventsKeep(w: World, e: Event)
    requires Inv(w) && (e.BeginRefresh? || e.EndRefresh?)
    ensures Inv(Step(w, e))
  {
    if e.EndRefresh? && e.pid in w.processes && e.thread in w.processes[e.pid].pending {
      EndRefreshKeepsProcess(w.processes[e.pid], e.thread, w.now, w.leftAt);
    }
    hide Refresh;
    var t := Step(w, e);
    forall pid | pid in t.processes ensures ProcessOk(t.processes[pid], t.now, t.leftAt) {
      assert ProcessOk(w.processes[pid], w.now, w.leftAt);
    }
    forall a | a in t.acks ensures AckOk(a, t.processes, t.leftAt) {
      assert AckOk(a, w.processes, w.leftAt);
    }
  }

  lemma AcknowledgeKeeps(w: World, pid: Pid)
    requires Inv(w)
    ensures Inv(Step(w, Acknowledge(pid)))
  {
    hide RowOk;
  }

  lemma StepKeeps(w: World, e: Event)
    requires Inv(w)
    ensures Inv(Step(w, e))
  {
    match e {
      case Update(_) => UpdateKeeps(w, e);
      case HaltAndOpen(_, _, _) => UpdateKeeps(w, e);
      case StartProcess(pid) =>
      case BeginRefresh(_, _, _) => RefreshEventsKeep(w, e);
      case EndRefresh(_, _) => RefreshEventsKeep(w, e);
      case Acknowledge(pid) => AcknowledgeKeeps(w, pid);
      case ConsumeSession =>
    }
  }

  lemma {:induction false} RunKeeps(events: seq<Event>)
    ensures Inv(Run(START, events))
    decreases |events|
  {
    hide Inv, Step;
    if events == [] {
      StartOk();
    } else {
      RunKeeps(events[..|events| - 1]);
      StepKeeps(Run(START, events[..|events| - 1]), events[|events| - 1]);
    }
  }

  lemma StartOk()
    ensures Inv(START)
  {
  }

  lemma RunUnfolds(w: World, events: seq<Event>)
    requires events != []
    ensures Run(w, events) == Step(Run(w, events[..|events| - 1]), events[|events| - 1])
  {
  }

  lemma RunSnoc(w: World, events: seq<Event>, e: Event)
    ensures Run(w, events + [e]) == Step(Run(w, events), e)
  {
    assert (events + [e])[..|events|] == events;
  }

  lemma {:induction false} RunSplits(w: World, before: seq<Event>, after: seq<Event>)
    ensures Run(w, before + after) == Run(Run(w, before), after)
    decreases |after|
  {
    if after == [] {
      assert before + after == before;
    } else {
      assert (before + after)[..|before + after| - 1] == before + after[..|after| - 1];
      RunSplits(w, before, after[..|after| - 1]);
    }
  }

  // ---- What a halt, an acknowledgement and a drain need ----

  /** In every run a halt is committed, together with its session, exactly if the row is the legacy row that it expects,
      no session is open, its name is new and its stamp is not from the future; otherwise nothing happens. */
  lemma HaltsExactlyWhen(events: seq<Event>, id: SessionId, expected: int, stamp: int)
    ensures var w := Run(START, events);
            var t := Step(w, HaltAndOpen(id, expected, stamp));
            if stamp <= w.now && w.row.mode == Legacy && w.row.generation == expected && w.open.None?
               && id !in w.usedSessions
            then t == w.(row := w.row.(mode := Halt, generation := expected + 1), leftAt := Some(w.now),
                         open := Some(Session(id, expected + 1, stamp)), usedSessions := w.usedSessions + {id},
                         now := w.now + 1)
            else t == w.(now := w.now + 1)
  {
    RunKeeps(events);
    hide Run;
  }

  predicate HasAcked(w: World, id: SessionId, pid: Pid) { exists a :: a in w.acks && a.session == id && a.boot == pid }

  /** In every run a process acknowledges exactly if a session is open, the row still asks for the halt, the process
      enforces it and has seen its generation, it started after the stamp, and it has not acknowledged before. */
  lemma AcksExactlyWhen(events: seq<Event>, pid: Pid)
    ensures var w := Run(START, events);
            var t := Step(w, Acknowledge(pid));
            if pid in w.processes && w.open.Some? && w.row.mode == Halt && w.processes[pid].snapshot.enforced == Halt
               && w.processes[pid].snapshot.generation >= w.open.value.generation
               && w.processes[pid].startedAt > w.open.value.haltedAt && !HasAcked(w, w.open.value.id, pid)
            then t == w.(now := w.now + 1,
                         acks := w.acks + {Ack(w.open.value.id, pid, w.processes[pid].startedAt,
                                               w.processes[pid].snapshot.generation, Halt)})
            else t == w.(now := w.now + 1)
  {
    RunKeeps(events);
    RunSessions(events);
    hide Run;
  }

  /** The name of a session is used once; an acknowledgement of the open session qualifies for it. */
  ghost predicate SessionsOk(w: World) {
    && (w.open.Some? ==> w.open.value.id in w.usedSessions && w.open.value.generation > 0)
    && (forall a :: a in w.acks ==> a.session in w.usedSessions && a.action == Halt)
    && (forall a :: a in w.acks && w.open.Some? && a.session == w.open.value.id ==> Qualifies(a, w.open.value))
  }

  lemma {:induction false} RunSessions(events: seq<Event>)
    ensures SessionsOk(Run(START, events))
    decreases |events|
  {
    if events != [] {
      var before := events[..|events| - 1];
      RunSessions(before);
      RunKeeps(before);
      hide Run;
      SessionsStep(Run(START, before), events[|events| - 1]);
      RunUnfolds(START, events);
    }
  }

  lemma SessionsStep(w: World, e: Event)
    requires Inv(w) && SessionsOk(w)
    ensures SessionsOk(Step(w, e))
  {
    hide Refresh, RowOk, ProcessOk;
  }

  /** In every run a drain is confirmed exactly if the row still is the halted row of the open session and anyone at all
      has acknowledged that session. */
  lemma DrainedExactlyWhen(events: seq<Event>, expected: Option<int>)
    ensures var w := Run(START, events);
            Drained(w, expected)
            <==> && w.open.Some? && w.row.mode == Halt && w.row.epoch == 0
                 && w.row.generation == w.open.value.generation
                 && (expected.Some? ==> expected.value == w.row.generation)
                 && exists a :: a in w.acks && a.session == w.open.value.id
  {
    RunKeeps(events);
    RunSessions(events);
    hide Run;
  }

  // ---- Any process: when it can come back ----

  /** A read begun before the halt was committed, which therefore holds the legacy row, and not yet swapped in. */
  predicate StaleRead(p: Process, leftAt: Option<int>) {
    leftAt.Some? && exists t :: t in p.pending && p.pending[t].read.ReadRow? && p.pending[t].since < leftAt.value
  }

  predicate CanReturn(p: Process, leftAt: Option<int>) { !p.snapshot.latched && StaleRead(p, leftAt) }

  predicate Away(p: Process, leftAt: Option<int>) { p.snapshot.enforced != Legacy && !CanReturn(p, leftAt) }

  predicate Enforces(w: World, pid: Pid, mode: Mode) {
    pid in w.processes && w.processes[pid].snapshot.enforced == mode
  }

  lemma SwapStaysAway(p: Process, t: Thread, now: int, leftAt: Option<int>)
    requires ProcessOk(p, now, leftAt) && Away(p, leftAt) && t in p.pending
    ensures Away(p.(snapshot := Refresh(p.snapshot, p.pending[t].read), pending := p.pending - {t}), leftAt)
  {
    assert ReadOk(p.pending[t], leftAt);
  }

  lemma ReadStaysAway(p: Process, t: Thread, q: Pending, leftAt: Option<int>)
    requires Away(p, leftAt) && leftAt.Some? && leftAt.value < q.since
    ensures Away(p.(pending := p.pending[t := q]), leftAt)
  {
  }

  lemma LeftAtStays(w: World, e: Event)
    requires Inv(w) && w.leftAt.Some?
    ensures Step(w, e).leftAt == w.leftAt
  {
    if e.HaltAndOpen? && e.stamp <= w.now {
      CommitHaltIsFirst(w, e.session, e.expected, e.stamp);
    }
    hide Run1;
  }

  lemma StaysAway(w: World, e: Event, pid: Pid)
    requires Inv(w) && pid in w.processes && Away(w.processes[pid], w.leftAt)
    ensures pid in Step(w, e).processes && Away(Step(w, e).processes[pid], Step(w, e).leftAt)
  {
    var p := w.processes[pid];
    assert ProcessOk(p, w.now, w.leftAt);
    LeftAtStays(w, e);
    if e.EndRefresh? && e.pid == pid && e.thread in p.pending {
      SwapStaysAway(p, e.thread, w.now, w.leftAt);
    } else if e.BeginRefresh? && e.pid == pid {
      var read := if e.fails then ReadFailed(true) else ReadRow(Some(w.row));
      ReadStaysAway(p, e.thread, Pending(read, w.now), w.leftAt);
    }
    hide Away, ProcessOk, Refresh, Run1, OpenQuiesce;
  }

  lemma {:induction false} StaysAwayForGood(before: seq<Event>, after: seq<Event>, pid: Pid)
    requires var w := Run(START, before); pid in w.processes && Away(w.processes[pid], w.leftAt)
    ensures var t := Run(START, before + after); pid in t.processes && Away(t.processes[pid], t.leftAt)
    decreases |after|
  {
    if after == [] {
      assert before + after == before;
    } else {
      var init, e := after[..|after| - 1], after[|after| - 1];
      StaysAwayForGood(before, init, pid);
      RunKeeps(before + init);
      StaysAway(Run(START, before + init), e, pid);
      assert before + after == (before + init) + [e];
      hide Inv, Step, Run, Away;
      RunSnoc(START, before + init, e);
    }
  }

  /** However its refreshes overlap and fail, a process that enforces anything but legacy mode can come back to it
      exactly if it has seen no activation and still holds a read that it began before the halt was committed. */
  lemma ComesBackExactlyWhen(before: seq<Event>, pid: Pid)
    requires var w := Run(START, before); pid in w.processes && w.processes[pid].snapshot.enforced != Legacy
    ensures (exists after :: Enforces(Run(START, before + after), pid, Legacy))
            <==> CanReturn(Run(START, before).processes[pid], Run(START, before).leftAt)
  {
    var w := Run(START, before);
    var p := w.processes[pid];
    if CanReturn(p, w.leftAt) {
      var t :| t in p.pending && p.pending[t].read.ReadRow? && p.pending[t].since < w.leftAt.value;
      RunKeeps(before);
      assert ProcessOk(p, w.now, w.leftAt) && ReadOk(p.pending[t], w.leftAt);
      RunSnoc(START, before, EndRefresh(pid, t));
      assert Enforces(Run(START, before + [EndRefresh(pid, t)]), pid, Legacy);
    } else {
      forall after ensures !Enforces(Run(START, before + after), pid, Legacy) {
        StaysAwayForGood(before, after, pid);
      }
    }
  }

  // ---- One refresh of a process at a time ----

  /** Refreshes of one process do not overlap. */
  predicate Serial(events: seq<Event>) {
    forall i :: 0 <= i < |events| && events[i].BeginRefresh? ==>
      var w := Run(START, events[..i]);
      events[i].pid in w.processes ==> w.processes[events[i].pid].pending == map[]
  }

  /** Whoever has left legacy mode holds no read from before. */
  predicate NothingStale(p: Process, leftAt: Option<int>) { p.snapshot.enforced != Legacy ==> Away(p, leftAt) }

  predicate AtMostOne(p: Process) { forall t, u :: t in p.pending && u in p.pending ==> t == u }

  ghost predicate SerialInv(w: World) {
    && (forall pid :: pid in w.processes ==> NothingStale(w.processes[pid], w.leftAt) && AtMostOne(w.processes[pid]))
    && (forall a :: a in w.acks ==> a.boot in w.processes && w.processes[a.boot].snapshot.enforced != Legacy)
  }

  lemma SerialProcess(w: World, e: Event, pid: Pid)
    requires Inv(w) && pid in w.processes && NothingStale(w.processes[pid], w.leftAt) && AtMostOne(w.processes[pid])
    requires e.BeginRefresh? && e.pid in w.processes ==> w.processes[e.pid].pending == map[]
    ensures pid in Step(w, e).processes
    ensures var p, q := w.processes[pid], Step(w, e).processes[pid];
            && NothingStale(q, Step(w, e).leftAt) && AtMostOne(q)
            && (p.snapshot.enforced != Legacy ==> q.snapshot.enforced != Legacy)
  {
    var p := w.processes[pid];
    assert ProcessOk(p, w.now, w.leftAt);
    if p.snapshot.enforced != Legacy {
      StaysAway(w, e, pid);
    } else if e.EndRefresh? && e.pid == pid && e.thread in p.pending {
      assert p.pending - {e.thread} == map[];
    }
    hide Run1, OpenQuiesce;
  }

  lemma FreshProcess(now: int, leftAt: Option<int>)
    ensures NothingStale(Process(now, INITIAL, map[]), leftAt) && AtMostOne(Process(now, INITIAL, map[]))
  {
  }

  lemma SerialStep(w: World, e: Event)
    requires Inv(w) && SerialInv(w)
    requires e.BeginRefresh? && e.pid in w.processes ==> w.processes[e.pid].pending == map[]
    ensures SerialInv(Step(w, e))
    ensures forall pid :: pid in w.processes ==>
              pid in Step(w, e).processes
              && (w.processes[pid].snapshot.enforced != Legacy ==>
                    Step(w, e).processes[pid].snapshot.enforced != Legacy)
  {
    var t := Step(w, e);
    forall pid | pid in w.processes
      ensures pid in t.processes && NothingStale(t.processes[pid], t.leftAt) && AtMostOne(t.processes[pid])
      ensures w.processes[pid].snapshot.enforced != Legacy ==> t.processes[pid].snapshot.enforced != Legacy
    {
      SerialProcess(w, e, pid);
    }
    FreshProcess(w.now, t.leftAt);
    hide Inv, Refresh, Run1, NothingStale, AtMostOne;
  }

  lemma SerialPrefix(events: seq<Event>, n: nat)
    requires Serial(events) && n <= |events|
    ensures Serial(events[..n])
  {
    var before := events[..n];
    forall i | 0 <= i < |before| && before[i].BeginRefresh?
      ensures var w := Run(START, before[..i]);
              before[i].pid in w.processes ==> w.processes[before[i].pid].pending == map[]
    {
      assert before[..i] == events[..i];
    }
  }

  lemma {:induction false} SerialRun(events: seq<Event>)
    requires Serial(events)
    ensures SerialInv(Run(START, events))
    decreases |events|
  {
    if events != [] {
      var before := events[..|events| - 1];
      SerialPrefix(events, |events| - 1);
      SerialRun(before);
      RunKeeps(before);
      hide Inv, SerialInv, Step, Run;
      SerialStep(Run(START, before), events[|events| - 1]);
      RunUnfolds(START, events);
    }
  }

  /** As long as refreshes of a process do not overlap, a process that has ever enforced anything but legacy mode never
      enforces legacy mode again, through any failed reads. */
  lemma {:induction false} NeverBackToLegacy(events: seq<Event>, i: nat, pid: Pid)
    requires Serial(events) && i <= |events|
    requires var w := Run(START, events[..i]); pid in w.processes && w.processes[pid].snapshot.enforced != Legacy
    ensures var t := Run(START, events); pid in t.processes && t.processes[pid].snapshot.enforced != Legacy
    decreases |events|
  {
    if i == |events| {
      assert events[..i] == events;
    } else {
      var before := events[..|events| - 1];
      assert before[..i] == events[..i];
      SerialPrefix(events, |events| - 1);
      NeverBackToLegacy(before, i, pid);
      SerialRun(before);
      RunKeeps(before);
      hide Inv, SerialInv, Step, Run;
      SerialStep(Run(START, before), events[|events| - 1]);
      RunUnfolds(START, events);
    }
  }

  // ---- What a confirmed drain means ----

  /** With refreshes of a process one at a time, a confirmed drain names a process that has left legacy mode, and
      neither it nor any other that has acknowledged the halt enforces legacy mode then or at any later time. */
  lemma DrainedNeverReturnsToLegacy(before: seq<Event>, after: seq<Event>, expected: Option<int>)
    requires Serial(before + after) && Drained(Run(START, before), expected)
    ensures var w, t := Run(START, before), Run(START, before + after);
            && (exists a :: a in w.acks && Qualifies(a, w.open.value))
            && forall a :: a in w.acks ==> a.boot in t.processes && t.processes[a.boot].snapshot.enforced != Legacy
  {
    var w, t := Run(START, before), Run(START, before + after);
    assert (before + after)[..|before|] == before;
    SerialPrefix(before + after, |before|);
    SerialRun(before);
    forall a | a in w.acks ensures a.boot in t.processes && t.processes[a.boot].snapshot.enforced != Legacy {
      NeverBackToLegacy(before + after, |before|, a.boot);
    }
  }

  /** Whether the drain lasts in every continuation, overlapping refreshes included, can be read off the processes that
      have acknowledged: none may enforce legacy mode already, nor be able to come back to it. */
  lemma DrainLastsExactlyWhen(before: seq<Event>)
    ensures var w := Run(START, before);
            (forall a, after :: a in w.acks ==> !Enforces(Run(START, before + after), a.boot, Legacy))
            <==> (forall a :: a in w.acks ==> a.boot in w.processes && Away(w.processes[a.boot], w.leftAt))
  {
    var w := Run(START, before);
    RunKeeps(before);
    forall a | a in w.acks
      ensures a.boot in w.processes
      ensures (exists after :: Enforces(Run(START, before + after), a.boot, Legacy))
              <==> !Away(w.processes[a.boot], w.leftAt)
    {
      assert AckOk(a, w.processes, w.leftAt);
      if w.processes[a.boot].snapshot.enforced == Legacy {
        assert before + [] == before;
        assert Enforces(Run(START, before + []), a.boot, Legacy);
      } else {
        ComesBackExactlyWhen(before, a.boot);
      }
    }
  }

  ghost predicate LateAcksAway(w: World) {
    forall a :: a in w.acks && w.leftAt.Some? && a.startedAt > w.leftAt.value ==>
                  a.boot in w.processes && Away(w.processes[a.boot], w.leftAt)
  }

  lemma NoReadFromBefore(p: Process, now: int, leftAt: Option<int>)
    requires ProcessOk(p, now, leftAt) && leftAt.Some? && p.startedAt > leftAt.value
    ensures !StaleRead(p, leftAt)
  {
  }

  lemma LateAcksStep(w: World, e: Event)
    requires Inv(w) && LateAcksAway(w)
    ensures LateAcksAway(Step(w, e))
  {
    var t := Step(w, e);
    forall a | a in t.acks && t.leftAt.Some? && a.startedAt > t.leftAt.value
      ensures a.boot in t.processes && Away(t.processes[a.boot], t.leftAt)
    {
      if a in w.acks {
        assert AckOk(a, w.processes, w.leftAt);
        LeftAtStays(w, e);
        StaysAway(w, e, a.boot);
      } else {
        assert ProcessOk(w.processes[a.boot], w.now, w.leftAt);
        NoReadFromBefore(w.processes[a.boot], w.now, w.leftAt);
      }
    }
  }

  /** A process that started after the halt was committed, not only after it was stamped, never enforces legacy mode
      once it has acknowledged, with refreshes of its threads overlapping and failing in any way. */
  lemma {:induction false} StartedAfterTheCommit(events: seq<Event>)
    ensures LateAcksAway(Run(START, events))
    decreases |events|
  {
    if events != [] {
      var before := events[..|events| - 1];
      StartedAfterTheCommit(before);
      RunKeeps(before);
      hide Inv, LateAcksAway, Step, Run;
      LateAcksStep(Run(START, before), events[|events| - 1]);
      RunUnfolds(START, events);
    }
  }

  // ---- Overlapping refreshes ----

  const OVERLAP := [StartProcess(0), StartProcess(1), BeginRefresh(1, 1, false), HaltAndOpen(7, 0, 0),
                    BeginRefresh(1, 2, false), EndRefresh(1, 2), Acknowledge(1)]

  const HALTED_ROW := Row(FORMAT, Halt, 0, 1, PROTOCOL_SEED, SCHEMA_SEED)
  const STALE := map[1 := Pending(ReadRow(Some(SEED)), 2)]
  const BYSTANDER := Process(0, INITIAL, map[])
  const HALTED_PROCESS := Process(1, Snapshot(Halt, false, Halt, 1, true), STALE)

  const READ_BEFORE := World(3, SEED, map[0 := BYSTANDER, 1 := Process(1, INITIAL, STALE)], None, {}, {}, None)
  const COMMITTED := World(4, HALTED_ROW, map[0 := BYSTANDER, 1 := Process(1, INITIAL, STALE)], Some(Session(7, 1, 0)),
                           {7}, {}, Some(3))
  const OVERTAKEN :=
    World(6, HALTED_ROW, map[0 := BYSTANDER, 1 := HALTED_PROCESS], Some(Session(7, 1, 0)), {7}, {}, Some(3))

  lemma ReadsBefore()
    ensures Step(Step(Step(START, OVERLAP[0]), OVERLAP[1]), OVERLAP[2]) == READ_BEFORE
  {
  }

  lemma Commits()
    ensures Step(READ_BEFORE, OVERLAP[3]) == COMMITTED
  {
  }

  lemma Overtakes()
    ensures Step(Step(COMMITTED, OVERLAP[4]), OVERLAP[5]) == OVERTAKEN
  {
    var both := STALE[2 := Pending(ReadRow(Some(HALTED_ROW)), 4)];
    assert Step(COMMITTED, OVERLAP[4])
        == COMMITTED.(now := 5, processes := map[0 := BYSTANDER, 1 := Process(1, INITIAL, both)]);
    assert both - {2} == STALE;
  }

  lemma Acknowledges()
    ensures Step(OVERTAKEN, OVERLAP[6]) == OVERTAKEN.(now := 7, acks := {Ack(7, 1, 1, 1, Halt)})
  {
  }

  /** Process 1 starts between the stamp of the halt and its commit and reads the legacy row; once the halt is committed
      a second refresh of it overtakes the first. It acknowledges, and the drain is confirmed. */
  lemma OverlapIsDrained()
    ensures Run(START, OVERLAP) == OVERTAKEN.(now := 7, acks := {Ack(7, 1, 1, 1, Halt)})
    ensures Drained(Run(START, OVERLAP), Some(1))
  {
    hide Run, Step;
    var e1, e2, e3, e4 := OVERLAP[0], OVERLAP[1], OVERLAP[2], OVERLAP[3];
    var e5, e6, e7 := OVERLAP[4], OVERLAP[5], OVERLAP[6];
    RunNothing(START);
    RunSnoc(START, [], e1);
    RunSnoc(START, [e1], e2);
    RunSnoc(START, [e1, e2], e3);
    RunSnoc(START, [e1, e2, e3], e4);
    RunSnoc(START, [e1, e2, e3, e4], e5);
    RunSnoc(START, [e1, e2, e3, e4, e5], e6);
    RunSnoc(START, [e1, e2, e3, e4, e5, e6], e7);
    assert [] + [e1] == [e1] && [e1] + [e2] == [e1, e2] && [e1, e2] + [e3] == [e1, e2, e3];
    assert [e1, e2, e3] + [e4] == [e1, e2, e3, e4] && [e1, e2, e3, e4] + [e5] == [e1, e2, e3, e4, e5];
    assert [e1, e2, e3, e4, e5] + [e6] == [e1, e2, e3, e4, e5, e6] && [e1, e2, e3, e4, e5, e6] + [e7] == OVERLAP;
    ReadsBefore();
    Commits();
    Overtakes();
    Acknowledges();
    assert Qualifies(Ack(7, 1, 1, 1, Halt), Session(7, 1, 0));
  }

  lemma RunNothing(w: World)
    ensures Run(w, []) == w
  {
  }

  /** Then the first refresh swaps in what it had read: the drain is still confirmed, and the only process that has
      acknowledged it enforces legacy mode. */
  lemma OverlapBringsLegacyBack()
    ensures var w, t := Run(START, OVERLAP), Run(START, OVERLAP + [EndRefresh(1, 1)]);
            && Drained(w, Some(1)) && Enforces(w, 1, Halt)
            && Drained(t, Some(1)) && (forall a :: a in t.acks ==> Enforces(t, a.boot, Legacy))
  {
    OverlapIsDrained();
    RunSnoc(START, OVERLAP, EndRefresh(1, 1));
    hide Run;
    var a := Ack(7, 1, 1, 1, Halt);
    assert Qualifies(a, Session(7, 1, 0));
    assert a in Run(START, OVERLAP + [EndRefresh(1, 1)]).acks;
  }
}
