/** The notice delivery queue (app/ibk_notice_delivery.py): producers, one consumer thread and a shutdown that may come
    at any moment. */
module NoticeDelivery {
  import opened Wrappers

  type Notice = int

  datatype Ending = SentOk | FailedFinal | AbandonedAtShutdown | DroppedAtShutdown

  /** One accepted notice that has come to its end, after so many sends. */
  datatype Entry = Entry(notice: Notice, ending: Ending, attempts: nat)

  /** Where the consumer thread stands: it has not been started, is about to look at the stop flag, waits for the queue,
      holds a notice after so many failed sends, empties the queue after the stop, or has ended. */
  datatype Phase = NotStarted | AtTop | Getting | Holding(notice: Notice, attempts: nat) | Draining | Exited

  datatype Settings = Settings(enabled: bool, capacity: nat, maxAttempts: nat)

  datatype State = State(
    queue: seq<Notice>, stop: bool, phase: Phase,
    accepted: nat, sent: nat, failedFinal: nat, abandoned: nat, dropped: nat, sendAttempts: nat, sendFailed: nat,
    rejected: nat,
    // What has happened so far; no operation reads it.
    taken: seq<Notice>, done: seq<Entry>)

  const INITIAL := State([], false, NotStarted, 0, 0, 0, 0, 0, 0, 0, 0, [], [])

  datatype SendResult = Delivered | NotDelivered

  datatype Event =
    | Sink(notice: Notice)
    | Start
    | Close
    | Look
    | Get
    | FormatRaises
    | Send(result: SendResult)
    | DrainOne

  predicate Running(s: State) { s.phase != NotStarted && s.phase != Exited && !s.stop }

  function SinkReply(c: Settings, s: State): bool { c.enabled && Running(s) && |s.queue| < c.capacity }

  function End(s: State, n: Notice, ending: Ending, attempts: nat): State {
    var t := s.(done := s.done + [Entry(n, ending, attempts)]);
    match ending
    case SentOk => t.(sent := s.sent + 1)
    case FailedFinal => t.(failedFinal := s.failedFinal + 1)
    case AbandonedAtShutdown => t.(abandoned := s.abandoned + 1)
    case DroppedAtShutdown => t.(dropped := s.dropped + 1)
  }

  /** One send, and what follows it: the notice is through, is given up because of the stop, is tried again, or has used
      up its attempts. */
  function AfterSend(c: Settings, s: State, result: SendResult): State
    requires s.phase.Holding?
  {
    var n, k := s.phase.notice, s.phase.attempts + 1;
    var tried := s.(sendAttempts := s.sendAttempts + 1);
    if result == Delivered then End(tried.(phase := AtTop), n, SentOk, k)
    else
      var failed := tried.(sendFailed := s.sendFailed + 1);
      if k >= c.maxAttempts then End(failed.(phase := AtTop), n, FailedFinal, k)
      else if s.stop then End(failed.(phase := AtTop), n, AbandonedAtShutdown, k)
      else failed.(phase := Holding(n, k))
  }

  /** Each step lies between two lock boundaries; a step that the thread concerned is not ready for changes nothing. */
  function Step(c: Settings, s: State, e: Event): State {
    match e
    case Sink(n) =>
      if SinkReply(c, s) then s.(queue := s.queue + [n], accepted := s.accepted + 1, taken := s.taken + [n])
      else s.(rejected := s.rejected + 1)
    case Start => if s.phase == NotStarted then s.(stop := false, phase := AtTop) else s
    case Close => s.(stop := true)
    case Look => if s.phase == AtTop then s.(phase := if s.stop then Draining else Getting) else s
    case Get =>
      if s.phase != Getting then s
      else if s.queue == [] then s.(phase := AtTop)
      else s.(queue := s.queue[1..], phase := Holding(s.queue[0], 0))
    case FormatRaises =>
      if s.phase.Holding? && s.phase.attempts == 0 then End(s.(phase := AtTop), s.phase.notice, FailedFinal, 0) else s
    case Send(result) => if s.phase.Holding? then AfterSend(c, s, result) else s
    case DrainOne =>
      if s.phase != Draining then s
      else if s.queue == [] then s.(phase := Exited)
      else End(s.(queue := s.queue[1..]), s.queue[0], DroppedAtShutdown, 0)
  }

  function Run(c: Settings, s: State, events: seq<Event>): State
    decreases |events|
  {
    if events == [] then s else Step(c, Run(c, s, events[..|events| - 1]), events[|events| - 1])
  }

  // ---- How a delivery ends ----

  /** The stop is set by the end of the first `n` sends. */
  predicate StoppedBy(before: bool, stops: nat -> bool, n: nat) { before || exists i: nat :: i < n && stops(i) }

  /** The first `n` sends failed, and none of them was followed by a stop. */
  predicate TriedInVain(n: nat, results: nat -> SendResult, stops: nat -> bool, stopped: bool) {
    && (forall i: nat :: i < n ==> results(i) == NotDelivered)
    && (n > 0 ==> !StoppedBy(stopped, stops, n))
  }

  /** A notice ends at its first successful send; at its last attempt; or at the first failed one that finds a stop. */
  predicate EndsAs(entry: Entry, notice: Notice, c: Settings, results: nat -> SendResult, stops: nat -> bool,
                   stopped: bool)
  {
    && entry.notice == notice && 1 <= entry.attempts <= c.maxAttempts
    && TriedInVain(entry.attempts - 1, results, stops, stopped)
    && (entry.ending == SentOk <==> results(entry.attempts - 1) == Delivered)
    && (entry.ending == FailedFinal <==> results(entry.attempts - 1) == NotDelivered && entry.attempts == c.maxAttempts)
    && (entry.ending == AbandonedAtShutdown <==>
          results(entry.attempts - 1) == NotDelivered && entry.attempts < c.maxAttempts
          && StoppedBy(stopped, stops, entry.attempts))
    && entry.ending != DroppedAtShutdown
  }

  lemma EndsHere(entry: Entry, notice: Notice, c: Settings, results: nat -> SendResult, stops: nat -> bool,
                 stopped: bool)
    requires 1 <= entry.attempts <= c.maxAttempts && TriedInVain(entry.attempts - 1, results, stops, stopped)
    requires var failed := results(entry.attempts - 1) == NotDelivered;
             var now := StoppedBy(stopped, stops, entry.attempts);
             && (failed ==> entry.attempts == c.maxAttempts || now)
             && entry == Entry(notice, if !failed then SentOk
                                       else if entry.attempts >= c.maxAttempts then FailedFinal
                                       else AbandonedAtShutdown, entry.attempts)
    ensures EndsAs(entry, notice, c, results, stops, stopped)
  {
    hide StoppedBy, TriedInVain;
  }

  // ---- The queue and its lock ----

  class IbkNoticeDelivery {
    const settings: Settings
    var state: State

    constructor (settings: Settings)
      ensures this.settings == settings && state == INITIAL
    {
      this.settings := settings;
      state := INITIAL;
    }

    /** The producers' side: taken only while the consumer runs, the stop is not set and there is room. */
    method EventSink(n: Notice) returns (taken: bool)
      modifies this`state
      ensures taken == SinkReply(settings, old(state)) && state == Step(settings, old(state), Sink(n))
    {
      taken := false;
      if settings.enabled && state.phase != NotStarted && state.phase != Exited && !state.stop
         && |state.queue| < settings.capacity {
        state := state.(queue := state.queue + [n], accepted := state.accepted + 1, taken := state.taken + [n]);
        taken := true;
      } else {
        state := state.(rejected := state.rejected + 1);
      }
    }

    method CloseDown()
      modifies this`state
      ensures state == Step(settings, old(state), Close)
    {
      state := state.(stop := true);
    }

    /** One turn of the consumer's delivery, from the notice in hand to its end. The stop may be set already, and
        another thread may set it during each send: `stops(i)` says whether it does so during the send that follows `i`
        others. */
    method Deliver(results: nat -> SendResult, stops: nat -> bool)
      requires state.phase.Holding? && state.phase.attempts == 0 && settings.maxAttempts >= 1
      modifies this`state
      ensures state.phase == AtTop && state.queue == old(state.queue)
      ensures |state.done| == |old(state).done| + 1 && state.done[..|old(state).done|] == old(state).done
      ensures EndsAs(state.done[|old(state).done|], old(state).phase.notice, settings, results, stops, old(state.stop))
      ensures state.stop == StoppedBy(old(state.stop), stops, state.done[|old(state).done|].attempts)
    {
      hide EndsAs;
      ghost var before := state;
      while state.phase.Holding?
        invariant state.queue == before.queue
        invariant state.phase.Holding? ==>
                    && state.phase.notice == before.phase.notice && state.phase.attempts < settings.maxAttempts
                    && state.done == before.done && state.stop == StoppedBy(before.stop, stops, state.phase.attempts)
                    && TriedInVain(state.phase.attempts, results, stops, before.stop)
        invariant !state.phase.Holding? ==>
                    && state.phase == AtTop && |state.done| == |before.done| + 1
                    && state.done[..|before.done|] == before.done
                    && EndsAs(state.done[|before.done|], before.phase.notice, settings, results, stops, before.stop)
                    && state.stop == StoppedBy(before.stop, stops, state.done[|before.done|].attempts)
        decreases if state.phase.Holding? then settings.maxAttempts - state.phase.attempts else 0
      {
        var i := state.phase.attempts;
        if stops(i) {
          state := state.(stop := true);
        }
        assert state.stop == StoppedBy(before.stop, stops, i + 1);
        state := AfterSend(settings, state, results(i));
        if !state.phase.Holding? {
          hide StoppedBy, TriedInVain;
          EndsHere(state.done[|before.done|], before.phase.notice, settings, results, stops, before.stop);
        }
      }
    }
  }

  // ---- The invariant ----

  function NoticesOf(done: seq<Entry>): (ns: seq<Notice>)
    ensures |ns| == |done| && forall i :: 0 <= i < |done| ==> ns[i] == done[i].notice
  {
    seq(|done|, i requires 0 <= i < |done| => done[i].notice)
  }

  function InHand(p: Phase): seq<Notice> { if p.Holding? then [p.notice] else [] }

  function Attempts(done: seq<Entry>): nat
    decreases |done|
  {
    if done == [] then 0 else Attempts(done[..|done| - 1]) + done[|done| - 1].attempts
  }

  function CountOf(done: seq<Entry>, ending: Ending): nat
    decreases |done|
  {
    if done == [] then 0
    else CountOf(done[..|done| - 1], ending) + if done[|done| - 1].ending == ending then 1 else 0
  }

  predicate CountsOk(s: State) {
    && s.sent == CountOf(s.done, SentOk) && s.failedFinal == CountOf(s.done, FailedFinal)
    && s.abandoned == CountOf(s.done, AbandonedAtShutdown) && s.dropped == CountOf(s.done, DroppedAtShutdown)
  }

  /** Notices come to their end in the order in which they were accepted. */
  predicate InOrder(s: State) { s.taken == NoticesOf(s.done) + InHand(s.phase) + s.queue }

  predicate AttemptsOk(c: Settings, s: State) {
    && (forall i :: 0 <= i < |s.done| ==> s.done[i].attempts <= c.maxAttempts)
    && (s.phase.Holding? ==> s.phase.attempts < c.maxAttempts)
    && s.sendAttempts == Attempts(s.done) + (if s.phase.Holding? then s.phase.attempts else 0)
  }

  predicate StopOk(s: State) {
    && (s.phase == Draining || s.phase == Exited ==> s.stop)
    && (s.phase == Exited ==> s.queue == [])
    && (s.phase == NotStarted ==> s.queue == [])
  }

  predicate Inv(c: Settings, s: State) {
    InOrder(s) && CountsOk(s) && AttemptsOk(c, s) && StopOk(s) && s.accepted == |s.taken| && |s.queue| <= c.capacity
  }

  lemma EndAppends(done: seq<Entry>, e: Entry)
    ensures NoticesOf(done + [e]) == NoticesOf(done) + [e.notice]
    ensures Attempts(done + [e]) == Attempts(done) + e.attempts
    ensures forall x: Ending :: CountOf(done + [e], x) == CountOf(done, x) + if e.ending == x then 1 else 0
  {
    assert (done + [e])[..|done|] == done;
  }

  /** The notice in hand comes to its end after `k` sends, all of them counted. */
  lemma FinishKeeps(c: Settings, s: State, ending: Ending, k: nat)
    requires s.phase.Holding? && InOrder(s) && CountsOk(s) && StopOk(s) && s.accepted == |s.taken|
    requires |s.queue| <= c.capacity && k <= c.maxAttempts
    requires forall i :: 0 <= i < |s.done| ==> s.done[i].attempts <= c.maxAttempts
    requires s.sendAttempts == Attempts(s.done) + k
    ensures Inv(c, End(s.(phase := AtTop), s.phase.notice, ending, k))
  {
    hide CountOf, Attempts;
    EndAppends(s.done, Entry(s.phase.notice, ending, k));
    FinishInOrder(s, ending, k);
  }

  lemma FinishInOrder(s: State, ending: Ending, k: nat)
    requires s.phase.Holding? && InOrder(s)
    ensures InOrder(End(s.(phase := AtTop), s.phase.notice, ending, k))
  {
    EndAppends(s.done, Entry(s.phase.notice, ending, k));
    var n := s.phase.notice;
    assert NoticesOf(s.done) + [n] + s.queue == (NoticesOf(s.done) + [n]) + [] + s.queue;
  }

  lemma SendKeeps(c: Settings, s: State, result: SendResult)
    requires Inv(c, s) && s.phase.Holding?
    ensures Inv(c, AfterSend(c, s, result))
  {
    hide CountOf, Attempts, NoticesOf, End;
    var k := s.phase.attempts + 1;
    var tried := s.(sendAttempts := s.sendAttempts + 1);
    var failed := tried.(sendFailed := s.sendFailed + 1);
    FinishKeeps(c, tried, SentOk, k);
    FinishKeeps(c, failed, FailedFinal, k);
    FinishKeeps(c, failed, AbandonedAtShutdown, k);
  }

  lemma GetKeeps(c: Settings, s: State)
    requires Inv(c, s) && c.maxAttempts >= 1
    ensures Inv(c, Step(c, s, Get))
  {
    hide CountOf, Attempts, NoticesOf;
    assert s.queue != [] ==> s.queue == [s.queue[0]] + s.queue[1..];
  }

  lemma DrainKeeps(c: Settings, s: State)
    requires Inv(c, s)
    ensures Inv(c, Step(c, s, DrainOne))
  {
    hide CountOf, Attempts, NoticesOf;
    if s.phase == Draining && s.queue != [] {
      EndAppends(s.done, Entry(s.queue[0], DroppedAtShutdown, 0));
      DropInOrder(s);
      hide InOrder;
    }
  }

  lemma DropInOrder(s: State)
    requires InOrder(s) && s.phase == Draining && s.queue != []
    ensures InOrder(End(s.(queue := s.queue[1..]), s.queue[0], DroppedAtShutdown, 0))
  {
    EndAppends(s.done, Entry(s.queue[0], DroppedAtShutdown, 0));
    assert s.queue == [s.queue[0]] + s.queue[1..];
  }

  lemma FormatKeeps(c: Settings, s: State)
    requires Inv(c, s)
    ensures Inv(c, Step(c, s, FormatRaises))
  {
    hide CountOf, Attempts, NoticesOf, End;
    if s.phase.Holding? && s.phase.attempts == 0 {
      FinishKeeps(c, s, FailedFinal, 0);
    }
  }

  lemma SimpleKeeps(c: Settings, s: State, e: Event)
    requires Inv(c, s) && (e.Sink? || e == Start || e == Close || e == Look)
    ensures Inv(c, Step(c, s, e))
  {
    hide CountOf, Attempts, NoticesOf;
  }

  lemma StepKeeps(c: Settings, s: State, e: Event)
    requires Inv(c, s) && c.maxAttempts >= 1
    ensures Inv(c, Step(c, s, e))
  {
    hide Inv;
    match e {
      case Send(result) => if s.phase.Holding? { SendKeeps(c, s, result); }
      case FormatRaises => FormatKeeps(c, s);
      case DrainOne => DrainKeeps(c, s);
      case Get => GetKeeps(c, s);
      case Sink(n) => SimpleKeeps(c, s, e);
      case Start => SimpleKeeps(c, s, e);
      case Close => SimpleKeeps(c, s, e);
      case Look => SimpleKeeps(c, s, e);
    }
  }

  lemma {:induction false} RunKeeps(c: Settings, events: seq<Event>)
    requires c.maxAttempts >= 1
    ensures Inv(c, Run(c, INITIAL, events))
    decreases |events|
  {
    if events != [] {
      RunKeeps(c, events[..|events| - 1]);
      hide Inv, Step;
      StepKeeps(c, Run(c, INITIAL, events[..|events| - 1]), events[|events| - 1]);
    }
  }

  // ---- What holds of every run ----

  lemma {:induction false} CountsAddUp(done: seq<Entry>)
    ensures CountOf(done, SentOk) + CountOf(done, FailedFinal) + CountOf(done, AbandonedAtShutdown)
            + CountOf(done, DroppedAtShutdown) == |done|
    decreases |done|
  {
    if done != [] {
      CountsAddUp(done[..|done| - 1]);
    }
  }

  /** At every lock boundary: each accepted notice has come to exactly one end, in order, or is in hand, or is queued;
      and the counters say so. */
  lemma NoticesAreConserved(c: Settings, events: seq<Event>)
    requires c.maxAttempts >= 1
    ensures var s := Run(c, INITIAL, events);
            && s.taken == NoticesOf(s.done) + InHand(s.phase) + s.queue
            && s.accepted == s.sent + s.failedFinal + s.abandoned + s.dropped + |s.queue| + |InHand(s.phase)|
  {
    RunKeeps(c, events);
    CountsAddUp(Run(c, INITIAL, events).done);
    hide Run;
  }

  /** No notice is sent more than `maxAttempts` times, and every send belongs to a notice. */
  lemma AttemptsAreBounded(c: Settings, events: seq<Event>, i: nat)
    requires c.maxAttempts >= 1 && i < |Run(c, INITIAL, events).done|
    ensures var s := Run(c, INITIAL, events);
            && s.done[i].attempts <= c.maxAttempts
            && s.sendAttempts == Attempts(s.done) + (if s.phase.Holding? then s.phase.attempts else 0)
            && s.sendAttempts <= c.maxAttempts * s.accepted
  {
    RunKeeps(c, events);
    SendsOf(c, Run(c, INITIAL, events));
    hide Run;
  }

  lemma SendsOf(c: Settings, s: State)
    requires Inv(c, s)
    ensures s.sendAttempts <= c.maxAttempts * s.accepted
  {
    AttemptsTotal(c, s.done);
    var waiting := |InHand(s.phase)| + |s.queue|;
    assert s.accepted == |s.done| + waiting;
    hide InOrder, CountsOk;
    assert c.maxAttempts * (|s.done| + waiting) == c.maxAttempts * |s.done| + c.maxAttempts * waiting;
    assert s.phase.Holding? ==> waiting >= 1 && c.maxAttempts * waiting >= c.maxAttempts by {
      Grows(c.maxAttempts, waiting);
    }
  }

  lemma Grows(a: nat, b: nat)
    ensures b >= 1 ==> a * b >= a
  {
  }

  lemma {:induction false} AttemptsTotal(c: Settings, done: seq<Entry>)
    requires forall i :: 0 <= i < |done| ==> done[i].attempts <= c.maxAttempts
    ensures Attempts(done) <= c.maxAttempts * |done|
    decreases |done|
  {
    if done != [] {
      AttemptsTotal(c, done[..|done| - 1]);
      assert c.maxAttempts * |done| == c.maxAttempts * (|done| - 1) + c.maxAttempts;
    }
  }

  lemma {:induction false} StopStays(c: Settings, s: State, events: seq<Event>)
    requires s.stop && s.phase != NotStarted
    ensures var t := Run(c, s, events);
            t.stop && t.phase != NotStarted && t.taken == s.taken && t.accepted == s.accepted
    ensures s.phase == Exited ==> Run(c, s, events).phase == Exited && Run(c, s, events).queue == s.queue
    decreases |events|
  {
    if events != [] {
      StopStays(c, s, events[..|events| - 1]);
    }
  }

  lemma {:induction false} RunSplits(c: Settings, s: State, before: seq<Event>, after: seq<Event>)
    ensures Run(c, s, before + after) == Run(c, Run(c, s, before), after)
    decreases |after|
  {
    if after == [] {
      assert before + after == before;
    } else {
      assert (before + after)[..|before + after| - 1] == before + after[..|after| - 1];
      RunSplits(c, s, before, after[..|after| - 1]);
    }
  }

  /** Nothing is accepted once a started consumer has been told to stop; and once it has ended, the queue is empty for
      good, every accepted notice having come to its end. */
  lemma NothingAfterStop(c: Settings, before: seq<Event>, after: seq<Event>)
    requires c.maxAttempts >= 1
    requires var s := Run(c, INITIAL, before); s.stop && s.phase != NotStarted
    ensures var s, t := Run(c, INITIAL, before), Run(c, INITIAL, before + after);
            && t.accepted == s.accepted && t.taken == s.taken
            && (s.phase == Exited ==> t.phase == Exited && t.queue == [] && t.taken == NoticesOf(t.done))
  {
    RunSplits(c, INITIAL, before, after);
    StopStays(c, Run(c, INITIAL, before), after);
    RunKeeps(c, before);
    RunKeeps(c, before + after);
    hide Run;
  }

  // ---- What is counted, and what is carried through ----

  ghost function Sinks(events: seq<Event>): set<nat> { set i: nat | i < |events| && events[i].Sink? }

  lemma SinksAppend(events: seq<Event>)
    requires events != []
    ensures |Sinks(events)| == |Sinks(events[..|events| - 1])| + if events[|events| - 1].Sink? then 1 else 0
  {
    var last := |events| - 1;
    assert Sinks(events) == Sinks(events[..last]) + if events[last].Sink? then {last} else {};
  }

  /** How the counters of one step go together. */
  lemma StepCounts(c: Settings, s: State, e: Event)
    requires s.sendAttempts == s.sent + s.sendFailed
    ensures var t := Step(c, s, e);
            && t.sendAttempts == t.sent + t.sendFailed
            && t.accepted + t.rejected == s.accepted + s.rejected + if e.Sink? then 1 else 0
  {
  }

  /** In every run every notice that was offered is counted as accepted or as rejected, and every send as failed or as
      that of a notice that is through. */
  lemma {:induction false} EverythingIsCounted(c: Settings, events: seq<Event>)
    ensures var s := Run(c, INITIAL, events);
            s.accepted + s.rejected == |Sinks(events)| && s.sendAttempts == s.sent + s.sendFailed
    decreases |events|
  {
    hide Step;
    if events == [] {
      assert Sinks(events) == {};
    } else {
      EverythingIsCounted(c, events[..|events| - 1]);
      SinksAppend(events);
      hide Sinks;
      StepCounts(c, Run(c, INITIAL, events[..|events| - 1]), events[|events| - 1]);
    }
  }

  /** In every run a notice is taken exactly if the lane is enabled, the consumer has been started and has not ended, no
      stop is set and there is room; then it is the last in the queue. */
  lemma TakesExactlyWhen(c: Settings, events: seq<Event>, n: Notice)
    ensures var s := Run(c, INITIAL, events);
            var t := Step(c, s, Sink(n));
            if c.enabled && s.phase !in {NotStarted, Exited} && !s.stop && |s.queue| < c.capacity
            then t == s.(queue := s.queue + [n], taken := s.taken + [n], accepted := s.accepted + 1)
            else t == s.(rejected := s.rejected + 1)
  {
    hide Run;
  }

  /** A consumer is started exactly once, and a start takes back a stop that came before it. */
  lemma StartsOnce(c: Settings, events: seq<Event>)
    ensures var s, t := Run(c, INITIAL, events), Run(c, INITIAL, events + [Start]);
            if s.phase == NotStarted then t == s.(phase := AtTop, stop := t.stop) && Running(t) else t == s
  {
    hide Run;
    RunSnoc(c, events, Start);
  }

  /** A notice that waits for an idle consumer without a stop is through with one successful send. */
  lemma NextIsDelivered(c: Settings, events: seq<Event>)
    requires var s := Run(c, INITIAL, events); s.phase == AtTop && !s.stop && s.queue != []
    ensures var s, t := Run(c, INITIAL, events), Run(c, INITIAL, events + [Look, Get, Send(Delivered)]);
            t == s.(queue := s.queue[1..], done := s.done + [Entry(s.queue[0], SentOk, 1)], sent := s.sent + 1,
                    sendAttempts := s.sendAttempts + 1)
  {
    hide Run;
    RunSnoc(c, events, Look);
    RunSnoc(c, events + [Look], Get);
    RunSnoc(c, events + [Look] + [Get], Send(Delivered));
    assert events + [Look, Get, Send(Delivered)] == events + [Look] + [Get] + [Send(Delivered)];
  }

  lemma RunSnoc(c: Settings, events: seq<Event>, e: Event)
    ensures Run(c, INITIAL, events + [e]) == Step(c, Run(c, INITIAL, events), e)
  {
    assert (events + [e])[..|events|] == events;
  }

  function Dropped(queue: seq<Notice>): (entries: seq<Entry>)
    ensures |entries| == |queue|
  {
    seq(|queue|, i requires 0 <= i < |queue| => Entry(queue[i], DroppedAtShutdown, 0))
  }

  function Drains(n: nat): (events: seq<Event>)
    ensures |events| == n
  {
    seq(n, _ => DrainOne)
  }

  lemma {:induction false} DrainsSome(c: Settings, events: seq<Event>, n: nat)
    requires var s := Run(c, INITIAL, events); s.phase == Draining && n <= |s.queue|
    ensures var s := Run(c, INITIAL, events);
            Run(c, INITIAL, events + Drains(n))
            == s.(queue := s.queue[n..], done := s.done + Dropped(s.queue[..n]), dropped := s.dropped + n)
  {
    hide Run;
    var s := Run(c, INITIAL, events);
    if n == 0 {
      assert events + Drains(0) == events && s.done + Dropped(s.queue[..0]) == s.done;
    } else {
      DrainsSome(c, events, n - 1);
      assert events + Drains(n) == (events + Drains(n - 1)) + [DrainOne];
      RunSnoc(c, events + Drains(n - 1), DrainOne);
      assert Dropped(s.queue[..n]) == Dropped(s.queue[..n - 1]) + [Entry(s.queue[n - 1], DroppedAtShutdown, 0)];
    }
  }

  /** A consumer that finds the stop drops what is queued, in order, and ends. */
  lemma StopDrains(c: Settings, events: seq<Event>)
    requires var s := Run(c, INITIAL, events); s.phase == AtTop && s.stop
    ensures var s := Run(c, INITIAL, events);
            Run(c, INITIAL, events + [Look] + Drains(|s.queue|) + [DrainOne])
            == s.(phase := Exited, queue := [], done := s.done + Dropped(s.queue), dropped := s.dropped + |s.queue|)
  {
    hide Run;
    var s := Run(c, INITIAL, events);
    RunSnoc(c, events, Look);
    DrainsSome(c, events + [Look], |s.queue|);
    assert s.queue[..|s.queue|] == s.queue;
    RunSnoc(c, events + [Look] + Drains(|s.queue|), DrainOne);
  }
}
