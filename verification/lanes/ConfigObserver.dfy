/** The observer of collection switches (app/collection_config_observer.py): what it says about the configuration at a
    past moment, and why it does not take an affirmative answer back. */
module ConfigObservers {
  import opened Wrappers

  type Crawler = nat
  type CallId = nat
  type BaselineId = nat

  const INFLIGHT_CAP := 256
  const HISTORY_CAP := 1024
  const COMPLETED_CAP := 4096

  datatype Revision = Revision(baseline: BaselineId, crawler: Crawler, number: nat)

  /** From `at` on; without a value the configuration is unknown. */
  datatype Point = Point(at: int, known: Option<(bool, Revision)>)

  datatype Call = Call(crawler: Crawler, requested: bool, startedAt: int)

  datatype Track = Track(
    generation: nat, baseline: Option<BaselineId>, number: nat, blocked: bool, history: seq<Point>,
    truncatedBefore: Option<int>)

  const NEW_TRACK := Track(0, None, 0, true, [], None)

  datatype Baseline = Baseline(
    id: BaselineId, rows: map<Crawler, bool>, generations: map<Crawler, nat>, busy: set<Crawler>, open: bool)

  datatype State = State(
    startedAt: Option<int>, degraded: bool, degradedAt: Option<int>, tracks: map<Crawler, Track>,
    inflight: map<CallId, Call>, completed: seq<CallId>, baseline: Option<Baseline>,
    // The latest reading of the clock, the baselines ever begun, and every revision ever recorded with its value; no
    // operation reads them.
    clock: int, begun: set<BaselineId>, recorded: map<Revision, bool>)

  function Fresh(members: set<Crawler>): map<Crawler, Track> { map c | c in members :: NEW_TRACK }

  function Initial(members: set<Crawler>): State {
    State(None, false, None, Fresh(members), map[], [], None, 0, {}, map[])
  }

  // ---- Answers ----

  /** The last point at or before `t`. */
  function LastPoint(history: seq<Point>, t: int): Option<Point>
    decreases |history|
  {
    if history == [] then None
    else
      var p := history[|history| - 1];
      if p.at <= t then Some(p) else LastPoint(history[..|history| - 1], t)
  }

  function Underlying(history: seq<Point>, t: int): Option<(bool, Revision)> {
    match LastPoint(history, t)
    case None => None
    case Some(p) => p.known
  }

  predicate DegradedBy(s: State, t: int) { s.degraded && (s.degradedAt.None? || s.degradedAt.value <= t) }

  predicate Busy(s: State, c: Crawler, t: int) {
    exists id :: id in s.inflight && s.inflight[id].crawler == c && s.inflight[id].startedAt <= t
  }

  /** The configuration at `t`, or that it is unknown. */
  function ConfigAt(s: State, c: Crawler, t: int): Option<(bool, Revision)> {
    if s.startedAt.None? || t < s.startedAt.value then None
    else if DegradedBy(s, t) then None
    else if c !in s.tracks then None
    else if s.tracks[c].truncatedBefore.Some? && t < s.tracks[c].truncatedBefore.value then None
    else if Busy(s, c, t) then None
    else Underlying(s.tracks[c].history, t)
  }

  // ---- Small updates ----

  function Degrade(s: State, at: int): State {
    s.(degraded := true,
       degradedAt := if s.degradedAt.None? || at < s.degradedAt.value then Some(at) else s.degradedAt)
  }

  function Push(k: Track, p: Point): Track {
    var longer := k.history + [p];
    if |longer| > HISTORY_CAP then k.(history := longer[1..], truncatedBefore := Some(longer[1].at))
    else k.(history := longer)
  }

  /** A point that would go back in time is not recorded; the observer gives up on what follows it instead. */
  function Append(s: State, c: Crawler, p: Point): State
    requires c in s.tracks
  {
    var k := s.tracks[c];
    if k.history != [] && p.at < k.history[|k.history| - 1].at then Degrade(s, p.at)
    else
      s.(tracks := s.tracks[c := Push(k, p)],
         recorded := if p.known.Some? then s.recorded[p.known.value.1 := p.known.value.0] else s.recorded)
  }

  function Unknown(s: State, c: Crawler, at: int): State
    requires c in s.tracks
  {
    var k := s.tracks[c];
    Append(s.(tracks := s.tracks[c := k.(generation := k.generation + 1, blocked := true)]), c, Point(at, None))
  }

  function Touch(s: State, c: Crawler): State
    requires c in s.tracks
  {
    s.(tracks := s.tracks[c := s.tracks[c].(generation := s.tracks[c].generation + 1)])
  }

  function Finish(s: State, id: CallId): State {
    var longer := s.completed + [id];
    s.(inflight := s.inflight - {id}, completed := if |longer| > COMPLETED_CAP then longer[1..] else longer)
  }

  predicate Calling(s: State, c: Crawler) { exists id :: id in s.inflight && s.inflight[id].crawler == c }

  // ---- Hooks ----

  function CommitStarted(s: State, c: Crawler, requested: bool, id: CallId, now: int): State
    requires c in s.tracks
  {
    if s.degraded || s.startedAt.None? then s
    else if id in s.inflight || id in s.completed then Degrade(s, now)
    else if |s.inflight| >= INFLIGHT_CAP then Degrade(s, now)
    else
      var t := Touch(if Calling(s, c) then Unknown(s, c, now) else s, c);
      t.(inflight := s.inflight[id := Call(c, requested, now)])
  }

  function CommitAck(s: State, id: CallId, at: int): State
    requires id in s.inflight && s.inflight[id].crawler in s.tracks
  {
    var call := s.inflight[id];
    var s1 := if at < call.startedAt then Degrade(s, at) else s;
    var k := s1.tracks[call.crawler].(generation := s1.tracks[call.crawler].generation + 1,
                                      number := s1.tracks[call.crawler].number + 1);
    var s2 := s1.(tracks := s1.tracks[call.crawler := k]);
    var known := if k.blocked || k.baseline.None? then None
                 else Some((call.requested, Revision(k.baseline.value, call.crawler, k.number)));
    Finish(Append(s2, call.crawler, Point(at, known)), id)
  }

  predicate Stable(s: State, b: Baseline, ok: bool, missing: set<Crawler>, c: Crawler) {
    ok && c in b.rows && c !in missing && !s.degraded && s.startedAt.Some? && c in s.tracks && c in b.generations
    && s.tracks[c].generation == b.generations[c] && c !in b.busy && !Calling(s, c)
  }

  /** One crawler at the end of a baseline: it is anchored again if nothing has happened to it since the beginning. */
  function EndFor(s: State, b: Baseline, stable: bool, c: Crawler, now: int): State
    requires c in s.tracks && (stable ==> c in b.rows)
  {
    if stable then
      Append(s.(tracks := s.tracks[c := s.tracks[c].(baseline := Some(b.id), number := 0, blocked := false)]), c,
             Point(now, Some((b.rows[c], Revision(b.id, c, 0)))))
    else Unknown(s, c, now)
  }

  datatype Event =
    | StartEpoch(now: int)
    | Started(crawler: Crawler, requested: bool, call: CallId, now: int)
    | NotEntered(call: CallId, now: int)
    | ResultUnknown(call: CallId, now: int)
    | Acknowledged(call: CallId, ackAt: int, now: int)
    | BaselineBegin(id: BaselineId, now: int)
    | BaselineRow(id: BaselineId, crawler: Crawler, enabled: bool, now: int)
    | BaselineEndFor(id: BaselineId, crawler: Crawler, ok: bool, missing: set<Crawler>, now: int)
    | BaselineClosed(id: BaselineId, now: int)
    | TrackingFailed(now: int, blind: bool)
    | CrawlerFailed(crawler: Crawler, now: int, blind: bool)
    | Latched(now: int)

  predicate Active(s: State, id: BaselineId) { s.baseline.Some? && s.baseline.value.id == id && s.baseline.value.open }

  /** The time a failure is dated to. A failure whose clock also fails is dated to the start of the epoch. */
  function FailureTime(s: State, now: int, blind: bool): int { if blind then s.startedAt.GetOr(0) else now }

  /** The end of a baseline visits the crawlers one by one and then closes it; a failure that concerns every crawler,
      such as a row of a crawler that is not known, is one failure of each.  What is not due changes nothing. */
  function Effect(s: State, e: Event): State {
    match e
    case StartEpoch(now) =>
      s.(startedAt := Some(now), degraded := false, degradedAt := None, tracks := Fresh(s.tracks.Keys),
         inflight := map[], completed := [], baseline := None)
    case Started(c, requested, id, now) =>
      if c in s.tracks then CommitStarted(s, c, requested, id, now) else Degrade(s, now)
    case NotEntered(id, _) =>
      if id in s.inflight && s.inflight[id].crawler in s.tracks then Finish(Touch(s, s.inflight[id].crawler), id) else s
    case ResultUnknown(id, now) =>
      if id in s.inflight && s.inflight[id].crawler in s.tracks then Finish(Unknown(s, s.inflight[id].crawler, now), id)
      else s
    case Acknowledged(id, at, _) =>
      if id in s.inflight && s.inflight[id].crawler in s.tracks then CommitAck(s, id, at) else s
    case BaselineBegin(id, _) =>
      if id in s.begun then s
      else s.(baseline := Some(Baseline(id, map[], map c | c in s.tracks :: s.tracks[c].generation,
                                        set call | call in s.inflight :: s.inflight[call].crawler, true)),
              begun := s.begun + {id})
    case BaselineRow(id, c, enabled, now) =>
      if !Active(s, id) then s
      else if c !in s.tracks then s
      else if c in s.baseline.value.rows then Unknown(s, c, now)
      else s.(baseline := Some(s.baseline.value.(rows := s.baseline.value.rows[c := enabled])))
    case BaselineEndFor(id, c, ok, missing, now) =>
      if Active(s, id) && c in s.tracks && c in s.baseline.value.generations then
        var b := s.baseline.value;
        EndFor(s, b, Stable(s, b, ok, missing, c), c, now)
        .(baseline := Some(b.(generations := b.generations - {c})))
      else s
    case BaselineClosed(id, _) => if Active(s, id) then s.(baseline := Some(s.baseline.value.(open := false))) else s
    case TrackingFailed(now, blind) => Degrade(s, FailureTime(s, now, blind))
    case CrawlerFailed(c, now, blind) => if c in s.tracks then Unknown(s, c, FailureTime(s, now, blind)) else s
    case Latched(_) => s.(degraded := true, degradedAt := s.startedAt)
  }

  function Step(s: State, e: Event): State { Effect(s, e).(clock := e.now) }

  function Run(s: State, events: seq<Event>): State
    decreases |events|
  {
    if events == [] then s else Step(Run(s, events[..|events| - 1]), events[|events| - 1])
  }

  /** The observer's own clock does not go back; what a caller says about its acknowledgement may be anything. */
  predicate InTime(events: seq<Event>) {
    (events != [] ==> events[0].now >= 0) && forall i, j :: 0 <= i < j < |events| ==> events[i].now <= events[j].now
  }

  // ---- Histories ----

  predicate Ordered(history: seq<Point>) { forall i, j :: 0 <= i < j < |history| ==> history[i].at <= history[j].at }

  predicate TrackOk(k: Track) {
    Ordered(k.history)
    && (k.truncatedBefore.Some? ==> k.history != [] && k.truncatedBefore.value <= k.history[0].at)
  }

  lemma LastPointAppend(history: seq<Point>, p: Point, t: int)
    ensures LastPoint(history + [p], t) == if p.at <= t then Some(p) else LastPoint(history, t)
  {
    assert (history + [p])[..|history|] == history;
  }

  /** Dropping the oldest point matters only to times before the next one. */
  lemma {:induction false} LastPointDrop(history: seq<Point>, t: int)
    requires |history| >= 2 && Ordered(history)
    ensures LastPoint(history[1..], t) == LastPoint(history, t) || t < history[1].at
    decreases |history|
  {
    var n := |history|;
    var rest := history[1..];
    assert rest[n - 2] == history[n - 1] && rest[..n - 2] == history[..n - 1][1..];
    if history[n - 1].at > t && n > 2 {
      LastPointDrop(history[..n - 1], t);
    }
  }

  lemma PushOk(k: Track, p: Point)
    requires TrackOk(k) && (k.history != [] ==> k.history[|k.history| - 1].at <= p.at)
    ensures TrackOk(Push(k, p))
  {
  }

  // ---- One time and one crawler ----

  predicate NoCall(s: State, c: Crawler, t: int) {
    forall id :: id in s.inflight && s.inflight[id].crawler == c ==> s.inflight[id].startedAt > t
  }

  /** What a track says about `t`: it has been cut off after it, or its history gives `a` or nothing. */
  predicate Says(k: Track, t: int, a: (bool, Revision)) {
    || (k.truncatedBefore.Some? && t < k.truncatedBefore.value)
    || Underlying(k.history, t) == Some(a) || Underlying(k.history, t) == None
  }

  /** From now on the answer for `t` is `a` or unknown. */
  predicate Settled(s: State, c: Crawler, t: int, a: (bool, Revision)) {
    || s.startedAt.None? || t < s.startedAt.value
    || DegradedBy(s, t)
    || c !in s.tracks
    || (NoCall(s, c, t) && Says(s.tracks[c], t, a))
  }

  predicate Sound(s: State) {
    (forall c :: c in s.tracks ==> TrackOk(s.tracks[c]))
    && (s.degraded && s.degradedAt.None? ==> s.startedAt.None?)
  }

  lemma PushSays(k: Track, p: Point, t: int, a: (bool, Revision))
    requires TrackOk(k) && (k.history != [] ==> k.history[|k.history| - 1].at <= p.at)
    requires Says(k, t, a) && (p.at > t || p.known.None?)
    ensures Says(Push(k, p), t, a)
  {
    LastPointAppend(k.history, p, t);
    if |k.history + [p]| > HISTORY_CAP {
      PushOk(k, p);
      LastPointDrop(k.history + [p], t);
    }
  }

  lemma AppendKeeps(s: State, d: Crawler, p: Point, c: Crawler, t: int, a: (bool, Revision))
    requires Sound(s) && d in s.tracks && Settled(s, c, t, a)
    requires d == c && p.at <= t ==> DegradedBy(s, t) || p.known.None?
    ensures Sound(Append(s, d, p)) && Settled(Append(s, d, p), c, t, a)
  {
    var k := s.tracks[d];
    if k.history == [] || p.at >= k.history[|k.history| - 1].at {
      PushOk(k, p);
      if d == c && (p.at > t || p.known.None?) && Says(k, t, a) {
        PushSays(k, p, t, a);
      }
    }
    hide Says, Push, TrackOk;
  }

  /** Changes of a track that leave its history alone. */
  predicate SameHistory(s: State, t: State) {
    && t.tracks.Keys == s.tracks.Keys && t.startedAt == s.startedAt && t.degraded == s.degraded
    && t.degradedAt == s.degradedAt
    && forall c :: c in s.tracks ==>
         t.tracks[c].history == s.tracks[c].history && t.tracks[c].truncatedBefore == s.tracks[c].truncatedBefore
  }

  lemma SameHistoryKeeps(s: State, s': State, c: Crawler, t: int, a: (bool, Revision))
    requires Sound(s) && Settled(s, c, t, a) && SameHistory(s, s') && (NoCall(s, c, t) ==> NoCall(s', c, t))
    ensures Sound(s') && Settled(s', c, t, a)
  {
    forall d | d in s'.tracks ensures TrackOk(s'.tracks[d]) {
      assert TrackOk(s.tracks[d]);
    }
  }

  lemma UnknownKeeps(s: State, d: Crawler, at: int, c: Crawler, t: int, a: (bool, Revision))
    requires Sound(s) && d in s.tracks && Settled(s, c, t, a)
    ensures Sound(Unknown(s, d, at)) && Settled(Unknown(s, d, at), c, t, a)
  {
    var s1 := s.(tracks := s.tracks[d := s.tracks[d].(generation := s.tracks[d].generation + 1, blocked := true)]);
    SameHistoryKeeps(s, s1, c, t, a);
    AppendKeeps(s1, d, Point(at, None), c, t, a);
  }

  lemma DegradeKeeps(s: State, at: int, c: Crawler, t: int, a: (bool, Revision))
    requires Sound(s) && Settled(s, c, t, a)
    ensures Sound(Degrade(s, at)) && Settled(Degrade(s, at), c, t, a)
    ensures at <= t ==> DegradedBy(Degrade(s, at), t)
  {
    hide TrackOk, Says;
  }

  lemma FinishKeeps(s: State, id: CallId, c: Crawler, t: int, a: (bool, Revision))
    requires Sound(s) && Settled(s, c, t, a)
    ensures Sound(Finish(s, id)) && Settled(Finish(s, id), c, t, a)
  {
    SameHistoryKeeps(s, Finish(s, id), c, t, a);
  }

  lemma CommitStartedKeeps(s: State, d: Crawler, requested: bool, id: CallId, now: int, c: Crawler, t: int,
                           a: (bool, Revision))
    requires Sound(s) && d in s.tracks && Settled(s, c, t, a) && now > t
    ensures Sound(CommitStarted(s, d, requested, id, now)) && Settled(CommitStarted(s, d, requested, id, now), c, t, a)
  {
    hide Settled, Sound, Unknown, Degrade, Touch;
    DegradeKeeps(s, now, c, t, a);
    UnknownKeeps(s, d, now, c, t, a);
    SameCalls(s, d, now);
    CallAdded(if Calling(s, d) then Unknown(s, d, now) else s, s.inflight, d, requested, id, now, c, t, a);
  }

  lemma CallAdded(s: State, inflight: map<CallId, Call>, d: Crawler, requested: bool, id: CallId, now: int,
                  c: Crawler, t: int, a: (bool, Revision))
    requires Sound(s) && d in s.tracks && Settled(s, c, t, a) && now > t && s.inflight == inflight
    ensures var s1 := Touch(s, d).(inflight := inflight[id := Call(d, requested, now)]);
            Sound(s1) && Settled(s1, c, t, a)
  {
    SameHistoryKeeps(s, Touch(s, d).(inflight := inflight[id := Call(d, requested, now)]), c, t, a);
  }

  lemma SameCalls(s: State, d: Crawler, now: int)
    requires d in s.tracks
    ensures Unknown(s, d, now).inflight == s.inflight && Unknown(s, d, now).tracks.Keys == s.tracks.Keys
  {
  }

  /** The point that an acknowledgement records, and the track and the state it is appended to. */
  function AckTrack(s: State, id: CallId): Track
    requires id in s.inflight && s.inflight[id].crawler in s.tracks
  {
    var k := s.tracks[s.inflight[id].crawler];
    k.(generation := k.generation + 1, number := k.number + 1)
  }

  function AckPoint(s: State, id: CallId, at: int): Point
    requires id in s.inflight && s.inflight[id].crawler in s.tracks
  {
    var k := AckTrack(s, id);
    Point(at, if k.blocked || k.baseline.None? then None
              else Some((s.inflight[id].requested, Revision(k.baseline.value, s.inflight[id].crawler, k.number))))
  }

  function AckState(s: State, id: CallId, at: int): State
    requires id in s.inflight && s.inflight[id].crawler in s.tracks
  {
    var s1 := if at < s.inflight[id].startedAt then Degrade(s, at) else s;
    s1.(tracks := s1.tracks[s.inflight[id].crawler := AckTrack(s, id)])
  }

  lemma CommitAckForm(s: State, id: CallId, at: int)
    requires id in s.inflight && s.inflight[id].crawler in s.tracks
    ensures CommitAck(s, id, at) == Finish(Append(AckState(s, id, at), s.inflight[id].crawler, AckPoint(s, id, at)), id)
  {
    hide Append, Finish;
  }

  lemma AckStateKeeps(s: State, id: CallId, at: int, c: Crawler, t: int, a: (bool, Revision))
    requires Sound(s) && id in s.inflight && s.inflight[id].crawler in s.tracks && Settled(s, c, t, a)
    ensures Sound(AckState(s, id, at)) && Settled(AckState(s, id, at), c, t, a)
    ensures s.inflight[id].crawler == c && at <= t ==>
              DegradedBy(AckState(s, id, at), t) || !NoCall(AckState(s, id, at), c, t)
  {
    DegradeKeeps(s, at, c, t, a);
    var s1 := if at < s.inflight[id].startedAt then Degrade(s, at) else s;
    hide Sound, Settled;
    SameHistoryKeeps(s1, AckState(s, id, at), c, t, a);
  }

  lemma CommitAckKeeps(s: State, id: CallId, at: int, c: Crawler, t: int, a: (bool, Revision))
    requires Sound(s) && id in s.inflight && s.inflight[id].crawler in s.tracks && Settled(s, c, t, a)
    ensures Sound(CommitAck(s, id, at)) && Settled(CommitAck(s, id, at), c, t, a)
  {
    hide Sound, Settled, AckState, AckPoint, Append, Finish, CommitAck, NoCall, DegradedBy;
    var d := s.inflight[id].crawler;
    CommitAckForm(s, id, at);
    AckStateKeeps(s, id, at, c, t, a);
    AckKeepsTracks(s, id, at);
    var s1, p := AckState(s, id, at), AckPoint(s, id, at);
    if !(d == c && at <= t) || DegradedBy(s1, t) {
      AppendKeeps(s1, d, p, c, t, a);
    } else {
      BeyondReach(s1, d, p, c, t, a);
    }
    FinishKeeps(Append(s1, d, p), id, c, t, a);
  }

  lemma AckKeepsTracks(s: State, id: CallId, at: int)
    requires id in s.inflight && s.inflight[id].crawler in s.tracks
    ensures s.inflight[id].crawler in AckState(s, id, at).tracks && AckPoint(s, id, at).at == at
  {
  }

  /** What is settled although a call reaches back to `t` is settled for good, whatever is appended. */
  lemma BeyondReach(s: State, d: Crawler, p: Point, c: Crawler, t: int, a: (bool, Revision))
    requires Sound(s) && d in s.tracks && Settled(s, c, t, a) && !NoCall(s, c, t)
    ensures Sound(Append(s, d, p)) && Settled(Append(s, d, p), c, t, a)
  {
    var k := s.tracks[d];
    if k.history == [] || p.at >= k.history[|k.history| - 1].at {
      PushOk(k, p);
    }
    hide Says, Push, TrackOk;
  }

  lemma EndForKeeps(s: State, b: Baseline, stable: bool, d: Crawler, now: int, c: Crawler, t: int, a: (bool, Revision))
    requires Sound(s) && d in s.tracks && (stable ==> d in b.rows) && Settled(s, c, t, a) && now > t
    ensures Sound(EndFor(s, b, stable, d, now)) && Settled(EndFor(s, b, stable, d, now), c, t, a)
  {
    if stable {
      var s1 := s.(tracks := s.tracks[d := s.tracks[d].(baseline := Some(b.id), number := 0, blocked := false)]);
      SameHistoryKeeps(s, s1, c, t, a);
      AppendKeeps(s1, d, Point(now, Some((b.rows[d], Revision(b.id, d, 0)))), c, t, a);
    } else {
      UnknownKeeps(s, d, now, c, t, a);
    }
  }

  lemma EpochKeeps(s: State, now: int, c: Crawler, t: int, a: (bool, Revision))
    requires now > t
    ensures Sound(Step(s, StartEpoch(now))) && Settled(Step(s, StartEpoch(now)), c, t, a)
  {
  }

  lemma LatchKeeps(s: State, now: int, c: Crawler, t: int, a: (bool, Revision))
    requires Sound(s) && Settled(s, c, t, a)
    ensures Sound(Step(s, Latched(now))) && Settled(Step(s, Latched(now)), c, t, a)
  {
    hide TrackOk, Says;
  }

  lemma QuietKeeps(s: State, e: Event, c: Crawler, t: int, a: (bool, Revision))
    requires Sound(s) && Settled(s, c, t, a)
    requires e.BaselineBegin? || e.BaselineClosed?
    ensures Sound(Step(s, e)) && Settled(Step(s, e), c, t, a)
  {
    SameHistoryKeeps(s, Step(s, e), c, t, a);
  }

  /** The parts of the state that answers depend on. */
  predicate SameAnswers(s: State, t: State) {
    s.startedAt == t.startedAt && s.degraded == t.degraded && s.degradedAt == t.degradedAt && s.tracks == t.tracks
    && s.inflight == t.inflight
  }

  lemma SameAnswersKeep(s: State, s': State, c: Crawler, t: int, a: (bool, Revision))
    requires Sound(s) && Settled(s, c, t, a) && SameAnswers(s, s')
    ensures Sound(s') && Settled(s', c, t, a)
  {
  }

  lemma EffectKeeps(s: State, e: Event, c: Crawler, t: int, a: (bool, Revision))
    requires Sound(s) && Settled(s, c, t, a) && e.now > t
    ensures Sound(Effect(s, e)) && Settled(Effect(s, e), c, t, a)
  {
    hide Sound, Settled, Append, Unknown, Degrade, Touch, Finish, CommitStarted, CommitAck, Stable, EndFor, Fresh;
    match e {
      case StartEpoch(now) =>
        EpochKeeps(s, now, c, t, a);
        SameAnswersKeep(Step(s, e), Effect(s, e), c, t, a);
      case Started(d, requested, id, now) =>
        DegradeKeeps(s, now, c, t, a);
        if d in s.tracks { CommitStartedKeeps(s, d, requested, id, now, c, t, a); }
      case NotEntered(id, _) =>
        if id in s.inflight && s.inflight[id].crawler in s.tracks { NotEnteredKeeps(s, id, c, t, a); }
      case ResultUnknown(id, now) =>
        if id in s.inflight && s.inflight[id].crawler in s.tracks {
          UnknownKeeps(s, s.inflight[id].crawler, now, c, t, a);
          FinishKeeps(Unknown(s, s.inflight[id].crawler, now), id, c, t, a);
        }
      case Acknowledged(id, at, _) =>
        if id in s.inflight && s.inflight[id].crawler in s.tracks { CommitAckKeeps(s, id, at, c, t, a); }
      case BaselineBegin(id, _) =>
        QuietKeeps(s, e, c, t, a);
        SameAnswersKeep(Step(s, e), Effect(s, e), c, t, a);
      case BaselineRow(id, d, enabled, now) =>
        if d in s.tracks { UnknownKeeps(s, d, now, c, t, a); }
        SameAnswersKeep(s, s.(baseline := Effect(s, e).baseline), c, t, a);
      case BaselineEndFor(id, d, ok, missing, now) =>
        if Active(s, id) && d in s.tracks && d in s.baseline.value.generations {
          var b := s.baseline.value;
          StableHasRow(s, b, ok, missing, d);
          EndForKeeps(s, b, Stable(s, b, ok, missing, d), d, now, c, t, a);
          SameAnswersKeep(EndFor(s, b, Stable(s, b, ok, missing, d), d, now), Effect(s, e), c, t, a);
        }
      case BaselineClosed(id, _) =>
        QuietKeeps(s, e, c, t, a);
        SameAnswersKeep(Step(s, e), Effect(s, e), c, t, a);
      case TrackingFailed(now, blind) => DegradeKeeps(s, FailureTime(s, now, blind), c, t, a);
      case CrawlerFailed(d, now, blind) =>
        if d in s.tracks { UnknownKeeps(s, d, FailureTime(s, now, blind), c, t, a); }
      case Latched(now) =>
        LatchKeeps(s, now, c, t, a);
        SameAnswersKeep(Step(s, e), Effect(s, e), c, t, a);
    }
  }

  lemma StableHasRow(s: State, b: Baseline, ok: bool, missing: set<Crawler>, c: Crawler)
    ensures Stable(s, b, ok, missing, c) ==> c in b.rows
  {
  }

  lemma NotEnteredKeeps(s: State, id: CallId, c: Crawler, t: int, a: (bool, Revision))
    requires Sound(s) && Settled(s, c, t, a) && id in s.inflight && s.inflight[id].crawler in s.tracks
    ensures var s1 := Finish(Touch(s, s.inflight[id].crawler), id); Sound(s1) && Settled(s1, c, t, a)
  {
    SameHistoryKeeps(s, Touch(s, s.inflight[id].crawler), c, t, a);
    FinishKeeps(Touch(s, s.inflight[id].crawler), id, c, t, a);
  }

  lemma StepKeeps(s: State, e: Event, c: Crawler, t: int, a: (bool, Revision))
    requires Sound(s) && Settled(s, c, t, a) && e.now > t
    ensures Sound(Step(s, e)) && Settled(Step(s, e), c, t, a)
  {
    EffectKeeps(s, e, c, t, a);
    hide Effect, Sound, Settled;
    SameAnswersKeep(Effect(s, e), Step(s, e), c, t, a);
  }

  // ---- Affirmative answers are not taken back ----

  lemma AnswerIsSettled(s: State, c: Crawler, t: int, a: (bool, Revision))
    ensures ConfigAt(s, c, t) == Some(a) ==> Settled(s, c, t, a)
    ensures Settled(s, c, t, a) ==> ConfigAt(s, c, t) == None || ConfigAt(s, c, t) == Some(a)
  {
  }

  lemma InitialSound(members: set<Crawler>)
    ensures Sound(Initial(members))
  {
  }

  /** Soundness needs no particular answer: it is kept because some answer before the epoch is. */
  lemma StepSound(s: State, e: Event)
    requires Sound(s) && e.now >= s.clock
    ensures Sound(Step(s, e)) && Step(s, e).clock == e.now
  {
    if s.startedAt.None? {
      StepKeeps(s, e, 0, s.clock - 1, (true, Revision(0, 0, 0)));
    } else {
      var t := if s.startedAt.value <= s.clock then s.startedAt.value - 1 else s.clock - 1;
      StepKeeps(s, e, 0, t, (true, Revision(0, 0, 0)));
    }
  }

  lemma {:induction false} RunSound(members: set<Crawler>, events: seq<Event>)
    requires InTime(events)
    ensures var s := Run(Initial(members), events);
            Sound(s) && s.clock == if events == [] then 0 else events[|events| - 1].now
    decreases |events|
  {
    hide Sound, Step;
    if events == [] {
      InitialSound(members);
    } else {
      RunSound(members, events[..|events| - 1]);
      StepSound(Run(Initial(members), events[..|events| - 1]), events[|events| - 1]);
    }
  }

  lemma {:induction false} StaysSettled(members: set<Crawler>, events: seq<Event>, i: nat, c: Crawler, t: int,
                                        a: (bool, Revision))
    requires InTime(events) && i <= |events|
    requires var s := Run(Initial(members), events[..i]); t < s.clock && Settled(s, c, t, a)
    ensures Settled(Run(Initial(members), events), c, t, a)
    decreases |events|
  {
    hide Sound, Step, Settled;
    if i == |events| {
      assert events[..i] == events;
    } else {
      var before := events[..|events| - 1];
      assert before[..i] == events[..i];
      StaysSettled(members, before, i, c, t, a);
      RunSound(members, before);
      RunSound(members, events[..i]);
      StepKeeps(Run(Initial(members), before), events[|events| - 1], c, t, a);
    }
  }

  /** In every run with an observer clock that does not go back: an affirmative answer for a moment that has passed is,
      after any later events, repeated or turned into "unknown". */
  lemma AnswersAreStable(members: set<Crawler>, events: seq<Event>, i: nat, c: Crawler, t: int, a: (bool, Revision))
    requires InTime(events) && i <= |events|
    requires var s := Run(Initial(members), events[..i]); t < s.clock && ConfigAt(s, c, t) == Some(a)
    ensures ConfigAt(Run(Initial(members), events), c, t) in {None, Some(a)}
  {
    hide Run, Settled, ConfigAt;
    AnswerIsSettled(Run(Initial(members), events[..i]), c, t, a);
    StaysSettled(members, events, i, c, t, a);
    AnswerIsSettled(Run(Initial(members), events), c, t, a);
  }

  // ---- A revision determines the value ----

  ghost predicate PointsRecorded(tracks: map<Crawler, Track>, recorded: map<Revision, bool>) {
    forall c, i :: c in tracks && 0 <= i < |tracks[c].history| && tracks[c].history[i].known.Some? ==>
      var (value, r) := tracks[c].history[i].known.value; r in recorded && recorded[r] == value
  }

  /** The numbers recorded for the present baseline of a crawler are those counted so far. */
  predicate NumbersOk(tracks: map<Crawler, Track>, recorded: map<Revision, bool>, begun: set<BaselineId>) {
    && (forall r :: r in recorded ==> r.baseline in begun)
    && (forall r :: r in recorded && r.crawler in tracks && tracks[r.crawler].baseline == Some(r.baseline) ==>
          r.number <= tracks[r.crawler].number)
    && (forall c :: c in tracks && tracks[c].baseline.Some? ==> tracks[c].baseline.value in begun)
  }

  /** Nothing is recorded for a baseline before its end. */
  predicate PendingOk(baseline: Option<Baseline>, tracks: map<Crawler, Track>, recorded: map<Revision, bool>,
                      begun: set<BaselineId>) {
    baseline.Some? ==>
      && baseline.value.id in begun
      && (forall r :: r in recorded && r.baseline == baseline.value.id ==> r.crawler !in baseline.value.generations)
      && (forall c :: c in tracks && c in baseline.value.generations ==> tracks[c].baseline != Some(baseline.value.id))
  }

  ghost predicate RevisionsOk(s: State) {
    && PointsRecorded(s.tracks, s.recorded) && NumbersOk(s.tracks, s.recorded, s.begun)
    && PendingOk(s.baseline, s.tracks, s.recorded, s.begun)
  }

  predicate Extends(a: map<Revision, bool>, b: map<Revision, bool>) { forall r :: r in a ==> r in b && b[r] == a[r] }

  lemma {:induction false} UnderlyingIsPoint(history: seq<Point>, t: int)
    requires Underlying(history, t).Some?
    ensures exists i :: 0 <= i < |history| && history[i].known == Underlying(history, t)
    decreases |history|
  {
    var n := |history| - 1;
    if history[n].at <= t {
      assert history[n].known == Underlying(history, t);
    } else {
      UnderlyingIsPoint(history[..n], t);
      var i :| 0 <= i < n && history[..n][i].known == Underlying(history[..n], t);
      assert history[i].known == Underlying(history, t);
    }
  }

  lemma PushRecorded(tracks: map<Crawler, Track>, recorded: map<Revision, bool>, c: Crawler, k: Track, p: Point,
                     now: map<Revision, bool>)
    requires PointsRecorded(tracks, recorded) && c in tracks && k.history == tracks[c].history && Extends(recorded, now)
    requires p.known.Some? ==> p.known.value.1 in now && now[p.known.value.1] == p.known.value.0
    ensures PointsRecorded(tracks[c := Push(k, p)], now)
  {
    var after := tracks[c := Push(k, p)];
    var longer := k.history + [p];
    forall d, i | d in after && 0 <= i < |after[d].history| && after[d].history[i].known.Some?
      ensures var (value, r) := after[d].history[i].known.value; r in now && now[r] == value
    {
      if d == c {
        var j := if |longer| > HISTORY_CAP then i + 1 else i;
        assert after[d].history[i] == longer[j];
        if j < |k.history| {
          assert tracks[c].history[j].known.Some?;
        }
      } else {
        assert tracks[d].history[i].known.Some?;
      }
    }
  }

  /** A track that starts a new count, or goes on with the old one, and the point that goes with it. */
  lemma RecordKeeps(s: State, c: Crawler, k: Track, p: Point)
    requires RevisionsOk(s) && c in s.tracks && k.history == s.tracks[c].history
    requires p.known.Some? ==>
               && p.known.value.1 !in s.recorded && p.known.value.1.crawler == c
               && k.baseline == Some(p.known.value.1.baseline) && p.known.value.1.number <= k.number
    requires k.baseline == s.tracks[c].baseline ==> s.tracks[c].number <= k.number
    requires k.baseline.Some? ==> k.baseline.value in s.begun
    requires k.baseline != s.tracks[c].baseline ==> forall r :: r in s.recorded && r.crawler == c ==>
               k.baseline != Some(r.baseline)
    requires s.baseline.Some? && c in s.baseline.value.generations ==> k.baseline != Some(s.baseline.value.id)
    ensures var t := Append(s.(tracks := s.tracks[c := k]), c, p); RevisionsOk(t) && Extends(s.recorded, t.recorded)
  {
    var s1 := s.(tracks := s.tracks[c := k]);
    var now := if p.known.Some? then s.recorded[p.known.value.1 := p.known.value.0] else s.recorded;
    PushRecorded(s.tracks, s.recorded, c, k, p, now);
    assert s.tracks[c := k][c := Push(k, p)] == s.tracks[c := Push(k, p)];
    TrackRecorded(s.tracks, s.recorded, c, k);
    hide PointsRecorded, Push;
    PushFields(k, p);
  }

  lemma PushFields(k: Track, p: Point)
    ensures Push(k, p).baseline == k.baseline && Push(k, p).number == k.number
  {
  }

  lemma TrackRecorded(tracks: map<Crawler, Track>, recorded: map<Revision, bool>, c: Crawler, k: Track)
    requires PointsRecorded(tracks, recorded) && c in tracks && k.history == tracks[c].history
    ensures PointsRecorded(tracks[c := k], recorded)
  {
    var after := tracks[c := k];
    forall d, i | d in after && 0 <= i < |after[d].history| && after[d].history[i].known.Some?
      ensures var (value, r) := after[d].history[i].known.value; r in recorded && recorded[r] == value
    {
      assert tracks[d].history[i] == after[d].history[i];
    }
  }

  lemma UnknownRevisions(s: State, c: Crawler, at: int)
    requires RevisionsOk(s) && c in s.tracks
    ensures RevisionsOk(Unknown(s, c, at)) && Extends(s.recorded, Unknown(s, c, at).recorded)
  {
    hide RevisionsOk;
    PendingBaseline(s, c);
    RecordKeeps(s, c, s.tracks[c].(generation := s.tracks[c].generation + 1, blocked := true), Point(at, None));
  }

  lemma PendingBaseline(s: State, c: Crawler)
    requires RevisionsOk(s) && c in s.tracks
    ensures s.baseline.Some? && c in s.baseline.value.generations ==> s.tracks[c].baseline != Some(s.baseline.value.id)
    ensures s.tracks[c].baseline.Some? ==> s.tracks[c].baseline.value in s.begun
    ensures forall r :: r in s.recorded && r.crawler == c && s.tracks[c].baseline == Some(r.baseline) ==>
              r.number <= s.tracks[c].number
    ensures s.baseline.Some? ==> s.baseline.value.id in s.begun
    ensures s.baseline.Some? && c in s.baseline.value.generations ==>
              forall r :: r in s.recorded && r.crawler == c ==> r.baseline != s.baseline.value.id
  {
  }

  lemma TouchRevisions(s: State, c: Crawler)
    requires RevisionsOk(s) && c in s.tracks
    ensures RevisionsOk(Touch(s, c)) && Touch(s, c).recorded == s.recorded
  {
    TrackRecorded(s.tracks, s.recorded, c, s.tracks[c].(generation := s.tracks[c].generation + 1));
    hide PointsRecorded;
  }

  /** States that agree on what revisions are about. */
  predicate SameRevisions(s: State, t: State) {
    s.tracks == t.tracks && s.recorded == t.recorded && s.begun == t.begun && s.baseline == t.baseline
  }

  lemma SameRevisionsKeep(s: State, t: State)
    requires RevisionsOk(s) && SameRevisions(s, t)
    ensures RevisionsOk(t)
  {
  }

  lemma DegradeSame(s: State, at: int, id: CallId)
    ensures SameRevisions(s, Degrade(s, at)) && SameRevisions(s, Finish(s, id))
  {
  }

  lemma AckRevisions(s: State, id: CallId, at: int)
    requires RevisionsOk(s) && id in s.inflight && s.inflight[id].crawler in s.tracks
    ensures RevisionsOk(CommitAck(s, id, at)) && Extends(s.recorded, CommitAck(s, id, at).recorded)
  {
    hide RevisionsOk, Append;
    var c := s.inflight[id].crawler;
    var s1 := if at < s.inflight[id].startedAt then Degrade(s, at) else s;
    DegradeSame(s, at, id);
    SameRevisionsKeep(s, s1);
    PendingBaseline(s1, c);
    RecordKeeps(s1, c, AckTrack(s, id), AckPoint(s, id, at));
    CommitAckForm(s, id, at);
    var t := Append(s1.(tracks := s1.tracks[c := AckTrack(s, id)]), c, AckPoint(s, id, at));
    DegradeSame(t, at, id);
    SameRevisionsKeep(t, Finish(t, id));
  }

  /** The end of a baseline for one crawler, which is then no longer pending. */
  lemma EndForRevisions(s: State, stable: bool, c: Crawler, now: int)
    requires RevisionsOk(s) && c in s.tracks && s.baseline.Some? && c in s.baseline.value.generations
    requires stable ==> c in s.baseline.value.rows
    ensures var b := s.baseline.value;
            var t := EndFor(s, b, stable, c, now).(baseline := Some(b.(generations := b.generations - {c})));
            RevisionsOk(t) && Extends(s.recorded, t.recorded)
  {
    hide RevisionsOk, Append;
    var b := s.baseline.value;
    var s1 := s.(baseline := Some(b.(generations := b.generations - {c})));
    DropPending(s, c);
    PendingBaseline(s, c);
    if stable {
      var k := s.tracks[c].(baseline := Some(b.id), number := 0, blocked := false);
      RecordKeeps(s1, c, k, Point(now, Some((b.rows[c], Revision(b.id, c, 0)))));
      AppendCommutes(s.(tracks := s.tracks[c := k]), c, Point(now, Some((b.rows[c], Revision(b.id, c, 0)))),
                     s1.baseline);
    } else {
      UnknownRevisions(s1, c, now);
      var k := s.tracks[c].(generation := s.tracks[c].generation + 1, blocked := true);
      AppendCommutes(s.(tracks := s.tracks[c := k]), c, Point(now, None), s1.baseline);
    }
  }

  lemma DropPending(s: State, c: Crawler)
    requires RevisionsOk(s) && s.baseline.Some?
    ensures RevisionsOk(s.(baseline := Some(s.baseline.value.(generations := s.baseline.value.generations - {c}))))
  {
    hide PointsRecorded, NumbersOk;
  }

  lemma AppendCommutes(s: State, c: Crawler, p: Point, baseline: Option<Baseline>)
    requires c in s.tracks
    ensures Append(s, c, p).(baseline := baseline) == Append(s.(baseline := baseline), c, p)
  {
    hide Push;
  }

  lemma StartedRevisions(s: State, c: Crawler, requested: bool, id: CallId, now: int)
    requires RevisionsOk(s) && c in s.tracks
    ensures var t := CommitStarted(s, c, requested, id, now); RevisionsOk(t) && Extends(s.recorded, t.recorded)
  {
    hide RevisionsOk, Unknown, Touch, Degrade;
    DegradeSame(s, now, id);
    SameRevisionsKeep(s, Degrade(s, now));
    UnknownRevisions(s, c, now);
    SameCalls(s, c, now);
    var s1 := if Calling(s, c) then Unknown(s, c, now) else s;
    TouchRevisions(s1, c);
    SameRevisionsKeep(Touch(s1, c), Touch(s1, c).(inflight := s.inflight[id := Call(c, requested, now)]));
  }

  lemma BeginRevisions(s: State, id: BaselineId, now: int)
    requires RevisionsOk(s)
    ensures RevisionsOk(Effect(s, BaselineBegin(id, now))) && Effect(s, BaselineBegin(id, now)).recorded == s.recorded
  {
    hide PointsRecorded;
  }

  lemma EpochRevisions(s: State, now: int)
    requires RevisionsOk(s)
    ensures RevisionsOk(Effect(s, StartEpoch(now))) && Effect(s, StartEpoch(now)).recorded == s.recorded
  {
  }

  lemma BaselineRevisions(s: State, e: Event)
    requires RevisionsOk(s) && (e.BaselineRow? || e.BaselineClosed?)
    ensures RevisionsOk(Effect(s, e)) && Extends(s.recorded, Effect(s, e).recorded)
  {
    if e.BaselineRow? && e.crawler in s.tracks {
      UnknownRevisions(s, e.crawler, e.now);
    }
    hide PointsRecorded, NumbersOk, Unknown;
  }

  lemma EffectRevisions(s: State, e: Event)
    requires RevisionsOk(s)
    ensures RevisionsOk(Effect(s, e)) && Extends(s.recorded, Effect(s, e).recorded)
  {
    hide RevisionsOk, Unknown, Degrade, Touch, Finish, CommitStarted, CommitAck, Stable, EndFor, Fresh;
    match e {
      case StartEpoch(now) => EpochRevisions(s, now);
      case Started(c, requested, id, now) =>
        DegradeSame(s, now, id);
        SameRevisionsKeep(s, Degrade(s, now));
        if c in s.tracks { StartedRevisions(s, c, requested, id, now); }
      case NotEntered(id, _) =>
        if id in s.inflight && s.inflight[id].crawler in s.tracks {
          var t := Touch(s, s.inflight[id].crawler);
          TouchRevisions(s, s.inflight[id].crawler);
          DegradeSame(t, 0, id);
          SameRevisionsKeep(t, Finish(t, id));
        }
      case ResultUnknown(id, now) =>
        if id in s.inflight && s.inflight[id].crawler in s.tracks {
          var t := Unknown(s, s.inflight[id].crawler, now);
          UnknownRevisions(s, s.inflight[id].crawler, now);
          DegradeSame(t, 0, id);
          SameRevisionsKeep(t, Finish(t, id));
        }
      case Acknowledged(id, at, _) =>
        if id in s.inflight && s.inflight[id].crawler in s.tracks { AckRevisions(s, id, at); }
      case BaselineBegin(id, now) => BeginRevisions(s, id, now);
      case BaselineRow(id, c, enabled, now) => BaselineRevisions(s, e);
      case BaselineEndFor(id, c, ok, missing, now) =>
        if Active(s, id) && c in s.tracks && c in s.baseline.value.generations {
          StableHasRow(s, s.baseline.value, ok, missing, c);
          EndForRevisions(s, Stable(s, s.baseline.value, ok, missing, c), c, now);
        }
      case BaselineClosed(id, _) => BaselineRevisions(s, e);
      case TrackingFailed(now, blind) =>
        DegradeSame(s, FailureTime(s, now, blind), 0);
        SameRevisionsKeep(s, Degrade(s, FailureTime(s, now, blind)));
      case CrawlerFailed(c, now, blind) => if c in s.tracks { UnknownRevisions(s, c, FailureTime(s, now, blind)); }
      case Latched(_) => SameRevisionsKeep(s, Effect(s, e));
    }
  }

  lemma InitialRevisions(members: set<Crawler>)
    ensures RevisionsOk(Initial(members))
  {
  }

  lemma {:induction false} RunRevisions(members: set<Crawler>, events: seq<Event>, i: nat)
    requires i <= |events|
    ensures var s, t := Run(Initial(members), events[..i]), Run(Initial(members), events);
            RevisionsOk(t) && Extends(s.recorded, t.recorded)
    decreases |events|
  {
    hide RevisionsOk, Effect;
    if i == |events| {
      assert events[..i] == events;
    }
    if events == [] {
      InitialRevisions(members);
    } else {
      var before := events[..|events| - 1];
      var n := if i == |events| then 0 else i;
      assert before[..n] == events[..n];
      RunRevisions(members, before, n);
      var s := Run(Initial(members), before);
      EffectRevisions(s, events[|events| - 1]);
      SameRevisionsKeep(Effect(s, events[|events| - 1]), Run(Initial(members), events));
    }
  }

  lemma AnswerIsRecorded(s: State, c: Crawler, t: int)
    requires RevisionsOk(s) && ConfigAt(s, c, t).Some?
    ensures var (value, r) := ConfigAt(s, c, t).value; r in s.recorded && s.recorded[r] == value
  {
    UnderlyingIsPoint(s.tracks[c].history, t);
  }

  /** In every run, two affirmative answers that name the same revision, whenever and about whatever moment they are
      given, agree on the value. */
  lemma RevisionDeterminesValue(members: set<Crawler>, events: seq<Event>, i: nat, c: Crawler, t: int, d: Crawler,
                                u: int)
    requires i <= |events|
    requires ConfigAt(Run(Initial(members), events[..i]), c, t).Some?
             && ConfigAt(Run(Initial(members), events), d, u).Some?
    requires ConfigAt(Run(Initial(members), events[..i]), c, t).value.1
             == ConfigAt(Run(Initial(members), events), d, u).value.1
    ensures ConfigAt(Run(Initial(members), events[..i]), c, t) == ConfigAt(Run(Initial(members), events), d, u)
  {
    hide Run, ConfigAt, RevisionsOk;
    RunRevisions(members, events, i);
    RunRevisions(members, events[..i], 0);
    AnswerIsRecorded(Run(Initial(members), events[..i]), c, t);
    AnswerIsRecorded(Run(Initial(members), events), d, u);
  }

  // ---- Overlapping commits ----

  /** Position `i` is the last one that is not after `t`, or the last one of all. */
  predicate LastUpTo(history: seq<Point>, i: nat, t: int)
    requires i < |history|
  {
    i == |history| - 1 || history[i + 1].at > t
  }

  predicate SilentFrom(history: seq<Point>, t: int) {
    forall i :: 0 <= i < |history| && LastUpTo(history, i, t) ==> history[i].known.None?
  }

  /** The observer has given up on everything from `t`, or from the beginning of its epoch. */
  predicate GivenUp(s: State, t: int) {
    s.degraded && s.startedAt.Some?
    && (s.degradedAt.None? || s.degradedAt.value <= t || s.degradedAt.value <= s.startedAt.value)
  }

  /** Nothing is known about the crawler from `t` on, and nothing will be before it is anchored again. */
  predicate Dark(s: State, c: Crawler, t: int) {
    || s.startedAt.None? || GivenUp(s, t) || c !in s.tracks
    || (s.tracks[c].blocked && SilentFrom(s.tracks[c].history, t))
  }

  lemma {:induction false} SilentMeansUnknown(history: seq<Point>, t: int, u: int)
    requires Ordered(history) && SilentFrom(history, t) && u >= t
    ensures Underlying(history, u) == None
    decreases |history|
  {
    if history != [] {
      var n := |history| - 1;
      assert LastUpTo(history, n, t);
      if history[n].at > u {
        var rest := history[..n];
        forall i | 0 <= i < |rest| && LastUpTo(rest, i, t) ensures rest[i].known.None? {
          assert LastUpTo(history, i, t);
        }
        SilentMeansUnknown(rest, t, u);
      }
    }
  }

  lemma DarkMeansUnknown(s: State, c: Crawler, t: int, u: int)
    requires Sound(s) && Dark(s, c, t) && u >= t
    ensures ConfigAt(s, c, u) == None
  {
    if c in s.tracks && s.tracks[c].blocked && SilentFrom(s.tracks[c].history, t) {
      SilentMeansUnknown(s.tracks[c].history, t, u);
    }
  }

  lemma DropSilent(history: seq<Point>, t: int)
    requires SilentFrom(history, t) && history != []
    ensures SilentFrom(history[1..], t)
  {
    var rest := history[1..];
    forall i | 0 <= i < |rest| && LastUpTo(rest, i, t) ensures rest[i].known.None? {
      assert LastUpTo(history, i + 1, t);
    }
  }

  lemma PushSilent(k: Track, p: Point, t: int)
    requires SilentFrom(k.history, t) && p.known.None?
    ensures SilentFrom(Push(k, p).history, t)
  {
    var longer := k.history + [p];
    forall i | 0 <= i < |longer| && LastUpTo(longer, i, t) ensures longer[i].known.None? {
      assert i < |k.history| ==> LastUpTo(k.history, i, t);
    }
    DropSilent(longer, t);
  }

  /** A point without a value makes everything from its own time on silent. */
  lemma PushSilences(k: Track, p: Point)
    requires Ordered(k.history) && p.known.None? && (k.history != [] ==> k.history[|k.history| - 1].at <= p.at)
    ensures SilentFrom(Push(k, p).history, p.at)
  {
    var longer := k.history + [p];
    assert forall i :: 0 <= i < |longer| ==> longer[i].at <= p.at;
    forall i | 0 <= i < |longer| && LastUpTo(longer, i, p.at) ensures longer[i].known.None? {
    }
    DropSilent(longer, p.at);
  }

  lemma AppendDark(s: State, d: Crawler, p: Point, c: Crawler, t: int)
    requires Sound(s) && d in s.tracks && Dark(s, c, t) && (d == c && s.tracks[c].blocked ==> p.known.None?)
    ensures Dark(Append(s, d, p), c, t)
  {
    var k := s.tracks[d];
    if d == c && k.blocked && SilentFrom(k.history, t) && p.known.None? {
      PushSilent(k, p, t);
    }
    hide SilentFrom;
  }

  lemma UnknownDark(s: State, d: Crawler, at: int, c: Crawler, t: int)
    requires Sound(s) && d in s.tracks && Dark(s, c, t)
    ensures Dark(Unknown(s, d, at), c, t)
  {
    var s1 := s.(tracks := s.tracks[d := s.tracks[d].(generation := s.tracks[d].generation + 1, blocked := true)]);
    AppendDark(s1, d, Point(at, None), c, t);
  }

  lemma DegradeDark(s: State, at: int, id: CallId, c: Crawler, t: int)
    requires Sound(s) && Dark(s, c, t)
    ensures Dark(Degrade(s, at), c, t) && Dark(Finish(s, id), c, t)
  {
    hide SilentFrom;
  }

  lemma TouchDark(s: State, d: Crawler, c: Crawler, t: int)
    requires d in s.tracks && Dark(s, c, t)
    ensures Dark(Touch(s, d), c, t)
  {
    hide SilentFrom;
  }

  /** States that agree on what darkness is about. */
  predicate SameLight(s: State, t: State) {
    s.tracks == t.tracks && s.startedAt == t.startedAt && s.degraded == t.degraded && s.degradedAt == t.degradedAt
  }

  lemma SameLightDark(s: State, s': State, c: Crawler, t: int)
    requires Dark(s, c, t) && SameLight(s, s')
    ensures Dark(s', c, t)
  {
    hide SilentFrom;
  }

  lemma StartedDark(s: State, d: Crawler, requested: bool, id: CallId, now: int, c: Crawler, t: int)
    requires Sound(s) && d in s.tracks && Dark(s, c, t)
    ensures Dark(CommitStarted(s, d, requested, id, now), c, t)
  {
    hide Dark, Unknown, Degrade, Touch;
    DegradeDark(s, now, id, c, t);
    UnknownDark(s, d, now, c, t);
    SameCalls(s, d, now);
    var s1 := if Calling(s, d) then Unknown(s, d, now) else s;
    TouchDark(s1, d, c, t);
    SameLightDark(Touch(s1, d), Touch(s1, d).(inflight := s.inflight[id := Call(d, requested, now)]), c, t);
  }

  lemma AckDark(s: State, id: CallId, at: int, c: Crawler, t: int)
    requires Sound(s) && id in s.inflight && s.inflight[id].crawler in s.tracks && Dark(s, c, t)
    ensures Dark(CommitAck(s, id, at), c, t)
  {
    var d := s.inflight[id].crawler;
    DegradeDark(s, at, id, c, t);
    CommitAckForm(s, id, at);
    AckStateDark(s, id, at, c, t);
    var s1, p := AckState(s, id, at), AckPoint(s, id, at);
    AppendDark(s1, d, p, c, t);
    hide Dark, Append;
    FinishDark(Append(s1, d, p), id, c, t);
  }

  lemma FinishDark(s: State, id: CallId, c: Crawler, t: int)
    requires Dark(s, c, t)
    ensures Dark(Finish(s, id), c, t)
  {
    SameLightDark(s, Finish(s, id), c, t);
  }

  lemma AckStateDark(s: State, id: CallId, at: int, c: Crawler, t: int)
    requires Sound(s) && id in s.inflight && s.inflight[id].crawler in s.tracks && Dark(s, c, t)
    ensures Sound(AckState(s, id, at)) && Dark(AckState(s, id, at), c, t)
  {
    var d := s.inflight[id].crawler;
    assert TrackOk(s.tracks[d]);
    hide SilentFrom, Ordered;
  }

  /** Whether an event anchors this crawler again. */
  predicate Anchors(s: State, e: Event, c: Crawler) {
    e.BaselineEndFor? && e.crawler == c && Active(s, e.id) && Stable(s, s.baseline.value, e.ok, e.missing, c)
  }

  lemma EndForDark(s: State, b: Baseline, stable: bool, d: Crawler, now: int, c: Crawler, t: int)
    requires Sound(s) && d in s.tracks && (stable ==> d in b.rows && d != c) && Dark(s, c, t)
    ensures Dark(EndFor(s, b, stable, d, now), c, t)
  {
    if stable {
      var s1 := s.(tracks := s.tracks[d := s.tracks[d].(baseline := Some(b.id), number := 0, blocked := false)]);
      AppendDark(s1, d, Point(now, Some((b.rows[d], Revision(b.id, d, 0)))), c, t);
    } else {
      UnknownDark(s, d, now, c, t);
    }
  }

  lemma EpochDark(s: State, now: int, c: Crawler, t: int)
    ensures Dark(Effect(s, StartEpoch(now)), c, t)
  {
  }

  lemma LatchDark(s: State, now: int, c: Crawler, t: int)
    ensures Dark(Effect(s, Latched(now)), c, t)
  {
  }

  lemma EffectDark(s: State, e: Event, c: Crawler, t: int)
    requires Sound(s) && Dark(s, c, t) && !Anchors(s, e, c)
    ensures Dark(Effect(s, e), c, t)
  {
    hide Sound, Dark, Append, Unknown, Degrade, Touch, Finish, CommitStarted, CommitAck, Stable, EndFor, Fresh;
    match e {
      case StartEpoch(now) => EpochDark(s, now, c, t);
      case Started(d, requested, id, now) =>
        DegradeDark(s, now, id, c, t);
        if d in s.tracks { StartedDark(s, d, requested, id, now, c, t); }
      case NotEntered(id, _) =>
        if id in s.inflight && s.inflight[id].crawler in s.tracks {
          TouchDark(s, s.inflight[id].crawler, c, t);
          FinishDark(Touch(s, s.inflight[id].crawler), id, c, t);
        }
      case ResultUnknown(id, now) =>
        if id in s.inflight && s.inflight[id].crawler in s.tracks {
          UnknownDark(s, s.inflight[id].crawler, now, c, t);
          FinishDark(Unknown(s, s.inflight[id].crawler, now), id, c, t);
        }
      case Acknowledged(id, at, _) =>
        if id in s.inflight && s.inflight[id].crawler in s.tracks { AckDark(s, id, at, c, t); }
      case BaselineBegin(id, _) => SameLightDark(s, Effect(s, e), c, t);
      case BaselineRow(id, d, enabled, now) =>
        if d in s.tracks { UnknownDark(s, d, now, c, t); }
        SameLightDark(s, s.(baseline := Effect(s, e).baseline), c, t);
      case BaselineEndFor(id, d, ok, missing, now) =>
        if Active(s, id) && d in s.tracks && d in s.baseline.value.generations {
          var b := s.baseline.value;
          StableHasRow(s, b, ok, missing, d);
          EndForDark(s, b, Stable(s, b, ok, missing, d), d, now, c, t);
          SameLightDark(EndFor(s, b, Stable(s, b, ok, missing, d), d, now), Effect(s, e), c, t);
        }
      case BaselineClosed(id, _) => SameLightDark(s, Effect(s, e), c, t);
      case TrackingFailed(now, blind) => DegradeDark(s, FailureTime(s, now, blind), 0, c, t);
      case CrawlerFailed(d, now, blind) => if d in s.tracks { UnknownDark(s, d, FailureTime(s, now, blind), c, t); }
      case Latched(now) => LatchDark(s, now, c, t);
    }
  }

  /** A commit that starts while another of the same crawler is unfinished. */
  predicate Overlaps(s: State, e: Event) {
    e.Started? && e.crawler in s.tracks && !s.degraded && s.startedAt.Some? && Calling(s, e.crawler)
    && e.call !in s.inflight && e.call !in s.completed
  }

  lemma UnknownIsDark(s: State, c: Crawler, now: int)
    requires Sound(s) && c in s.tracks && s.startedAt.Some?
    ensures Dark(Unknown(s, c, now), c, now)
  {
    var k := s.tracks[c].(generation := s.tracks[c].generation + 1, blocked := true);
    assert TrackOk(s.tracks[c]);
    if k.history == [] || now >= k.history[|k.history| - 1].at {
      PushSilences(k, Point(now, None));
    }
    hide SilentFrom, TrackOk;
  }

  lemma OverlapIsDark(s: State, e: Event)
    requires Sound(s) && Overlaps(s, e)
    ensures Dark(Effect(s, e), e.crawler, e.now)
  {
    UnknownIsDark(s, e.crawler, e.now);
    SameCalls(s, e.crawler, e.now);
    hide Sound, SilentFrom, Unknown;
    if |s.inflight| < INFLIGHT_CAP {
      var s1 := Unknown(s, e.crawler, e.now);
      TouchDark(s1, e.crawler, e.crawler, e.now);
      SameLightDark(Touch(s1, e.crawler), Effect(s, e), e.crawler, e.now);
    }
  }

  lemma {:induction false} OverlapStaysDark(members: set<Crawler>, events: seq<Event>, i: nat)
    requires InTime(events) && i < |events| && Overlaps(Run(Initial(members), events[..i]), events[i])
    requires forall j :: i < j < |events| ==> !Anchors(Run(Initial(members), events[..j]), events[j], events[i].crawler)
    ensures Dark(Run(Initial(members), events), events[i].crawler, events[i].now)
    decreases |events|
  {
    hide Sound, Dark, Effect, Anchors, Calling, Initial;
    var before, last := events[..|events| - 1], events[|events| - 1];
    var s := Run(Initial(members), before);
    RunSound(members, before);
    if i == |events| - 1 {
      OverlapIsDark(s, last);
    } else {
      assert before[..i] == events[..i] && forall j :: i < j < |before| ==> before[..j] == events[..j];
      OverlapStaysDark(members, before, i);
      EffectDark(s, last, events[i].crawler, events[i].now);
    }
    SameLightDark(Effect(s, last), Run(Initial(members), events), events[i].crawler, events[i].now);
  }

  /** In every run: from the moment commits of one crawler overlap, and until a stable baseline anchors it again,
      nothing is affirmed about it for that moment or any later one. */
  lemma OverlapIsNotAffirmed(members: set<Crawler>, events: seq<Event>, i: nat, u: int)
    requires InTime(events) && i < |events| && Overlaps(Run(Initial(members), events[..i]), events[i])
    requires forall j :: i < j < |events| ==> !Anchors(Run(Initial(members), events[..j]), events[j], events[i].crawler)
    requires u >= events[i].now
    ensures ConfigAt(Run(Initial(members), events), events[i].crawler, u) == None
  {
    OverlapStaysDark(members, events, i);
    hide Sound, Dark, Run, ConfigAt;
    RunSound(members, events);
    DarkMeansUnknown(Run(Initial(members), events), events[i].crawler, events[i].now, u);
  }

  // ---- The observer ----

  /** The search for the point in effect, from the newest back. */
  method FindPoint(history: seq<Point>, t: int) returns (p: Option<Point>)
    ensures p == LastPoint(history, t)
  {
    var i := |history|;
    assert history[..i] == history;
    while i > 0
      invariant 0 <= i <= |history| && LastPoint(history, t) == LastPoint(history[..i], t)
    {
      i := i - 1;
      assert history[..i + 1][..i] == history[..i];
      if history[i].at <= t {
        return Some(history[i]);
      }
    }
    p := None;
  }

  /** Every member exactly once. */
  ghost predicate EachOnce(order: seq<Crawler>, members: set<Crawler>) {
    && (forall c :: c in order <==> c in members)
    && forall i, j :: 0 <= i < j < |order| ==> order[i] != order[j]
  }

  lemma OneMore(order: seq<Crawler>, members: set<Crawler>, c: Crawler)
    requires EachOnce(order, members) && c !in members
    ensures EachOnce(order + [c], members + {c})
  {
  }

  ghost function EndEvents(order: seq<Crawler>, id: BaselineId, ok: bool, missing: set<Crawler>, now: int): seq<Event> {
    seq(|order|, i requires 0 <= i < |order| => BaselineEndFor(id, order[i], ok, missing, now))
  }

  ghost function FailureEvents(order: seq<Crawler>, now: int): seq<Event> {
    seq(|order|, i requires 0 <= i < |order| => CrawlerFailed(order[i], now, false))
  }

  lemma RunNothing(s: State)
    ensures Run(s, []) == s
  {
  }

  lemma RunSnoc(s: State, events: seq<Event>, e: Event)
    ensures Run(s, events + [e]) == Step(Run(s, events), e)
  {
    assert (events + [e])[..|events|] == events;
  }

  class ConfigObserver {
    var state: State

    constructor (members: set<Crawler>)
      ensures state == Initial(members)
    {
      state := Initial(members);
    }

    method ConfigAtTime(c: Crawler, t: int) returns (answer: Option<(bool, Revision)>)
      ensures answer == ConfigAt(state, c, t)
    {
      if state.startedAt.None? || t < state.startedAt.value || DegradedBy(state, t) || c !in state.tracks {
        return None;
      }
      var k := state.tracks[c];
      if k.truncatedBefore.Some? && t < k.truncatedBefore.value {
        return None;
      }
      if Busy(state, c, t) {
        return None;
      }
      var p := FindPoint(k.history, t);
      answer := if p.Some? then p.value.known else None;
    }

    method CommitStartedHook(c: Crawler, requested: bool, id: CallId, now: int)
      modifies this
      ensures state == Step(old(state), Event.Started(c, requested, id, now))
    {
      hide Append, Push;
      if c !in state.tracks {
        state := Degrade(state, now);
      } else if !state.degraded && state.startedAt.Some? {
        if id in state.inflight || id in state.completed || |state.inflight| >= INFLIGHT_CAP {
          state := Degrade(state, now);
        } else {
          var inflight := state.inflight;
          SameCalls(state, c, now);
          if Calling(state, c) {
            state := Unknown(state, c, now);
          }
          state := Touch(state, c);
          state := state.(inflight := inflight[id := Call(c, requested, now)]);
        }
      }
      state := state.(clock := now);
    }

    method CommitAckHook(id: CallId, ackAt: int, now: int)
      modifies this
      ensures state == Step(old(state), Acknowledged(id, ackAt, now))
    {
      hide Append;
      if id in state.inflight && state.inflight[id].crawler in state.tracks {
        var call := state.inflight[id];
        if ackAt < call.startedAt {
          state := Degrade(state, ackAt);
        }
        var k := state.tracks[call.crawler];
        k := k.(generation := k.generation + 1, number := k.number + 1);
        state := state.(tracks := state.tracks[call.crawler := k]);
        var known := if k.blocked || k.baseline.None? then None
                     else Some((call.requested, Revision(k.baseline.value, call.crawler, k.number)));
        state := Append(state, call.crawler, Point(ackAt, known));
        state := Finish(state, id);
      }
      state := state.(clock := now);
    }

    /** The end of a baseline goes through all crawlers, each once, and then closes the baseline. */
    method BaselineEndHook(id: BaselineId, ok: bool, missing: set<Crawler>, now: int)
      returns (ghost order: seq<Crawler>)
      modifies this
      ensures EachOnce(order, old(state).tracks.Keys)
      ensures state == Run(old(state), EndEvents(order, id, ok, missing, now) + [BaselineClosed(id, now)])
    {
      hide Stable, EndFor, Effect, Run;
      order := [];
      RunNothing(state);
      assert EndEvents([], id, ok, missing, now) == [];
      var rest := state.tracks.Keys;
      while rest != {}
        invariant rest <= old(state).tracks.Keys && EachOnce(order, old(state).tracks.Keys - rest)
        invariant state == Run(old(state), EndEvents(order, id, ok, missing, now))
        decreases |rest|
      {
        var c :| c in rest;
        var e := BaselineEndFor(id, c, ok, missing, now);
        RunSnoc(old(state), EndEvents(order, id, ok, missing, now), e);
        assert EndEvents(order + [c], id, ok, missing, now) == EndEvents(order, id, ok, missing, now) + [e];
        OneMore(order, old(state).tracks.Keys - rest, c);
        assert old(state).tracks.Keys - (rest - {c}) == old(state).tracks.Keys - rest + {c};
        state := Step(state, e);
        order := order + [c];
        rest := rest - {c};
      }
      RunSnoc(old(state), EndEvents(order, id, ok, missing, now), BaselineClosed(id, now));
      state := Step(state, BaselineClosed(id, now));
      assert old(state).tracks.Keys - {} == old(state).tracks.Keys;
    }

    /** A row of the active baseline. One that names no known crawler fails, and its failure is one of every crawler. */
    method BaselineRowHook(id: BaselineId, c: Crawler, enabled: bool, now: int) returns (ghost order: seq<Crawler>)
      modifies this
      ensures c in old(state).tracks || !Active(old(state), id) ==>
                state == Step(old(state), BaselineRow(id, c, enabled, now))
      ensures c !in old(state).tracks && Active(old(state), id) ==>
                EachOnce(order, old(state).tracks.Keys) && state == Run(old(state), FailureEvents(order, now))
    {
      hide Unknown, Run;
      order := [];
      if !Active(state, id) {
      } else if c !in state.tracks {
        order := EveryCrawlerFailed(now);
        return;
      } else if c in state.baseline.value.rows {
        state := Unknown(state, c, now);
      } else {
        state := state.(baseline := Some(state.baseline.value.(rows := state.baseline.value.rows[c := enabled])));
      }
      state := state.(clock := now);
    }

    method EveryCrawlerFailed(now: int) returns (ghost order: seq<Crawler>)
      modifies this
      ensures EachOnce(order, old(state).tracks.Keys)
      ensures state == Run(old(state), FailureEvents(order, now))
    {
      hide Effect, Run;
      order := [];
      RunNothing(state);
      assert FailureEvents([], now) == [];
      var rest := state.tracks.Keys;
      while rest != {}
        invariant rest <= old(state).tracks.Keys && EachOnce(order, old(state).tracks.Keys - rest)
        invariant state == Run(old(state), FailureEvents(order, now))
        decreases |rest|
      {
        var c :| c in rest;
        var e := CrawlerFailed(c, now, false);
        RunSnoc(old(state), FailureEvents(order, now), e);
        assert FailureEvents(order + [c], now) == FailureEvents(order, now) + [e];
        OneMore(order, old(state).tracks.Keys - rest, c);
        assert old(state).tracks.Keys - (rest - {c}) == old(state).tracks.Keys - rest + {c};
        state := Step(state, e);
        order := order + [c];
        rest := rest - {c};
      }
      assert old(state).tracks.Keys - {} == old(state).tracks.Keys;
    }
  }
}
