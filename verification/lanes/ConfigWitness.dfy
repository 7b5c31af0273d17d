/** Where the answers of the configuration observer come from: each is what a row of a baseline said, or what a call
    that was acknowledged asked for, and nothing later contradicts it (app/collection_config_observer.py:177-332). */
module ConfigWitnesses {
  import opened Wrappers
  import opened ConfigObservers

  // ---- What the events say ----

  predicate Ends(e: Event, id: CallId) {
    match e
    case NotEntered(call, _) => call == id
    case ResultUnknown(call, _) => call == id
    case Acknowledged(call, _, _) => call == id
    case _ => false
  }

  /** The event that opened call `id`: the first to start it since the epoch began or the number was last ended. */
  function Opener(events: seq<Event>, id: CallId): (i: Option<nat>)
    ensures i.Some? ==> i.value < |events| && events[i.value].Started? && events[i.value].call == id
    decreases |events|
  {
    if events == [] then None
    else
      var e, earlier := events[|events| - 1], Opener(events[..|events| - 1], id);
      if e.StartEpoch? || Ends(e, id) then None
      else if e.Started? && e.call == id && earlier.None? then Some(|events| - 1)
      else earlier
  }

  /** A call of `c` is open under this number. */
  predicate OpenFor(events: seq<Event>, id: CallId, c: Crawler) {
    Opener(events, id).Some? && events[Opener(events, id).value].crawler == c
  }

  predicate Begun(events: seq<Event>, id: BaselineId) {
    exists i :: 0 <= i < |events| && events[i].BaselineBegin? && events[i].id == id
  }

  /** What the rows of a baseline that has begun say of `c`. */
  function Rows(events: seq<Event>, id: BaselineId, c: Crawler): seq<bool>
    decreases |events|
  {
    if events == [] then []
    else
      var e, earlier := events[|events| - 1], Rows(events[..|events| - 1], id, c);
      if e.BaselineRow? && e.id == id && e.crawler == c && Begun(events[..|events| - 1], id)
      then earlier + [e.enabled] else earlier
  }

  /** Since when holds what the event says. */
  function At(e: Event): int { if e.Acknowledged? then e.ackAt else e.now }

  /** Event `j` says of `c` that it is switched to `value`: it acknowledges a call that asked for this, or it ends a
      baseline whose one row for `c` said so. */
  predicate Evidence(events: seq<Event>, j: nat, c: Crawler, value: bool, r: Revision) {
    && j < |events| && r.crawler == c
    && match events[j]
       case Acknowledged(id, _, _) =>
         && r.number > 0 && OpenFor(events[..j], id, c) && events[Opener(events[..j], id).value].requested == value
       case BaselineEndFor(id, d, ok, missing, _) =>
         r.number == 0 && r.baseline == id && d == c && ok && c !in missing && Rows(events[..j], id, c) == [value]
       case _ => false
  }

  predicate InFlight(s: State, id: CallId, c: Crawler) { id in s.inflight && s.inflight[id].crawler == c }

  /** The baseline is open and has not ended for `c` yet. */
  predicate Awaited(s: State, id: BaselineId, c: Crawler) { Active(s, id) && c in s.baseline.value.generations }

  /** The event puts something about `c` on record that holds at `t`. */
  predicate Speaks(s: State, events: seq<Event>, e: Event, c: Crawler, t: int) {
    match e
    case StartEpoch(_) => true
    case Acknowledged(id, at, _) => at <= t && InFlight(s, id, c)
    case ResultUnknown(id, now) => now <= t && InFlight(s, id, c)
    case CrawlerFailed(d, now, blind) => d == c && (blind || now <= t)
    case BaselineRow(id, d, _, now) => d == c && now <= t && Active(s, id) && Rows(events, id, c) != []
    case BaselineEndFor(id, d, _, _, now) => d == c && now <= t && Awaited(s, id, c)
    case _ => false
  }

  ghost predicate SpeaksAt(members: set<Crawler>, events: seq<Event>, k: nat, c: Crawler, t: int)
    requires k < |events|
  {
    Speaks(Run(Initial(members), events[..k]), events[..k], events[k], c, t)
  }

  /** Event `j` is the last that says something of `c` at `t`, and this is what it says. */
  ghost predicate Witness(members: set<Crawler>, events: seq<Event>, j: nat, c: Crawler, t: int, value: bool,
                          r: Revision) {
    && j < |events| && At(events[j]) <= t && Evidence(events, j, c, value, r)
    && forall k: nat :: j < k < |events| ==> !SpeaksAt(members, events, k, c, t)
  }

  ghost predicate HasWitness(members: set<Crawler>, events: seq<Event>, c: Crawler, t: int, value: bool, r: Revision) {
    exists j: nat :: Witness(members, events, j, c, t, value, r)
  }

  // ---- What the state knows of the events ----

  /** Each call in flight was opened by its event; unless the observer is degraded, each call opened is in flight. */
  ghost predicate CallsTold(s: State, events: seq<Event>) {
    && (forall id :: id in s.inflight ==> CallTold(s, events, id))
    && (s.startedAt.Some? && !s.degraded ==> forall id :: Opener(events, id).Some? ==> id in s.inflight)
  }

  predicate CallTold(s: State, events: seq<Event>, id: CallId)
    requires id in s.inflight
  {
    && s.inflight[id].crawler in s.tracks && OpenFor(events, id, s.inflight[id].crawler)
    && s.inflight[id].requested == events[Opener(events, id).value].requested
    && s.inflight[id].startedAt == events[Opener(events, id).value].now
  }

  ghost predicate RowsTold(s: State, events: seq<Event>) {
    && (forall id :: id in s.begun <==> Begun(events, id))
    && (s.baseline.Some? ==> s.baseline.value.id in s.begun)
    && (s.baseline.Some? && s.baseline.value.open ==> forall c :: c in s.tracks ==> RowTold(s, events, c))
  }

  /** While nothing has happened to a crawler since its baseline began, the rows are those of the events. */
  predicate RowTold(s: State, events: seq<Event>, c: Crawler)
    requires s.baseline.Some? && c in s.tracks
  {
    var b := s.baseline.value;
    && (c in b.rows <==> Rows(events, b.id, c) != [])
    && (c in b.generations ==>
          && b.generations[c] <= s.tracks[c].generation
          && (b.generations[c] == s.tracks[c].generation && c in b.rows ==> Rows(events, b.id, c) == [b.rows[c]]))
  }

  // ---- What an event does to a timeline ----

  /** The point that an event puts on the timeline of `c`. */
  function Puts(s: State, e: Event, c: Crawler): Option<Point>
    requires c in s.tracks
  {
    match e
    case Started(d, _, id, now) =>
      if d == c && !s.degraded && s.startedAt.Some? && id !in s.inflight && id !in s.completed
         && |s.inflight| < INFLIGHT_CAP && Calling(s, c) then Some(Point(now, None)) else None
    case ResultUnknown(id, now) => if InFlight(s, id, c) then Some(Point(now, None)) else None
    case Acknowledged(id, at, _) => if InFlight(s, id, c) then Some(AckPoint(s, id, at)) else None
    case BaselineRow(id, d, _, now) =>
      if d == c && Active(s, id) && c in s.baseline.value.rows then Some(Point(now, None)) else None
    case BaselineEndFor(id, d, ok, missing, now) =>
      if d == c && Awaited(s, id, c) then
        Some(Point(now, if Stable(s, s.baseline.value, ok, missing, c)
                        then Some((s.baseline.value.rows[c], Revision(id, c, 0))) else None))
      else None
    case CrawlerFailed(d, now, blind) => if d == c then Some(Point(FailureTime(s, now, blind), None)) else None
    case _ => None
  }

  /** The history of `c` is what answers for `t` come from. */
  predicate Visible(s: State, c: Crawler, t: int) {
    && s.startedAt.Some? && s.startedAt.value <= t && !DegradedBy(s, t) && c in s.tracks
    && !(s.tracks[c].truncatedBefore.Some? && t < s.tracks[c].truncatedBefore.value)
  }

  function Shown(s: State, c: Crawler, t: int): Option<(bool, Revision)>
    requires c in s.tracks
  {
    Underlying(s.tracks[c].history, t)
  }

  /** Nothing new is said of `c` at `t`. */
  predicate NoNews(s: State, s': State, c: Crawler, t: int) {
    Visible(s', c, t) ==> Visible(s, c, t) && Shown(s', c, t) == Shown(s, c, t)
  }

  /** After the point only what it says is said, if it holds at `t`. */
  predicate Follows(s: State, s': State, c: Crawler, t: int, p: Option<Point>) {
    if p.Some? && p.value.at <= t then Visible(s', c, t) ==> Shown(s', c, t) == p.value.known
    else NoNews(s, s', c, t)
  }

  predicate CutAfter(k: Track, t: int) { k.truncatedBefore.Some? && t < k.truncatedBefore.value }

  lemma PushShows(k: Track, p: Point, t: int)
    requires TrackOk(k) && (k.history != [] ==> p.at >= k.history[|k.history| - 1].at) && !CutAfter(Push(k, p), t)
    ensures if p.at <= t then Underlying(Push(k, p).history, t) == p.known
            else !CutAfter(k, t) && Underlying(Push(k, p).history, t) == Underlying(k.history, t)
  {
    LastPointAppend(k.history, p, t);
    if |k.history + [p]| > HISTORY_CAP {
      PushOk(k, p);
      LastPointDrop(k.history + [p], t);
    }
    hide LastPoint;
  }

  lemma AppendFollows(s: State, d: Crawler, p: Point, c: Crawler, t: int)
    requires Sound(s) && d in s.tracks && c in s.tracks
    ensures Follows(s, Append(s, d, p), c, t, if d == c then Some(p) else None)
    ensures Append(s, d, p).tracks.Keys == s.tracks.Keys
  {
    hide TrackOk, Push, Underlying;
    var k := s.tracks[d];
    if d == c && (k.history == [] || p.at >= k.history[|k.history| - 1].at) && !CutAfter(Push(k, p), t) {
      PushShows(k, p, t);
    }
  }

  /** Nothing is shown that was not, and no history is touched. */
  predicate Untouched(s: State, s': State, c: Crawler, t: int) {
    && c in s.tracks && c in s'.tracks && s'.tracks[c].history == s.tracks[c].history
    && s'.tracks[c].truncatedBefore == s.tracks[c].truncatedBefore && s'.startedAt == s.startedAt
    && (s.startedAt.Some? && s.startedAt.value <= t && DegradedBy(s, t) ==> DegradedBy(s', t))
  }

  lemma UntouchedFollows(s: State, s': State, s'': State, c: Crawler, t: int, p: Option<Point>)
    requires Untouched(s, s', c, t) && Follows(s', s'', c, t, p)
    ensures Follows(s, s'', c, t, p)
  {
    hide LastPoint;
  }

  lemma FollowsUntouched(s: State, s': State, s'': State, c: Crawler, t: int, p: Option<Point>)
    requires c in s'.tracks && Follows(s, s', c, t, p) && Untouched(s', s'', c, t)
    ensures Follows(s, s'', c, t, p)
  {
    hide LastPoint;
  }

  function Blocked(s: State, d: Crawler): State
    requires d in s.tracks
  {
    s.(tracks := s.tracks[d := s.tracks[d].(generation := s.tracks[d].generation + 1, blocked := true)])
  }

  lemma BlockedUntouched(s: State, d: Crawler, c: Crawler, t: int)
    requires d in s.tracks && c in s.tracks
    ensures Untouched(s, Blocked(s, d), c, t) && SameHistory(s, Blocked(s, d))
  {
  }

  lemma UnknownFollows(s: State, d: Crawler, at: int, c: Crawler, t: int)
    requires Sound(s) && d in s.tracks && c in s.tracks
    ensures Follows(s, Unknown(s, d, at), c, t, if d == c then Some(Point(at, None)) else None)
    ensures Unknown(s, d, at).tracks.Keys == s.tracks.Keys
  {
    hide Append, Underlying, Sound, Follows, Untouched, SameHistory;
    BlockedUntouched(s, d, c, t);
    SameHistorySound(s, Blocked(s, d));
    AppendFollows(Blocked(s, d), d, Point(at, None), c, t);
    UntouchedFollows(s, Blocked(s, d), Unknown(s, d, at), c, t, if d == c then Some(Point(at, None)) else None);
  }

  lemma SameHistorySound(s: State, s': State)
    requires Sound(s) && SameHistory(s, s')
    ensures Sound(s')
  {
    forall d | d in s'.tracks ensures TrackOk(s'.tracks[d]) {
      assert TrackOk(s.tracks[d]);
    }
  }

  lemma StartedFollows(s: State, e: Event, c: Crawler, t: int)
    requires Sound(s) && c in s.tracks && e.Started? && e.crawler in s.tracks
    ensures Follows(s, CommitStarted(s, e.crawler, e.requested, e.call, e.now), c, t, Puts(s, e, c))
  {
    hide Sound, Unknown, LastPoint;
    UnknownFollows(s, e.crawler, e.now, c, t);
    var taken := !s.degraded && s.startedAt.Some? && e.call !in s.inflight && e.call !in s.completed
                 && |s.inflight| < INFLIGHT_CAP;
    var s' := CommitStarted(s, e.crawler, e.requested, e.call, e.now);
    if taken {
      var s1 := if Calling(s, e.crawler) then Unknown(s, e.crawler, e.now) else s;
      assert Follows(s, s1, c, t, Puts(s, e, c));
      FollowsUntouched(s, s1, s', c, t, Puts(s, e, c));
    } else {
      assert Untouched(s, s', c, t);
    }
  }

  lemma AckFollows(s: State, id: CallId, at: int, c: Crawler, t: int)
    requires Sound(s) && c in s.tracks && id in s.inflight && s.inflight[id].crawler in s.tracks
    ensures Follows(s, CommitAck(s, id, at), c, t,
                    if s.inflight[id].crawler == c then Some(AckPoint(s, id, at)) else None)
  {
    var d, s1, p := s.inflight[id].crawler, AckState(s, id, at), AckPoint(s, id, at);
    CommitAckForm(s, id, at);
    AckStateSound(s, id, at);
    AppendFollows(s1, d, p, c, t);
    hide Sound, Append, LastPoint, CommitAck, AckPoint;
    UntouchedFollows(s, s1, Append(s1, d, p), c, t, if d == c then Some(p) else None);
    FollowsUntouched(s, Append(s1, d, p), CommitAck(s, id, at), c, t, if d == c then Some(p) else None);
  }

  lemma AckStateSound(s: State, id: CallId, at: int)
    requires Sound(s) && id in s.inflight && s.inflight[id].crawler in s.tracks
    ensures Sound(AckState(s, id, at))
    ensures forall c, t :: c in s.tracks ==> Untouched(s, AckState(s, id, at), c, t)
    ensures AckState(s, id, at).tracks.Keys == s.tracks.Keys
  {
    var s1 := if at < s.inflight[id].startedAt then Degrade(s, at) else s;
    assert Sound(s1) by { hide TrackOk; }
    hide Sound;
    SameHistorySound(s1, AckState(s, id, at));
  }

  lemma EndFollows(s: State, b: Baseline, stable: bool, d: Crawler, now: int, c: Crawler, t: int)
    requires Sound(s) && c in s.tracks && d in s.tracks && (stable ==> d in b.rows)
    ensures Follows(s, EndFor(s, b, stable, d, now), c, t,
                    if d == c then Some(Point(now, if stable then Some((b.rows[d], Revision(b.id, d, 0))) else None))
                    else None)
    ensures EndFor(s, b, stable, d, now).tracks.Keys == s.tracks.Keys
  {
    if stable {
      var s1 := s.(tracks := s.tracks[d := s.tracks[d].(baseline := Some(b.id), number := 0, blocked := false)]);
      var p := Point(now, Some((b.rows[d], Revision(b.id, d, 0))));
      SameHistorySound(s, s1);
      AppendFollows(s1, d, p, c, t);
      hide Sound, Append, LastPoint;
      UntouchedFollows(s, s1, Append(s1, d, p), c, t, if d == c then Some(p) else None);
    } else {
      UnknownFollows(s, d, now, c, t);
    }
  }

  lemma LatchedUntouched(s: State, now: int, c: Crawler, t: int)
    requires c in s.tracks
    ensures Untouched(s, Effect(s, Latched(now)), c, t)
  {
  }

  lemma DegradeUntouched(s: State, at: int, c: Crawler, t: int)
    requires Sound(s) && c in s.tracks
    ensures Untouched(s, Degrade(s, at), c, t) && Degrade(s, at).tracks == s.tracks
  {
  }

  lemma UntouchedIsQuiet(s: State, s': State, c: Crawler, t: int)
    requires Untouched(s, s', c, t)
    ensures Follows(s, s', c, t, None)
  {
    hide LastPoint;
  }

  lemma EndedFollows(s: State, s': State, id: CallId, c: Crawler, t: int, p: Option<Point>)
    requires c in s'.tracks && Follows(s, s', c, t, p)
    ensures Follows(s, Finish(s', id), c, t, p)
  {
    hide Follows;
    FollowsUntouched(s, s', Finish(s', id), c, t, p);
  }

  /** The parts of the state that a timeline depends on. */
  predicate SameTimes(s: State, t: State) {
    s.startedAt == t.startedAt && s.degraded == t.degraded && s.degradedAt == t.degradedAt && s.tracks == t.tracks
  }

  lemma SameTimesFollow(s: State, s': State, s'': State, c: Crawler, t: int, p: Option<Point>)
    requires c in s.tracks && c in s'.tracks && Follows(s, s', c, t, p) && SameTimes(s', s'')
    ensures Follows(s, s'', c, t, p)
  {
    hide LastPoint;
  }

  lemma EffectFollows(s: State, e: Event, c: Crawler, t: int)
    requires Sound(s) && c in s.tracks && !e.StartEpoch?
    ensures Follows(s, Effect(s, e), c, t, Puts(s, e, c))
  {
    hide Sound, Append, Unknown, Degrade, Touch, Finish, CommitStarted, CommitAck, Stable, EndFor, Follows, Untouched,
         AckPoint, Calling;
    SameIsQuiet(s, c, t);
    match e {
      case Started(d, requested, id, now) =>
        if d in s.tracks {
          StartedFollows(s, e, c, t);
        } else {
          DegradeUntouched(s, now, c, t);
          UntouchedIsQuiet(s, Degrade(s, now), c, t);
        }
      case NotEntered(id, _) =>
        if id in s.inflight && s.inflight[id].crawler in s.tracks {
          NotEnteredUntouched(s, id, c, t);
          UntouchedIsQuiet(s, Effect(s, e), c, t);
        }
      case ResultUnknown(id, now) =>
        if id in s.inflight && s.inflight[id].crawler in s.tracks {
          UnknownFollows(s, s.inflight[id].crawler, now, c, t);
          EndedFollows(s, Unknown(s, s.inflight[id].crawler, now), id, c, t, Puts(s, e, c));
        }
      case Acknowledged(id, at, _) =>
        if id in s.inflight && s.inflight[id].crawler in s.tracks { AckFollows(s, id, at, c, t); }
      case BaselineBegin(id, _) => SameTimesFollow(s, s, Effect(s, e), c, t, None);
      case BaselineRow(id, d, enabled, now) =>
        if d in s.tracks { UnknownFollows(s, d, now, c, t); }
        if Effect(s, e) == s.(baseline := Effect(s, e).baseline) { SameTimesFollow(s, s, Effect(s, e), c, t, None); }
      case BaselineEndFor(_, _, _, _, _) => BaselineEndFollows(s, e, c, t);
      case BaselineClosed(id, _) => SameTimesFollow(s, s, Effect(s, e), c, t, None);
      case TrackingFailed(now, blind) =>
        DegradeUntouched(s, FailureTime(s, now, blind), c, t);
        UntouchedIsQuiet(s, Effect(s, e), c, t);
      case CrawlerFailed(d, now, blind) => if d in s.tracks { UnknownFollows(s, d, FailureTime(s, now, blind), c, t); }
      case Latched(now) =>
        LatchedUntouched(s, now, c, t);
        UntouchedIsQuiet(s, Effect(s, e), c, t);
    }
  }

  lemma SameIsQuiet(s: State, c: Crawler, t: int)
    requires c in s.tracks
    ensures Follows(s, s, c, t, None)
  {
    hide LastPoint;
  }

  lemma BaselineEndFollows(s: State, e: Event, c: Crawler, t: int)
    requires Sound(s) && c in s.tracks && e.BaselineEndFor?
    ensures Follows(s, Effect(s, e), c, t, Puts(s, e, c))
  {
    hide Sound, Append, Unknown, Degrade, Stable, EndFor, Follows, Calling;
    SameIsQuiet(s, c, t);
    if Active(s, e.id) && e.crawler in s.tracks && e.crawler in s.baseline.value.generations {
      var b := s.baseline.value;
      var stable := Stable(s, b, e.ok, e.missing, e.crawler);
      StableHasRow(s, b, e.ok, e.missing, e.crawler);
      EndFollows(s, b, stable, e.crawler, e.now, c, t);
      SameTimesFollow(s, EndFor(s, b, stable, e.crawler, e.now), Effect(s, e), c, t, Puts(s, e, c));
    }
  }

  lemma NotEnteredUntouched(s: State, id: CallId, c: Crawler, t: int)
    requires id in s.inflight && s.inflight[id].crawler in s.tracks && c in s.tracks
    ensures Untouched(s, Finish(Touch(s, s.inflight[id].crawler), id), c, t)
  {
  }

  // ---- Calls ----

  lemma OpenerAppend(events: seq<Event>, e: Event, id: CallId)
    ensures Opener(events + [e], id)
            == if e.StartEpoch? || Ends(e, id) then None
               else if e.Started? && e.call == id && Opener(events, id).None? then Some(|events|)
               else Opener(events, id)
  {
    assert (events + [e])[..|events|] == events;
  }

  /** The call is taken up. */
  predicate Taken(s: State, e: Event)
    requires e.Started?
  {
    && e.crawler in s.tracks && !s.degraded && s.startedAt.Some? && e.call !in s.inflight && e.call !in s.completed
    && |s.inflight| < INFLIGHT_CAP
  }

  /** What an event does to the calls in flight, and what it leaves alone. */
  predicate CallsMove(s: State, s': State, e: Event) {
    && s'.tracks.Keys == s.tracks.Keys
    && (!e.StartEpoch? ==> s'.startedAt == s.startedAt && (s.degraded ==> s'.degraded))
    && match e
       case StartEpoch(now) => s'.inflight == map[] && s'.startedAt == Some(now) && !s'.degraded
       case Started(c, requested, id, now) =>
         if Taken(s, e) then s'.inflight == s.inflight[id := Call(c, requested, now)]
         else s'.inflight == s.inflight && (s.startedAt.None? || s'.degraded)
       case NotEntered(id, _) => s'.inflight == s.inflight - {id}
       case ResultUnknown(id, _) => s'.inflight == s.inflight - {id}
       case Acknowledged(id, _, _) => s'.inflight == s.inflight - {id}
       case _ => s'.inflight == s.inflight
  }

  ghost predicate CrawlersKnown(s: State) { forall id :: id in s.inflight ==> s.inflight[id].crawler in s.tracks }

  /** No crawler is lost, and generations do not fall. */
  predicate Grown(s: State, s': State) {
    && s'.tracks.Keys == s.tracks.Keys
    && forall c :: c in s.tracks ==> s.tracks[c].generation <= s'.tracks[c].generation
  }

  lemma AppendCalls(s: State, c: Crawler, p: Point)
    requires c in s.tracks
    ensures var s' := Append(s, c, p);
            && s'.tracks.Keys == s.tracks.Keys && s'.startedAt == s.startedAt && s'.inflight == s.inflight
            && (s.degraded ==> s'.degraded) && s'.baseline == s.baseline && s'.begun == s.begun
            && s'.tracks[c].generation == s.tracks[c].generation
            && (forall d :: d in s.tracks && d != c ==> s'.tracks[d] == s.tracks[d])
  {
  }

  lemma UnknownCalls(s: State, c: Crawler, at: int)
    requires c in s.tracks
    ensures var s' := Unknown(s, c, at);
            && s'.tracks.Keys == s.tracks.Keys && s'.startedAt == s.startedAt && s'.inflight == s.inflight
            && (s.degraded ==> s'.degraded) && s'.baseline == s.baseline && s'.begun == s.begun
            && s'.tracks[c].generation == s.tracks[c].generation + 1
            && (forall d :: d in s.tracks && d != c ==> s'.tracks[d] == s.tracks[d])
  {
    hide Append;
    AppendCalls(Blocked(s, c), c, Point(at, None));
  }

  lemma AckCalls(s: State, id: CallId, at: int)
    requires id in s.inflight && s.inflight[id].crawler in s.tracks
    ensures var c, s' := s.inflight[id].crawler, CommitAck(s, id, at);
            && s'.tracks.Keys == s.tracks.Keys && s'.startedAt == s.startedAt && s'.inflight == s.inflight - {id}
            && (s.degraded ==> s'.degraded) && s'.baseline == s.baseline && s'.begun == s.begun
            && s'.tracks[c].generation == s.tracks[c].generation + 1
            && (forall d :: d in s.tracks && d != c ==> s'.tracks[d] == s.tracks[d])
  {
    hide Append, CommitAck, AckPoint;
    CommitAckForm(s, id, at);
    AppendCalls(AckState(s, id, at), s.inflight[id].crawler, AckPoint(s, id, at));
  }

  lemma StartedCalls(s: State, e: Event)
    requires e.Started? && e.crawler in s.tracks
    ensures var c, s' := e.crawler, CommitStarted(s, e.crawler, e.requested, e.call, e.now);
            && CallsMove(s, s', e) && s'.baseline == s.baseline && s'.begun == s.begun
            && s'.tracks[c].generation >= s.tracks[c].generation
            && (forall d :: d in s.tracks && d != c ==> s'.tracks[d] == s.tracks[d])
            && (s'.tracks[c].generation == s.tracks[c].generation ==> s'.tracks == s.tracks)
  {
    hide Unknown, Calling;
    UnknownCalls(s, e.crawler, e.now);
  }

  lemma EndCalls(s: State, b: Baseline, stable: bool, c: Crawler, now: int)
    requires c in s.tracks && (stable ==> c in b.rows)
    ensures var s' := EndFor(s, b, stable, c, now);
            && Grown(s, s') && s'.startedAt == s.startedAt && s'.inflight == s.inflight
            && (s.degraded ==> s'.degraded) && s'.baseline == s.baseline && s'.begun == s.begun
            && (forall d :: d in s.tracks && d != c ==> s'.tracks[d] == s.tracks[d])
  {
    hide Append, Unknown;
    UnknownCalls(s, c, now);
    if stable {
      AppendCalls(s.(tracks := s.tracks[c := s.tracks[c].(baseline := Some(b.id), number := 0, blocked := false)]), c,
                  Point(now, Some((b.rows[c], Revision(b.id, c, 0)))));
    }
  }

  lemma CallEndsCalls(s: State, e: Event)
    requires CrawlersKnown(s) && (e.NotEntered? || e.ResultUnknown? || e.Acknowledged?)
    ensures CallsMove(s, Step(s, e), e)
  {
    hide Unknown, CommitAck;
    if e.call in s.inflight {
      UnknownCalls(s, s.inflight[e.call].crawler, e.now);
      if e.Acknowledged? { AckCalls(s, e.call, e.ackAt); }
    }
  }

  lemma EffectCalls(s: State, e: Event)
    requires CrawlersKnown(s)
    ensures CallsMove(s, Step(s, e), e)
  {
    hide Append, Unknown, CommitStarted, CommitAck, Stable, EndFor;
    match e {
      case Started(c, _, _, _) => if c in s.tracks { StartedCalls(s, e); }
      case NotEntered(_, _) => CallEndsCalls(s, e);
      case ResultUnknown(_, _) => CallEndsCalls(s, e);
      case Acknowledged(_, _, _) => CallEndsCalls(s, e);
      case BaselineRow(_, c, _, now) => if c in s.tracks { UnknownCalls(s, c, now); }
      case CrawlerFailed(c, now, blind) => if c in s.tracks { UnknownCalls(s, c, FailureTime(s, now, blind)); }
      case BaselineEndFor(_, _, _, _, _) => EndEventCalls(s, e);
      case _ =>
    }
  }

  lemma EndEventCalls(s: State, e: Event)
    requires e.BaselineEndFor?
    ensures CallsMove(s, Step(s, e), e) && Grown(s, Step(s, e))
    ensures Step(s, e).begun == s.begun
    ensures Step(s, e).baseline
            == if Active(s, e.id) && e.crawler in s.tracks && e.crawler in s.baseline.value.generations
               then Some(s.baseline.value.(generations := s.baseline.value.generations - {e.crawler})) else s.baseline
    ensures forall d :: d in s.tracks && d != e.crawler ==> Step(s, e).tracks[d] == s.tracks[d]
  {
    hide Append, Unknown, Stable, EndFor;
    if Active(s, e.id) && e.crawler in s.tracks {
      var b := s.baseline.value;
      StableHasRow(s, b, e.ok, e.missing, e.crawler);
      EndCalls(s, b, Stable(s, b, e.ok, e.missing, e.crawler), e.crawler, e.now);
    }
  }

  lemma CallsStep(s: State, events: seq<Event>, e: Event)
    requires CallsTold(s, events)
    ensures CallsTold(Step(s, e), events + [e])
  {
    hide Step;
    assert forall id :: id in s.inflight ==> CallTold(s, events, id);
    EffectCalls(s, e);
    var s' := Step(s, e);
    forall id | id in s'.inflight ensures CallTold(s', events + [e], id) {
      OpenerAppend(events, e, id);
      if id in s.inflight { assert CallTold(s, events, id); }
    }
    if s'.startedAt.Some? && !s'.degraded {
      forall id | Opener(events + [e], id).Some? ensures id in s'.inflight {
        OpenerAppend(events, e, id);
      }
    }
  }

  // ---- Rows ----

  lemma RowsAppend(events: seq<Event>, e: Event, id: BaselineId, c: Crawler)
    ensures Rows(events + [e], id, c)
            == Rows(events, id, c) + if e.BaselineRow? && e.id == id && e.crawler == c && Begun(events, id)
                                     then [e.enabled] else []
  {
    assert (events + [e])[..|events|] == events;
  }

  lemma BegunAppend(events: seq<Event>, e: Event, id: BaselineId)
    ensures Begun(events + [e], id) <==> Begun(events, id) || (e.BaselineBegin? && e.id == id)
  {
    assert (events + [e])[|events|] == e;
    if Begun(events, id) {
      var i :| 0 <= i < |events| && events[i].BaselineBegin? && events[i].id == id;
      assert (events + [e])[i] == events[i];
    }
  }

  lemma {:induction false} RowsUnbegun(events: seq<Event>, id: BaselineId, c: Crawler)
    requires !Begun(events, id)
    ensures Rows(events, id, c) == []
    decreases |events|
  {
    if events != [] {
      var earlier := events[..|events| - 1];
      assert events == earlier + [events[|events| - 1]];
      BegunAppend(earlier, events[|events| - 1], id);
      RowsUnbegun(earlier, id, c);
    }
  }

  lemma RowsKeep(s: State, s': State, events: seq<Event>, e: Event)
    requires RowsTold(s, events) && !e.BaselineBegin? && !e.BaselineRow?
    requires s'.baseline == s.baseline && s'.begun == s.begun && Grown(s, s')
    ensures RowsTold(s', events + [e])
  {
    hide Rows, Begun;
    forall id ensures Begun(events + [e], id) == Begun(events, id) { BegunAppend(events, e, id); }
    if s.baseline.Some? {
      forall c | c in s.tracks
        ensures Rows(events + [e], s.baseline.value.id, c) == Rows(events, s.baseline.value.id, c)
                && (s.baseline.value.open ==> RowTold(s', events + [e], c))
      {
        RowsAppend(events, e, s.baseline.value.id, c);
        assert s.baseline.value.open ==> RowTold(s, events, c);
      }
    }
  }

  lemma RowsBegin(s: State, events: seq<Event>, e: Event)
    requires RowsTold(s, events) && e.BaselineBegin?
    ensures RowsTold(Step(s, e), events + [e])
  {
    hide Rows, Begun;
    var s' := Step(s, e);
    forall id ensures Begun(events + [e], id) <==> Begun(events, id) || id == e.id { BegunAppend(events, e, id); }
    if s'.baseline.Some? {
      forall c | c in s.tracks
        ensures s'.baseline.value.open ==> RowTold(s', events + [e], c)
      {
        RowsAppend(events, e, s'.baseline.value.id, c);
        if e.id in s.begun {
          assert s.baseline.value.open ==> RowTold(s, events, c);
        } else {
          RowsUnbegun(events, e.id, c);
        }
      }
    }
  }

  lemma RowFields(s: State, e: Event)
    requires e.BaselineRow?
    ensures var s' := Step(s, e);
            && s'.begun == s.begun && s'.tracks.Keys == s.tracks.Keys
            && (if Active(s, e.id) && e.crawler in s.tracks && e.crawler !in s.baseline.value.rows
                then s'.tracks == s.tracks
                     && s'.baseline == Some(s.baseline.value.(rows := s.baseline.value.rows[e.crawler := e.enabled]))
                else s'.baseline == s.baseline && Grown(s, s'))
            && (Active(s, e.id) && e.crawler in s.tracks && e.crawler in s.baseline.value.rows ==>
                  s'.tracks[e.crawler].generation > s.tracks[e.crawler].generation)
  {
    hide Unknown;
    if e.crawler in s.tracks { UnknownCalls(s, e.crawler, e.now); }
  }

  lemma RowsRow(s: State, events: seq<Event>, e: Event)
    requires RowsTold(s, events) && e.BaselineRow?
    ensures RowsTold(Step(s, e), events + [e])
  {
    hide Rows, Begun, Step;
    var s' := Step(s, e);
    RowFields(s, e);
    forall id ensures Begun(events + [e], id) == Begun(events, id) { BegunAppend(events, e, id); }
    if s.baseline.Some? && s.baseline.value.open {
      forall c | c in s.tracks ensures RowTold(s', events + [e], c) {
        RowsAppend(events, e, s.baseline.value.id, c);
        assert RowTold(s, events, c);
      }
    }
  }

  lemma RowsEnd(s: State, events: seq<Event>, e: Event)
    requires RowsTold(s, events) && (e.BaselineEndFor? || e.BaselineClosed? || e.StartEpoch?)
    ensures RowsTold(Step(s, e), events + [e])
  {
    hide Rows, Begun, EndFor, Stable, Step;
    var s' := Step(s, e);
    EndFields(s, e);
    forall id ensures Begun(events + [e], id) == Begun(events, id) { BegunAppend(events, e, id); }
    if s.baseline.Some? && s.baseline.value.open {
      forall c | c in s.tracks
        ensures s'.baseline.Some? && s'.baseline.value.open ==> c in s'.tracks && RowTold(s', events + [e], c)
      {
        RowsAppend(events, e, s.baseline.value.id, c);
        assert RowTold(s, events, c);
      }
    }
  }

  lemma EndFields(s: State, e: Event)
    requires e.BaselineEndFor? || e.BaselineClosed? || e.StartEpoch?
    ensures var s' := Step(s, e);
            && s'.begun == s.begun && s'.tracks.Keys == s.tracks.Keys
            && (s'.baseline.Some? ==>
                  && s.baseline.Some? && s'.baseline.value.id == s.baseline.value.id && Grown(s, s')
                  && s'.baseline.value.rows == s.baseline.value.rows
                  && (s'.baseline.value.open ==> s.baseline.value.open)
                  && (forall c :: c in s'.baseline.value.generations ==>
                        c in s.baseline.value.generations
                        && s'.baseline.value.generations[c] == s.baseline.value.generations[c]))
  {
    hide EndFor, Stable;
    if e.BaselineEndFor? {
      EndEventCalls(s, e);
    }
  }

  lemma RowsStep(s: State, events: seq<Event>, e: Event)
    requires RowsTold(s, events) && CrawlersKnown(s)
    ensures RowsTold(Step(s, e), events + [e])
  {
    if e.BaselineBegin? {
      RowsBegin(s, events, e);
    } else if e.BaselineRow? {
      RowsRow(s, events, e);
    } else if e.BaselineEndFor? || e.BaselineClosed? || e.StartEpoch? {
      RowsEnd(s, events, e);
    } else {
      hide RowsTold;
      OtherRows(s, e);
      RowsKeep(s, Step(s, e), events, e);
    }
  }

  lemma OtherRows(s: State, e: Event)
    requires CrawlersKnown(s)
    requires !e.BaselineBegin? && !e.BaselineRow? && !e.BaselineEndFor? && !e.BaselineClosed? && !e.StartEpoch?
    ensures var s' := Step(s, e); s'.baseline == s.baseline && s'.begun == s.begun && Grown(s, s')
  {
    hide Append, Unknown, CommitStarted, CommitAck;
    match e {
      case Started(c, _, _, _) => if c in s.tracks { StartedCalls(s, e); }
      case ResultUnknown(id, now) => if id in s.inflight { UnknownCalls(s, s.inflight[id].crawler, now); }
      case Acknowledged(id, at, _) => if id in s.inflight { AckCalls(s, id, at); }
      case CrawlerFailed(c, now, blind) => if c in s.tracks { UnknownCalls(s, c, FailureTime(s, now, blind)); }
      case _ =>
    }
  }

  // ---- Runs ----

  ghost predicate Told(s: State, events: seq<Event>) { CallsTold(s, events) && RowsTold(s, events) }

  lemma {:induction false} RunTold(members: set<Crawler>, events: seq<Event>)
    ensures Told(Run(Initial(members), events), events)
    decreases |events|
  {
    if events != [] {
      var last := |events| - 1;
      RunTold(members, events[..last]);
      assert events == events[..last] + [events[last]];
      var s := Run(Initial(members), events[..last]);
      KnownCrawlers(s, events[..last]);
      hide Step, CallsTold, RowsTold;
      CallsStep(s, events[..last], events[last]);
      RowsStep(s, events[..last], events[last]);
    }
  }

  lemma KnownCrawlers(s: State, events: seq<Event>)
    requires CallsTold(s, events)
    ensures CrawlersKnown(s)
  {
    assert forall id :: id in s.inflight ==> CallTold(s, events, id);
  }

  // ---- Evidence ----

  lemma PointHasEvidence(s: State, events: seq<Event>, e: Event, c: Crawler, value: bool, r: Revision)
    requires Told(s, events) && c in s.tracks
    requires Puts(s, e, c).Some? && Puts(s, e, c).value.known == Some((value, r))
    ensures Evidence(events + [e], |events|, c, value, r) && At(e) == Puts(s, e, c).value.at
  {
    assert (events + [e])[..|events|] == events;
    if e.Acknowledged? {
      assert CallTold(s, events, e.call);
      assert (events + [e])[Opener(events, e.call).value] == events[Opener(events, e.call).value];
    } else {
      assert e.BaselineEndFor? && RowTold(s, events, c);
    }
  }

  lemma SpeakingPuts(s: State, events: seq<Event>, e: Event, c: Crawler, t: int)
    requires Told(s, events) && c in s.tracks && s.startedAt.Some? && s.startedAt.value <= t
    requires Speaks(s, events, e, c, t) && !e.StartEpoch?
    ensures Puts(s, e, c).Some? && Puts(s, e, c).value.at <= t
  {
    if e.BaselineRow? {
      assert RowTold(s, events, c);
    }
  }

  lemma EvidenceStays(events: seq<Event>, e: Event, j: nat, c: Crawler, value: bool, r: Revision)
    requires Evidence(events, j, c, value, r)
    ensures Evidence(events + [e], j, c, value, r) && (events + [e])[j] == events[j]
  {
    assert (events + [e])[..j] == events[..j];
    hide Opener, Rows;
    if events[j].Acknowledged? {
      var i := Opener(events[..j], events[j].call).value;
      assert (events + [e])[i] == events[..j][i];
    }
  }

  lemma WitnessStays(members: set<Crawler>, events: seq<Event>, e: Event, j: nat, c: Crawler, t: int, value: bool,
                     r: Revision)
    requires Witness(members, events, j, c, t, value, r)
    requires !Speaks(Run(Initial(members), events), events, e, c, t)
    ensures Witness(members, events + [e], j, c, t, value, r)
  {
    hide Run, Speaks, Evidence;
    EvidenceStays(events, e, j, c, value, r);
    forall k: nat | j < k < |events + [e]| ensures !SpeaksAt(members, events + [e], k, c, t) {
      assert (events + [e])[..k] == events[..k];
      if k == |events| {
        assert events[..k] == events;
      } else {
        assert !SpeaksAt(members, events, k, c, t);
      }
    }
  }

  /** What is shown of `c` at `t` has a witness. */
  ghost predicate ShownHasWitness(members: set<Crawler>, events: seq<Event>, c: Crawler, t: int) {
    var s := Run(Initial(members), events);
    Visible(s, c, t) && Shown(s, c, t).Some? ==>
      HasWitness(members, events, c, t, Shown(s, c, t).value.0, Shown(s, c, t).value.1)
  }

  lemma NewWitness(members: set<Crawler>, events: seq<Event>, e: Event, c: Crawler, t: int, value: bool, r: Revision)
    requires var s := Run(Initial(members), events);
             c in s.tracks && Told(s, events) && Puts(s, e, c).Some? && Puts(s, e, c).value.at <= t
             && Puts(s, e, c).value.known == Some((value, r))
    ensures HasWitness(members, events + [e], c, t, value, r)
  {
    hide Run, Evidence, Told, Puts;
    PointHasEvidence(Run(Initial(members), events), events, e, c, value, r);
    assert Witness(members, events + [e], |events|, c, t, value, r);
  }

  lemma StepFollows(s: State, e: Event, c: Crawler, t: int)
    requires Sound(s) && CrawlersKnown(s) && c in s.tracks
    ensures e.StartEpoch? ==> c in Step(s, e).tracks && Shown(Step(s, e), c, t) == None
    ensures !e.StartEpoch? ==> Follows(s, Step(s, e), c, t, Puts(s, e, c)) && c in Step(s, e).tracks
  {
    hide Sound, Puts, Follows, Effect;
    if !e.StartEpoch? {
      EffectFollows(s, e, c, t);
      EffectCalls(s, e);
      SameTimesFollow(s, Effect(s, e), Step(s, e), c, t, Puts(s, e, c));
    } else {
      EpochShows(s, e, c, t);
    }
  }

  lemma EpochShows(s: State, e: Event, c: Crawler, t: int)
    requires e.StartEpoch? && c in s.tracks
    ensures c in Step(s, e).tracks && Shown(Step(s, e), c, t) == None
  {
  }

  lemma WitnessStep(members: set<Crawler>, events: seq<Event>, e: Event, c: Crawler, t: int)
    requires var s := Run(Initial(members), events); Told(s, events) && Sound(s) && c in s.tracks
    requires ShownHasWitness(members, events, c, t) && Run(Initial(members), events + [e])
                                                       == Step(Run(Initial(members), events), e)
    ensures ShownHasWitness(members, events + [e], c, t)
  {
    hide Run, Sound, Step, HasWitness, Puts, CallsTold, RowsTold, Speaks, LastPoint;
    var s := Run(Initial(members), events);
    KnownCrawlers(s, events);
    StepFollows(s, e, c, t);
    var s' := Step(s, e);
    if Visible(s', c, t) && Shown(s', c, t).Some? {
      var (value, r) := Shown(s', c, t).value;
      var p := Puts(s, e, c);
      if p.Some? && p.value.at <= t {
        NewWitness(members, events, e, c, t, value, r);
      } else {
        OldWitness(members, events, e, c, t, value, r);
      }
    }
  }

  lemma OldWitness(members: set<Crawler>, events: seq<Event>, e: Event, c: Crawler, t: int, value: bool, r: Revision)
    requires var s := Run(Initial(members), events);
             && Told(s, events) && c in s.tracks && Visible(s, c, t) && !e.StartEpoch?
             && !(Puts(s, e, c).Some? && Puts(s, e, c).value.at <= t)
    requires HasWitness(members, events, c, t, value, r)
    ensures HasWitness(members, events + [e], c, t, value, r)
  {
    hide Run, Witness, Told, Puts, Speaks;
    if Speaks(Run(Initial(members), events), events, e, c, t) {
      SpeakingPuts(Run(Initial(members), events), events, e, c, t);
    }
    var j: nat :| Witness(members, events, j, c, t, value, r);
    WitnessStays(members, events, e, j, c, t, value, r);
  }

  lemma {:induction false} RunMembers(members: set<Crawler>, events: seq<Event>)
    ensures Run(Initial(members), events).tracks.Keys == members
    decreases |events|
  {
    if events != [] {
      var last := |events| - 1;
      var s := Run(Initial(members), events[..last]);
      RunMembers(members, events[..last]);
      RunTold(members, events[..last]);
      KnownCrawlers(s, events[..last]);
      hide Step;
      EffectCalls(s, events[last]);
    }
  }

  lemma NothingShown(members: set<Crawler>, c: Crawler, t: int)
    ensures ShownHasWitness(members, [], c, t)
  {
  }

  lemma EarlierInTime(events: seq<Event>, k: nat)
    requires InTime(events) && k <= |events|
    ensures InTime(events[..k])
  {
  }

  lemma {:induction false} RunShown(members: set<Crawler>, events: seq<Event>, c: Crawler, t: int)
    requires InTime(events) && c in members
    ensures ShownHasWitness(members, events, c, t)
    decreases |events|
  {
    hide Run, ShownHasWitness, Told, Sound, InTime;
    if events == [] {
      NothingShown(members, c, t);
    } else {
      var earlier := events[..|events| - 1];
      EarlierInTime(events, |events| - 1);
      RunShown(members, earlier, c, t);
      RunSound(members, earlier);
      RunTold(members, earlier);
      RunMembers(members, earlier);
      RunSnoc(Initial(members), earlier, events[|events| - 1]);
      assert events == earlier + [events[|events| - 1]];
      WitnessStep(members, earlier, events[|events| - 1], c, t);
    }
  }

  /** In every run whatever is affirmed of a moment was said by an event: by the acknowledgement of a call that asked
      for it, or by the end of a baseline whose one row said so; and no event that the observer has taken up since says
      anything else of that moment. */
  lemma AnswerHasWitness(members: set<Crawler>, events: seq<Event>, c: Crawler, t: int, value: bool, r: Revision)
    requires InTime(events) && ConfigAt(Run(Initial(members), events), c, t) == Some((value, r))
    ensures HasWitness(members, events, c, t, value, r)
  {
    hide Run, HasWitness;
    RunMembers(members, events);
    RunShown(members, events, c, t);
  }

  // ---- Acknowledgements that are dated properly ----

  /** Each call is acknowledged for a moment between its start and the acknowledgement. */
  predicate WellDated(events: seq<Event>, e: Event) {
    e.Acknowledged? && Opener(events, e.call).Some? ==>
      events[Opener(events, e.call).value].now <= e.ackAt <= e.now
  }

  ghost predicate AllWellDated(events: seq<Event>) {
    forall k: nat :: k < |events| ==> WellDated(events[..k], events[k])
  }

  /** Whatever was given up stays given up, and nothing is given up from a later moment on. */
  ghost predicate Worse(s: State, s': State, now: int) {
    && s'.startedAt == s.startedAt
    && (forall t :: s.startedAt.Some? && s.startedAt.value <= t && DegradedBy(s, t) ==> DegradedBy(s', t))
    && (NotAhead(s, now) ==> NotAhead(s', now))
  }

  predicate NotAhead(s: State, now: int) { s.degraded && s.degradedAt.Some? ==> s.degradedAt.value <= now }

  lemma DegradeWorse(s: State, at: int, now: int)
    requires Sound(s) && at <= now
    ensures Worse(s, Degrade(s, at), now) && DegradedBy(Degrade(s, at), now)
  {
  }

  lemma AppendWorse(s: State, c: Crawler, p: Point, now: int)
    requires Sound(s) && c in s.tracks && p.at <= now
    ensures Worse(s, Append(s, c, p), now)
  {
    DegradeWorse(s, p.at, now);
  }

  lemma UnknownWorse(s: State, c: Crawler, at: int, now: int)
    requires Sound(s) && c in s.tracks && at <= now
    ensures Worse(s, Unknown(s, c, at), now)
  {
    SameHistorySound(s, Blocked(s, c));
    AppendWorse(Blocked(s, c), c, Point(at, None), now);
    hide Append, Sound;
  }

  lemma StartedWorse(s: State, e: Event)
    requires Sound(s) && e.Started? && e.crawler in s.tracks
    ensures var s' := CommitStarted(s, e.crawler, e.requested, e.call, e.now);
            && Worse(s, s', e.now)
            && (!Taken(s, e) && !s.degraded && s.startedAt.Some? ==> DegradedBy(s', e.now))
  {
    hide Unknown, Calling, Sound;
    DegradeWorse(s, e.now, e.now);
    UnknownWorse(s, e.crawler, e.now, e.now);
  }

  lemma AckWorse(s: State, id: CallId, at: int, now: int)
    requires Sound(s) && id in s.inflight && s.inflight[id].crawler in s.tracks && at <= now
    ensures Worse(s, CommitAck(s, id, at), now)
  {
    CommitAckForm(s, id, at);
    AckStateSound(s, id, at);
    AppendWorse(AckState(s, id, at), s.inflight[id].crawler, AckPoint(s, id, at), now);
    DegradeWorse(s, at, now);
    hide Sound, Append, CommitAck, AckPoint;
  }

  lemma EndWorse(s: State, e: Event)
    requires Sound(s) && e.BaselineEndFor?
    ensures Worse(s, Step(s, e), e.now)
  {
    hide Append, Unknown, Sound;
    if Active(s, e.id) && e.crawler in s.tracks {
      var b, c := s.baseline.value, e.crawler;
      UnknownWorse(s, c, e.now, e.now);
      if c in b.rows {
        var s1 := s.(tracks := s.tracks[c := s.tracks[c].(baseline := Some(b.id), number := 0, blocked := false)]);
        SameHistorySound(s, s1);
        AppendWorse(s1, c, Point(e.now, Some((b.rows[c], Revision(b.id, c, 0)))), e.now);
      }
    }
  }

  /** What is dated later than an event is not given up by it. */
  predicate DatedBy(s: State, e: Event) {
    && (e.Acknowledged? && e.call in s.inflight ==> e.ackAt <= e.now)
    && (s.startedAt.Some? ==> s.startedAt.value <= e.now) && e.now >= 0
  }

  lemma StartedEventWorse(s: State, e: Event)
    requires Sound(s) && e.Started?
    ensures Worse(s, Step(s, e), e.now)
    ensures !Taken(s, e) && !s.degraded && s.startedAt.Some? ==> DegradedBy(Step(s, e), e.now)
  {
    hide CommitStarted, Sound, Degrade;
    DegradeWorse(s, e.now, e.now);
    if e.crawler in s.tracks { StartedWorse(s, e); }
  }

  lemma CallEndsWorse(s: State, e: Event)
    requires Sound(s) && CrawlersKnown(s) && DatedBy(s, e) && (e.NotEntered? || e.ResultUnknown? || e.Acknowledged?)
    ensures Worse(s, Step(s, e), e.now)
  {
    hide Unknown, CommitAck, Sound, Degrade;
    if e.call in s.inflight {
      UnknownWorse(s, s.inflight[e.call].crawler, e.now, e.now);
      if e.Acknowledged? { AckWorse(s, e.call, e.ackAt, e.now); }
    }
  }

  lemma EffectWorse(s: State, e: Event)
    requires Sound(s) && CrawlersKnown(s) && DatedBy(s, e) && !e.StartEpoch?
    ensures Worse(s, Step(s, e), e.now)
    ensures e.Started? && !Taken(s, e) && !s.degraded && s.startedAt.Some? ==> DegradedBy(Step(s, e), e.now)
  {
    hide Append, Unknown, CommitStarted, CommitAck, EndFor, Stable, Sound, Degrade;
    match e {
      case Started(_, _, _, _) => StartedEventWorse(s, e);
      case NotEntered(_, _) => CallEndsWorse(s, e);
      case ResultUnknown(_, _) => CallEndsWorse(s, e);
      case Acknowledged(_, _, _) => CallEndsWorse(s, e);
      case BaselineRow(_, c, _, now) => if c in s.tracks { UnknownWorse(s, c, now, now); }
      case BaselineEndFor(_, _, _, _, _) => EndWorse(s, e);
      case CrawlerFailed(c, now, blind) => if c in s.tracks { UnknownWorse(s, c, FailureTime(s, now, blind), now); }
      case TrackingFailed(now, blind) => DegradeWorse(s, FailureTime(s, now, blind), now);
      case _ =>
    }
  }

  /** A call that was opened and is not in flight was started when the observer had given up already. */
  ghost predicate MissedTold(s: State, events: seq<Event>) {
    && NotAhead(s, s.clock) && s.clock >= 0
    && (s.startedAt.Some? ==>
          && s.startedAt.value <= s.clock
          && forall id :: Opener(events, id).Some? ==> OpenedInEpoch(s, events, id))
  }

  predicate OpenedInEpoch(s: State, events: seq<Event>, id: CallId)
    requires s.startedAt.Some? && Opener(events, id).Some?
  {
    var now := events[Opener(events, id).value].now;
    s.startedAt.value <= now && (id !in s.inflight ==> DegradedBy(s, now))
  }

  lemma MissedOne(s: State, s': State, events: seq<Event>, e: Event, id: CallId)
    requires MissedTold(s, events) && e.now >= s.clock && !e.StartEpoch? && s.startedAt.Some?
    requires Worse(s, s', e.now) && CallsMove(s, s', e) && Opener(events + [e], id).Some?
    requires e.Started? && !Taken(s, e) && !s.degraded ==> DegradedBy(s', e.now)
    requires !s.degraded ==> forall c :: Opener(events, c).Some? ==> c in s.inflight
    ensures OpenedInEpoch(s', events + [e], id)
  {
    OpenerAppend(events, e, id);
    hide Opener;
    if Opener(events, id).Some? {
      assert OpenedInEpoch(s, events, id);
      assert (events + [e])[Opener(events, id).value] == events[Opener(events, id).value];
    } else if s.degraded {
      assert DegradedBy(s, e.now);
    }
  }

  lemma MissedStep(s: State, events: seq<Event>, e: Event)
    requires Sound(s) && CallsTold(s, events) && MissedTold(s, events) && WellDated(events, e) && e.now >= s.clock
    ensures MissedTold(Step(s, e), events + [e])
  {
    hide Step, Sound, DegradedBy;
    KnownCrawlers(s, events);
    EffectCalls(s, e);
    StepClock(s, e);
    if !e.StartEpoch? {
      if e.Acknowledged? && e.call in s.inflight { assert CallTold(s, events, e.call); }
      EffectWorse(s, e);
      var s' := Step(s, e);
      if s.startedAt.Some? {
        forall id | Opener(events + [e], id).Some? ensures OpenedInEpoch(s', events + [e], id) {
          MissedOne(s, s', events, e, id);
        }
      }
    } else {
      forall id ensures Opener(events + [e], id) == None { OpenerAppend(events, e, id); }
    }
  }

  lemma StepClock(s: State, e: Event)
    ensures Step(s, e).clock == e.now && (e.StartEpoch? ==> !Step(s, e).degraded && Step(s, e).startedAt == Some(e.now))
  {
    hide Append, Unknown, CommitStarted, CommitAck, EndFor, Stable, Degrade;
  }

  lemma EarlierWellDated(events: seq<Event>, k: nat)
    requires AllWellDated(events) && k <= |events|
    ensures AllWellDated(events[..k])
  {
    forall i: nat | i < k ensures WellDated(events[..k][..i], events[..k][i]) {
      assert events[..k][..i] == events[..i] && WellDated(events[..i], events[i]);
    }
  }

  lemma NothingMissed(members: set<Crawler>)
    ensures MissedTold(Initial(members), [])
  {
  }

  lemma {:induction false} RunMissed(members: set<Crawler>, events: seq<Event>)
    requires InTime(events) && AllWellDated(events)
    ensures MissedTold(Run(Initial(members), events), events)
    decreases |events|
  {
    hide Step, Run, MissedTold, Sound, CallsTold, RowsTold, WellDated;
    if events == [] {
      RunNothing(Initial(members));
      NothingMissed(members);
    } else {
      var earlier, e := events[..|events| - 1], events[|events| - 1];
      EarlierInTime(events, |events| - 1);
      EarlierWellDated(events, |events| - 1);
      RunMissed(members, earlier);
      RunSound(members, earlier);
      RunTold(members, earlier);
      assert events == earlier + [e];
      RunSnoc(Initial(members), earlier, e);
      assert WellDated(events[..|events| - 1], events[|events| - 1]);
      MissedStep(Run(Initial(members), earlier), earlier, e);
    }
  }

  lemma {:induction false} StaysGivenUp(members: set<Crawler>, events: seq<Event>, k: nat, t: int)
    requires InTime(events) && AllWellDated(events) && k <= |events|
    requires forall i :: k <= i < |events| ==> !events[i].StartEpoch?
    ensures var s, s' := Run(Initial(members), events[..k]), Run(Initial(members), events);
            s'.startedAt == s.startedAt
            && (s.startedAt.Some? && s.startedAt.value <= t && DegradedBy(s, t) ==> DegradedBy(s', t))
    decreases |events|
  {
    hide Step, Run, MissedTold, Sound, CallsTold, RowsTold, WellDated, DegradedBy, InTime;
    if k == |events| {
      assert events[..k] == events;
    } else {
      var earlier, e := events[..|events| - 1], events[|events| - 1];
      var s := Run(Initial(members), earlier);
      assert earlier[..k] == events[..k];
      EarlierInTime(events, |events| - 1);
      EarlierWellDated(events, |events| - 1);
      StaysGivenUp(members, earlier, k, t);
      assert events == earlier + [e];
      RunSnoc(Initial(members), earlier, e);
      StepIsWorse(members, earlier, e);
    }
  }

  lemma StepIsWorse(members: set<Crawler>, events: seq<Event>, e: Event)
    requires InTime(events + [e]) && AllWellDated(events + [e]) && !e.StartEpoch?
    ensures var s := Run(Initial(members), events); Worse(s, Step(s, e), e.now)
  {
    var all := events + [e];
    assert all[..|events|] == events && WellDated(all[..|events|], all[|events|]);
    EarlierInTime(all, |events|);
    EarlierWellDated(all, |events|);
    RunMissed(members, events);
    RunSound(members, events);
    RunTold(members, events);
    var s := Run(Initial(members), events);
    KnownCrawlers(s, events);
    if e.Acknowledged? && e.call in s.inflight { assert CallTold(s, events, e.call); }
    hide Step, Run, Sound;
    EffectWorse(s, e);
  }

  /** Event `k` acknowledges a call of `c` for a moment up to `t`. */
  predicate Acks(events: seq<Event>, k: nat, c: Crawler, t: int)
    requires k < |events|
  {
    events[k].Acknowledged? && events[k].ackAt <= t && OpenFor(events[..k], events[k].call, c)
  }

  /** Event `j` is the last that says something of `c` at `t`, and no call of `c` was open by then. */
  ghost predicate Latest(events: seq<Event>, j: nat, c: Crawler, t: int, value: bool, r: Revision) {
    && j < |events| && At(events[j]) <= t && Evidence(events, j, c, value, r)
    && (forall k: nat :: j < k < |events| ==> !events[k].StartEpoch? && !Acks(events, k, c, t))
    && (forall id :: OpenFor(events, id, c) ==> events[Opener(events, id).value].now > t)
  }

  /** A call that was open at `t` and is not in flight is one that the observer has missed, having given up by then. */
  lemma OpenMeansDark(members: set<Crawler>, events: seq<Event>, id: CallId, c: Crawler, t: int)
    requires InTime(events) && AllWellDated(events)
    requires OpenFor(events, id, c) && events[Opener(events, id).value].now <= t
    ensures var s := Run(Initial(members), events);
            s.startedAt.Some? && s.startedAt.value <= t ==>
              (InFlight(s, id, c) && s.inflight[id].startedAt <= t) || DegradedBy(s, t)
  {
    var s := Run(Initial(members), events);
    RunMissed(members, events);
    RunTold(members, events);
    hide Run, Opener;
    if s.startedAt.Some? {
      assert OpenedInEpoch(s, events, id);
      if id in s.inflight {
        assert CallTold(s, events, id);
      }
    }
  }

  lemma NoLaterAck(members: set<Crawler>, events: seq<Event>, k: nat, c: Crawler, t: int)
    requires InTime(events) && AllWellDated(events) && k < |events| && Acks(events, k, c, t)
    requires forall i :: k <= i < |events| ==> !events[i].StartEpoch?
    requires ConfigAt(Run(Initial(members), events), c, t).Some?
    ensures SpeaksAt(members, events, k, c, t)
  {
    var s, e := Run(Initial(members), events[..k]), events[k];
    EarlierInTime(events, k);
    EarlierWellDated(events, k);
    StaysGivenUp(members, events, k, t);
    hide Run, Opener;
    assert WellDated(events[..k], e);
    assert events[..k][Opener(events[..k], e.call).value] == events[Opener(events[..k], e.call).value];
    OpenMeansDark(members, events[..k], e.call, c, t);
  }

  /** In every run in which calls are acknowledged for a moment between their start and their acknowledgement: what is
      affirmed of a moment was said of it by an event, of the present epoch; no call that was acknowledged later was
      acknowledged for this moment or an earlier one, and no call was open by then. */
  lemma AnswerIsLatest(members: set<Crawler>, events: seq<Event>, c: Crawler, t: int, value: bool, r: Revision)
    requires InTime(events) && AllWellDated(events)
    requires ConfigAt(Run(Initial(members), events), c, t) == Some((value, r))
    ensures exists j: nat :: Latest(events, j, c, t, value, r)
  {
    hide Run, InTime, AllWellDated, Evidence;
    var s := Run(Initial(members), events);
    AnswerHasWitness(members, events, c, t, value, r);
    var j: nat :| Witness(members, events, j, c, t, value, r);
    forall k: nat | j < k < |events| ensures !events[k].StartEpoch? {
      assert !SpeaksAt(members, events, k, c, t);
    }
    forall k: nat | j < k < |events| ensures !Acks(events, k, c, t) {
      if Acks(events, k, c, t) {
        NoLaterAck(members, events, k, c, t);
      }
    }
    forall id | OpenFor(events, id, c) ensures events[Opener(events, id).value].now > t {
      if events[Opener(events, id).value].now <= t {
        OpenMeansDark(members, events, id, c, t);
      }
    }
    assert Latest(events, j, c, t, value, r);
  }
}
