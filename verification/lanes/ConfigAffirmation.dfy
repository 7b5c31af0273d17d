/** What the configuration observer affirms, when it gives up, and how acknowledgements that are dated badly mislead it
    (app/collection_config_observer.py:118-332). */
module ConfigAffirmations {
  import opened Wrappers
  import opened ConfigObservers
  import opened ConfigWitnesses

  // ---- What is affirmed ----

  /** A crawler that is anchored shows the revision counted last; one that is not shows nothing. */
  predicate TrackTold(k: Track, c: Crawler) {
    if k.blocked || k.history == [] then k.blocked && (k.history != [] ==> k.history[|k.history| - 1].known == None)
    else
      && k.baseline.Some? && k.history[|k.history| - 1].known.Some?
      && k.history[|k.history| - 1].known.value.1 == Revision(k.baseline.value, c, k.number)
  }

  ghost predicate TracksTold(s: State) {
    !s.degraded ==> forall c :: c in s.tracks ==> TrackTold(s.tracks[c], c)
  }

  lemma PushLast(k: Track, p: Point)
    ensures Push(k, p).history != [] && Push(k, p).history[|Push(k, p).history| - 1] == p
    ensures Push(k, p) == k.(history := Push(k, p).history, truncatedBefore := Push(k, p).truncatedBefore)
  {
  }

  lemma AppendTold(s: State, c: Crawler, p: Point)
    requires c in s.tracks
    requires !s.degraded ==> forall d :: d in s.tracks && d != c ==> TrackTold(s.tracks[d], d)
    requires if s.tracks[c].blocked then p.known == None
             else s.tracks[c].baseline.Some? && p.known.Some?
                  && p.known.value.1 == Revision(s.tracks[c].baseline.value, c, s.tracks[c].number)
    ensures TracksTold(Append(s, c, p))
  {
    PushLast(s.tracks[c], p);
    hide Push;
  }

  lemma UnknownTold(s: State, c: Crawler, at: int)
    requires c in s.tracks && TracksTold(s)
    ensures TracksTold(Unknown(s, c, at))
  {
    AppendTold(Blocked(s, c), c, Point(at, None));
    hide Append;
  }

  lemma AckTold(s: State, id: CallId, at: int)
    requires id in s.inflight && s.inflight[id].crawler in s.tracks && TracksTold(s)
    ensures TracksTold(CommitAck(s, id, at))
  {
    CommitAckForm(s, id, at);
    var s1, c, p := AckState(s, id, at), s.inflight[id].crawler, AckPoint(s, id, at);
    hide Append, CommitAck;
    if !s1.degraded {
      assert TrackTold(s.tracks[c], c);
      AppendTold(s1, c, p);
    } else {
      AppendCalls(s1, c, p);
    }
  }

  lemma EndTold(s: State, b: Baseline, stable: bool, c: Crawler, now: int)
    requires c in s.tracks && (stable ==> c in b.rows) && TracksTold(s)
    ensures TracksTold(EndFor(s, b, stable, c, now))
  {
    hide Append, Unknown;
    if stable {
      AppendTold(s.(tracks := s.tracks[c := s.tracks[c].(baseline := Some(b.id), number := 0, blocked := false)]), c,
                 Point(now, Some((b.rows[c], Revision(b.id, c, 0)))));
    } else {
      UnknownTold(s, c, now);
    }
  }

  lemma TouchTold(s: State, c: Crawler)
    requires c in s.tracks && TracksTold(s)
    ensures TracksTold(Touch(s, c))
  {
  }

  lemma StartedTold(s: State, e: Event)
    requires e.Started? && e.crawler in s.tracks && TracksTold(s)
    ensures TracksTold(CommitStarted(s, e.crawler, e.requested, e.call, e.now))
  {
    hide Unknown, Calling, Touch, TrackTold;
    UnknownTold(s, e.crawler, e.now);
    UnknownCalls(s, e.crawler, e.now);
    TouchTold(if Calling(s, e.crawler) then Unknown(s, e.crawler, e.now) else s, e.crawler);
  }

  lemma TracksStep(s: State, e: Event)
    requires CrawlersKnown(s) && TracksTold(s)
    ensures TracksTold(Step(s, e))
  {
    hide Append, Unknown, CommitStarted, CommitAck, EndFor, Stable;
    match e {
      case Started(c, _, _, _) => if c in s.tracks { StartedTold(s, e); }
      case ResultUnknown(id, now) => if id in s.inflight { UnknownTold(s, s.inflight[id].crawler, now); }
      case Acknowledged(id, at, _) => if id in s.inflight { AckTold(s, id, at); }
      case BaselineRow(_, c, _, now) => if c in s.tracks { UnknownTold(s, c, now); }
      case BaselineEndFor(id, c, ok, missing, now) =>
        if Active(s, id) && c in s.tracks {
          StableHasRow(s, s.baseline.value, ok, missing, c);
          EndTold(s, s.baseline.value, Stable(s, s.baseline.value, ok, missing, c), c, now);
        }
      case CrawlerFailed(c, now, blind) => if c in s.tracks { UnknownTold(s, c, FailureTime(s, now, blind)); }
      case _ =>
    }
  }

  lemma {:induction false} RunTracks(members: set<Crawler>, events: seq<Event>)
    ensures TracksTold(Run(Initial(members), events))
    decreases |events|
  {
    hide Step, Run;
    if events == [] {
      RunNothing(Initial(members));
    } else {
      var earlier, e := events[..|events| - 1], events[|events| - 1];
      assert events == earlier + [e];
      RunTracks(members, earlier);
      RunTold(members, earlier);
      RunSnoc(Initial(members), earlier, e);
      KnownCrawlers(Run(Initial(members), earlier), earlier);
      TracksStep(Run(Initial(members), earlier), e);
    }
  }

  // ---- When the observer gives up ----

  /** Something is on record for `c` that holds from a later moment on. */
  predicate Behind(s: State, c: Crawler, at: int) {
    && c in s.tracks && s.tracks[c].history != []
    && at < s.tracks[c].history[|s.tracks[c].history| - 1].at
  }

  /** The event is more than the observer can keep track of, or goes back in time. */
  predicate TooMuch(s: State, e: Event) {
    match e
    case StartEpoch(_) => false
    case Started(c, _, id, now) =>
      || c !in s.tracks
      || (s.startedAt.Some? && (id in s.inflight || id in s.completed || |s.inflight| >= 256
                                || (Calling(s, c) && Behind(s, c, now))))
    case NotEntered(_, _) => false
    case ResultUnknown(id, now) => id in s.inflight && Behind(s, s.inflight[id].crawler, now)
    case Acknowledged(id, at, _) =>
      id in s.inflight && (at < s.inflight[id].startedAt || Behind(s, s.inflight[id].crawler, at))
    case BaselineBegin(_, _) => false
    case BaselineRow(id, c, _, now) => Active(s, id) && c in s.baseline.value.rows && Behind(s, c, now)
    case BaselineEndFor(id, c, _, _, now) => Awaited(s, id, c) && Behind(s, c, now)
    case BaselineClosed(_, _) => false
    case TrackingFailed(_, _) => true
    case CrawlerFailed(c, now, blind) => Behind(s, c, FailureTime(s, now, blind))
    case Latched(_) => true
  }

  lemma AppendDegrades(s: State, c: Crawler, p: Point)
    requires c in s.tracks
    ensures Append(s, c, p).degraded <==> s.degraded || Behind(s, c, p.at)
  {
    hide Push;
  }

  lemma UnknownDegrades(s: State, c: Crawler, at: int)
    requires c in s.tracks
    ensures Unknown(s, c, at).degraded <==> s.degraded || Behind(s, c, at)
  {
    hide Append;
    AppendDegrades(Blocked(s, c), c, Point(at, None));
  }

  lemma AckDegrades(s: State, id: CallId, at: int)
    requires id in s.inflight && s.inflight[id].crawler in s.tracks
    ensures CommitAck(s, id, at).degraded
            <==> s.degraded || at < s.inflight[id].startedAt || Behind(s, s.inflight[id].crawler, at)
  {
    hide Append, CommitAck, AckPoint;
    CommitAckForm(s, id, at);
    AppendDegrades(AckState(s, id, at), s.inflight[id].crawler, AckPoint(s, id, at));
    AckKeepsTracks(s, id, at);
  }

  lemma EndDegrades(s: State, b: Baseline, stable: bool, c: Crawler, now: int)
    requires c in s.tracks && (stable ==> c in b.rows)
    ensures EndFor(s, b, stable, c, now).degraded <==> s.degraded || Behind(s, c, now)
  {
    hide Append, Unknown;
    UnknownDegrades(s, c, now);
    if stable {
      AppendDegrades(Anchored(s, b.id, c), c, Point(now, Some((b.rows[c], Revision(b.id, c, 0)))));
    }
  }

  lemma StepDegrades(s: State, e: Event)
    requires CrawlersKnown(s)
    ensures Step(s, e).degraded <==> !e.StartEpoch? && (s.degraded || TooMuch(s, e))
  {
    hide Append, Unknown, CommitAck, EndFor, Stable, Calling, Behind;
    match e {
      case Started(c, _, _, now) => if c in s.tracks { UnknownDegrades(s, c, now); }
      case ResultUnknown(id, now) => if id in s.inflight { UnknownDegrades(s, s.inflight[id].crawler, now); }
      case Acknowledged(id, at, _) => if id in s.inflight { AckDegrades(s, id, at); }
      case BaselineRow(_, c, _, now) => RowDegrades(s, c, now);
      case BaselineEndFor(id, c, ok, missing, now) =>
        RowDegrades(s, c, now);
        if Active(s, id) && c in s.tracks {
          StableHasRow(s, s.baseline.value, ok, missing, c);
          EndDegrades(s, s.baseline.value, Stable(s, s.baseline.value, ok, missing, c), c, now);
        }
      case CrawlerFailed(c, now, blind) => RowDegrades(s, c, FailureTime(s, now, blind));
      case _ =>
    }
  }

  lemma RowDegrades(s: State, c: Crawler, at: int)
    ensures c in s.tracks ==> (Unknown(s, c, at).degraded <==> s.degraded || Behind(s, c, at))
    ensures c !in s.tracks ==> !Behind(s, c, at)
  {
    hide Unknown;
    if c in s.tracks { UnknownDegrades(s, c, at); }
  }

  /** In every run the observer gives up exactly at an event that is too much for it, and only a new epoch ends that. */
  lemma DegradesExactlyWhen(members: set<Crawler>, events: seq<Event>, e: Event)
    ensures var s := Run(Initial(members), events);
            Run(Initial(members), events + [e]).degraded <==> !e.StartEpoch? && (s.degraded || TooMuch(s, e))
  {
    hide Run, Step, TooMuch, CallsTold, RowsTold;
    RunTold(members, events);
    KnownCrawlers(Run(Initial(members), events), events);
    RunSnoc(Initial(members), events, e);
    StepDegrades(Run(Initial(members), events), e);
  }

  /** What is kept is bounded, and nothing is cut off a history before the bound is reached. */
  ghost predicate Bounded(s: State) {
    && |s.inflight| <= 256 && |s.completed| <= 4096
    && forall c :: c in s.tracks ==> TrackBounded(s.tracks[c])
  }

  predicate TrackBounded(k: Track) { |k.history| <= 1024 && (k.truncatedBefore.Some? ==> |k.history| == 1024) }

  /** The parts of the state that are bounded are those of another, with fewer calls in flight. */
  ghost predicate NoLarger(s: State, t: State) {
    && t.tracks.Keys == s.tracks.Keys && |t.inflight| <= |s.inflight| && |t.completed| <= |s.completed|
    && forall c :: c in s.tracks ==> t.tracks[c].history == s.tracks[c].history
                                     && t.tracks[c].truncatedBefore == s.tracks[c].truncatedBefore
  }

  lemma AppendBounded(s: State, c: Crawler, p: Point)
    requires Bounded(s) && c in s.tracks
    ensures Bounded(Append(s, c, p))
  {
    assert TrackBounded(s.tracks[c]);
  }

  lemma NoLargerBounded(s: State, t: State)
    requires Bounded(s) && NoLarger(s, t)
    ensures Bounded(t)
  {
    forall c | c in t.tracks ensures TrackBounded(t.tracks[c]) {
      assert TrackBounded(s.tracks[c]);
    }
  }

  lemma FinishBounded(s: State, id: CallId)
    requires Bounded(s)
    ensures Bounded(Finish(s, id))
  {
    hide TrackBounded;
    if id in s.inflight {
      assert s.inflight.Keys == (s.inflight - {id}).Keys + {id};
      CardKeys(s.inflight);
      CardKeys(s.inflight - {id});
    } else {
      assert s.inflight - {id} == s.inflight;
    }
  }

  lemma CardKeys<T, U>(m: map<T, U>)
    ensures |m| == |m.Keys|
  {
  }

  lemma UnknownBounded(s: State, c: Crawler, at: int)
    requires Bounded(s) && c in s.tracks
    ensures Bounded(Unknown(s, c, at))
  {
    NoLargerBounded(s, Blocked(s, c));
    AppendBounded(Blocked(s, c), c, Point(at, None));
    hide Append, Bounded;
  }

  lemma AckBounded(s: State, id: CallId, at: int)
    requires Bounded(s) && id in s.inflight && s.inflight[id].crawler in s.tracks
    ensures Bounded(CommitAck(s, id, at))
  {
    var s1, c, p := AckState(s, id, at), s.inflight[id].crawler, AckPoint(s, id, at);
    CommitAckForm(s, id, at);
    NoLargerBounded(s, s1);
    AppendBounded(s1, c, p);
    hide Append, Bounded, CommitAck, Finish;
    FinishBounded(Append(s1, c, p), id);
  }

  lemma TouchNoLarger(s: State, c: Crawler)
    requires c in s.tracks
    ensures NoLarger(s, Touch(s, c))
  {
  }

  lemma StartedBounded(s: State, e: Event)
    requires Bounded(s) && e.Started? && e.crawler in s.tracks
    ensures Bounded(CommitStarted(s, e.crawler, e.requested, e.call, e.now))
  {
    hide Unknown, Calling, TrackBounded, NoLarger;
    UnknownBounded(s, e.crawler, e.now);
    UnknownCalls(s, e.crawler, e.now);
    var s1 := if Calling(s, e.crawler) then Unknown(s, e.crawler, e.now) else s;
    TouchNoLarger(s1, e.crawler);
    NoLargerBounded(s1, Touch(s1, e.crawler));
    CardAdded(s.inflight, e.call, Call(e.crawler, e.requested, e.now));
    hide Touch;
  }

  lemma CardAdded<T, U>(m: map<T, U>, k: T, u: U)
    ensures |m[k := u]| <= |m| + 1
  {
    assert m[k := u].Keys == m.Keys + {k};
    CardKeys(m);
    CardKeys(m[k := u]);
  }

  lemma EndBounded(s: State, b: Baseline, stable: bool, c: Crawler, now: int)
    requires Bounded(s) && c in s.tracks && (stable ==> c in b.rows)
    ensures Bounded(EndFor(s, b, stable, c, now))
  {
    hide Append, Unknown, Bounded, NoLarger;
    UnknownBounded(s, c, now);
    if stable {
      AnchoredNoLarger(s, b.id, c);
      NoLargerBounded(s, Anchored(s, b.id, c));
      AppendBounded(Anchored(s, b.id, c), c, Point(now, Some((b.rows[c], Revision(b.id, c, 0)))));
    }
  }

  lemma AnchoredNoLarger(s: State, id: BaselineId, c: Crawler)
    requires c in s.tracks
    ensures NoLarger(s, Anchored(s, id, c))
  {
  }

  lemma StepBounded(s: State, e: Event)
    requires Bounded(s) && CrawlersKnown(s)
    ensures Bounded(Step(s, e))
  {
    hide Append, Unknown, CommitStarted, CommitAck, EndFor, Stable, Finish, TrackBounded;
    match e {
      case StartEpoch(_) => FreshBounded(s, e);
      case Started(c, _, _, _) => if c in s.tracks { StartedBounded(s, e); }
      case NotEntered(id, _) =>
        if id in s.inflight {
          NoLargerBounded(s, Touch(s, s.inflight[id].crawler));
          FinishBounded(Touch(s, s.inflight[id].crawler), id);
        }
      case ResultUnknown(id, now) =>
        if id in s.inflight {
          UnknownBounded(s, s.inflight[id].crawler, now);
          FinishBounded(Unknown(s, s.inflight[id].crawler, now), id);
        }
      case Acknowledged(id, at, _) => if id in s.inflight { AckBounded(s, id, at); }
      case BaselineRow(_, c, _, now) => if c in s.tracks { UnknownBounded(s, c, now); }
      case BaselineEndFor(id, c, ok, missing, now) =>
        if Active(s, id) && c in s.tracks {
          StableHasRow(s, s.baseline.value, ok, missing, c);
          EndBounded(s, s.baseline.value, Stable(s, s.baseline.value, ok, missing, c), c, now);
        }
      case CrawlerFailed(c, now, blind) => if c in s.tracks { UnknownBounded(s, c, FailureTime(s, now, blind)); }
      case _ =>
    }
  }

  lemma FreshBounded(s: State, e: Event)
    requires e.StartEpoch?
    ensures Bounded(Step(s, e))
  {
  }

  /** In every run the observer keeps at most 256 calls in flight, 4096 numbers of ended calls and 1024 points of each
      crawler, and cuts a history off only when it is full. */
  lemma {:induction false} RunBounded(members: set<Crawler>, events: seq<Event>)
    ensures Bounded(Run(Initial(members), events))
    decreases |events|
  {
    hide Step, Run;
    if events == [] {
      RunNothing(Initial(members));
    } else {
      var earlier, e := events[..|events| - 1], events[|events| - 1];
      assert events == earlier + [e];
      RunBounded(members, earlier);
      RunTold(members, earlier);
      RunSnoc(Initial(members), earlier, e);
      KnownCrawlers(Run(Initial(members), earlier), earlier);
      hide Bounded;
      StepBounded(Run(Initial(members), earlier), e);
    }
  }

  // ---- Closed baselines ----

  /** A baseline that has begun is not open. */
  predicate Shut(s: State, id: BaselineId) { id in s.begun && !Active(s, id) }

  lemma StepShut(s: State, e: Event, id: BaselineId)
    requires Shut(s, id) && CrawlersKnown(s)
    ensures Shut(Step(s, e), id)
  {
    if e.BaselineEndFor? {
      EndEventCalls(s, e);
    } else if e.BaselineRow? {
      RowFields(s, e);
    } else if !e.BaselineBegin? && !e.BaselineClosed? && !e.StartEpoch? {
      OtherRows(s, e);
      hide Step;
    }
  }

  /** In every run a baseline that was closed stays silent: no row and no end of it changes anything but the clock. */
  lemma ClosedStaysSilent(members: set<Crawler>, events: seq<Event>, i: nat, id: BaselineId, e: Event)
    requires i < |events| && events[i] == BaselineClosed(id, events[i].now) && Begun(events[..i], id)
    requires (e.BaselineRow? || e.BaselineEndFor? || e.BaselineClosed?) && e.id == id
    ensures var s := Run(Initial(members), events); Step(s, e) == s.(clock := e.now)
  {
    StaysShut(members, events, i, id);
    hide Run;
  }

  lemma {:induction false} StaysShut(members: set<Crawler>, events: seq<Event>, i: nat, id: BaselineId)
    requires i < |events| && events[i] == BaselineClosed(id, events[i].now) && Begun(events[..i], id)
    ensures Shut(Run(Initial(members), events), id)
    decreases |events|
  {
    var earlier, e := events[..|events| - 1], events[|events| - 1];
    assert events == earlier + [e];
    RunTold(members, earlier);
    KnownCrawlers(Run(Initial(members), earlier), earlier);
    RunSnoc(Initial(members), earlier, e);
    if i < |earlier| {
      assert earlier[..i] == events[..i];
      StaysShut(members, earlier, i, id);
      hide Step, Run;
      StepShut(Run(Initial(members), earlier), e, id);
    } else {
      assert earlier == events[..i];
      hide Run;
    }
  }

  // ---- Affirmed at once ----

  /** In every run, of a crawler without open calls: a call that is taken up hides what holds from its start on, and
      nothing else. */
  lemma OpenCallHidesExactly(members: set<Crawler>, events: seq<Event>, id: CallId, c: Crawler, value: bool, now: int,
                             t: int)
    requires c in members && forall call :: !OpenFor(events, call, c)
    requires !Run(Initial(members), events + [Started(c, value, id, now)]).degraded
    ensures ConfigAt(Run(Initial(members), events + [Started(c, value, id, now)]), c, t)
            == if t < now then ConfigAt(Run(Initial(members), events), c, t) else None
  {
    hide Run, OpenFor, Step, CallsTold, RowsTold;
    var s := Run(Initial(members), events);
    RunTold(members, events);
    RunMembers(members, events);
    NotCalling(s, events, c);
    RunSnoc(Initial(members), events, Started(c, value, id, now));
    StartHides(s, id, c, value, now, t);
  }

  lemma StartHides(s: State, id: CallId, c: Crawler, value: bool, now: int, t: int)
    requires c in s.tracks && !Calling(s, c) && !Step(s, Started(c, value, id, now)).degraded
    ensures ConfigAt(Step(s, Started(c, value, id, now)), c, t) == if t < now then ConfigAt(s, c, t) else None
  {
    var s' := Step(s, Started(c, value, id, now));
    if s.startedAt.Some? {
      TakenUp(s, id, c, value, now);
      assert id in s'.inflight && s'.inflight[id] == Call(c, value, now);
      assert forall call :: call in s'.inflight && s'.inflight[call].crawler == c ==> call == id;
      assert Busy(s', c, t) <==> now <= t;
      assert !Busy(s, c, t);
    }
    hide Underlying;
  }

  /** In every run an ended call is remembered as the last one, and the oldest is forgotten only for the 4097th. */
  lemma EndedIsRemembered(members: set<Crawler>, events: seq<Event>, e: Event, id: CallId)
    requires Ends(e, id) && id in Run(Initial(members), events).inflight
    ensures var s := Run(Initial(members), events);
            Step(s, e).completed == (if |s.completed| < 4096 then s.completed else s.completed[1..]) + [id]
  {
    RunTold(members, events);
    RunBounded(members, events);
    var s := Run(Initial(members), events);
    KnownCrawlers(s, events);
    hide Run, CallsTold, RowsTold;
    EndRemembers(s, e, id);
  }

  lemma EndRemembers(s: State, e: Event, id: CallId)
    requires CrawlersKnown(s) && Ends(e, id) && id in s.inflight && |s.completed| <= 4096
    ensures Step(s, e).completed == (if |s.completed| < 4096 then s.completed else s.completed[1..]) + [id]
  {
    if e.Acknowledged? {
      CommitAckForm(s, id, e.ackAt);
    }
    hide Push, CommitAck;
  }

  /** A point that is put on record in order is what is answered from then on, if no call is in flight. */
  lemma AppendAffirms(s: State, c: Crawler, p: Point, t: int)
    requires Sound(s) && c in s.tracks && p.at <= t && s.startedAt.Some? && s.startedAt.value <= t && !Calling(s, c)
    requires !Append(s, c, p).degraded
    ensures ConfigAt(Append(s, c, p), c, t) == p.known
  {
    var k := s.tracks[c];
    LastPointAppend(k.history, p, t);
    PushOk(k, p);
    if |k.history + [p]| > HISTORY_CAP {
      LastPointDrop(k.history + [p], t);
    }
    hide LastPoint;
  }

  lemma NotCalling(s: State, events: seq<Event>, c: Crawler)
    requires CallsTold(s, events) && forall id :: !OpenFor(events, id, c)
    ensures !Calling(s, c)
  {
    assert forall id :: id in s.inflight ==> CallTold(s, events, id);
  }

  /** A baseline of one crawler, with nothing in between. */
  function BaselineOf(id: BaselineId, c: Crawler, value: bool, missing: set<Crawler>, now: int): seq<Event> {
    [BaselineBegin(id, now), BaselineRow(id, c, value, now), BaselineEndFor(id, c, true, missing, now)]
  }

  lemma RunThree(s: State, events: seq<Event>, e1: Event, e2: Event, e3: Event)
    ensures Run(s, events + [e1, e2, e3]) == Step(Step(Step(Run(s, events), e1), e2), e3)
  {
    hide Run, Step;
    assert events + [e1, e2, e3] == ((events + [e1]) + [e2]) + [e3];
    RunSnoc(s, events, e1);
    RunSnoc(s, events + [e1], e2);
    RunSnoc(s, (events + [e1]) + [e2], e3);
  }

  lemma BaselineOpens(s: State, id: BaselineId, c: Crawler, value: bool, missing: set<Crawler>, now: int)
    requires c in s.tracks && id !in s.begun && !Calling(s, c)
    ensures var b := BaselineOf(id, c, value, missing, now);
            var s' := Step(Step(s, b[0]), b[1]);
            && s' == s.(baseline := s'.baseline, begun := s'.begun, clock := now)
            && Active(s', id) && c in s'.baseline.value.generations && c in s'.baseline.value.rows
            && s'.baseline.value.rows[c] == value && c !in s'.baseline.value.busy
            && s'.baseline.value.generations[c] == s.tracks[c].generation
  {
  }

  /** The state in which the end of a baseline puts its point on record. */
  function Anchored(s: State, id: BaselineId, c: Crawler): State
    requires c in s.tracks
  {
    s.(tracks := s.tracks[c := s.tracks[c].(baseline := Some(id), number := 0, blocked := false)])
  }

  lemma AppendFields(s: State, s': State, c: Crawler, p: Point)
    requires c in s.tracks && s'.tracks == s.tracks && s'.inflight == s.inflight && s'.startedAt == s.startedAt
    requires s'.degraded == s.degraded && s'.degradedAt == s.degradedAt
    ensures SameAnswers(Append(s, c, p), Append(s', c, p))
  {
    hide Push;
  }

  lemma BaselineSettles(s: State, id: BaselineId, c: Crawler, value: bool, missing: set<Crawler>, now: int)
    requires c in s.tracks && id !in s.begun && c !in missing && !s.degraded && s.startedAt.Some? && !Calling(s, c)
    ensures var b := BaselineOf(id, c, value, missing, now);
            SameAnswers(Append(Anchored(s, id, c), c, Point(now, Some((value, Revision(id, c, 0))))),
                        Step(Step(Step(s, b[0]), b[1]), b[2]))
  {
    var b := BaselineOf(id, c, value, missing, now);
    BaselineOpens(s, id, c, value, missing, now);
    var s' := Step(Step(s, b[0]), b[1]);
    hide Append, Unknown;
    assert Step(s', b[2]) == Effect(s', b[2]).(clock := now) && !Calling(s', c);
    AppendFields(Anchored(s, id, c), Anchored(s', id, c), c, Point(now, Some((value, Revision(id, c, 0)))));
  }

  /** In every run: a baseline whose one row says `value` of a crawler that no call is open for, and during which
      nothing happens, is affirmed from its end on, unless the observer is degraded then. */
  lemma BaselineIsAffirmed(members: set<Crawler>, events: seq<Event>, id: BaselineId, c: Crawler, value: bool,
                           missing: set<Crawler>, now: int, t: int)
    requires InTime(events + BaselineOf(id, c, value, missing, now)) && c in members && c !in missing && now <= t
    requires !Begun(events, id) && forall call :: !OpenFor(events, call, c)
    requires var s := Run(Initial(members), events); s.startedAt.Some? && s.startedAt.value <= t && !s.degraded
    requires !Run(Initial(members), events + BaselineOf(id, c, value, missing, now)).degraded
    ensures ConfigAt(Run(Initial(members), events + BaselineOf(id, c, value, missing, now)), c, t)
            == Some((value, Revision(id, c, 0)))
  {
    hide Run, OpenFor, Begun, InTime, Append, Step, ConfigAt, Sound, TrackOk, RowTold, CallsTold;
    var b, s := BaselineOf(id, c, value, missing, now), Run(Initial(members), events);
    RunThree(Initial(members), events, b[0], b[1], b[2]);
    EarlierInTime(events + b, |events|);
    assert (events + b)[..|events|] == events;
    RunSound(members, events);
    RunTold(members, events);
    RunMembers(members, events);
    NotCalling(s, events, c);
    BaselineSettles(s, id, c, value, missing, now);
    SameHistorySound(s, Anchored(s, id, c));
    AppendAffirms(Anchored(s, id, c), c, Point(now, Some((value, Revision(id, c, 0)))), t);
    SameAffirms(Append(Anchored(s, id, c), c, Point(now, Some((value, Revision(id, c, 0))))),
                Step(Step(Step(s, b[0]), b[1]), b[2]), c, t);
  }

  lemma SameAffirms(s: State, s': State, c: Crawler, t: int)
    requires SameAnswers(s, s')
    ensures ConfigAt(s, c, t) == ConfigAt(s', c, t)
  {
  }

  /** A call from its start to its acknowledgement, with nothing in between. */
  function Committed(id: CallId, c: Crawler, value: bool, started: int, at: int, now: int): seq<Event> {
    [Started(c, value, id, started), Acknowledged(id, at, now)]
  }

  lemma RunTwo(s: State, events: seq<Event>, e1: Event, e2: Event)
    ensures Run(s, events + [e1, e2]) == Step(Step(Run(s, events), e1), e2)
  {
    hide Run, Step;
    assert events + [e1, e2] == (events + [e1]) + [e2];
    RunSnoc(s, events, e1);
    RunSnoc(s, events + [e1], e2);
  }

  /** The state in which an acknowledgement puts its point on record. */
  function Counted(s: State, c: Crawler): State
    requires c in s.tracks
  {
    s.(tracks :=
      s.tracks[c := s.tracks[c].(generation := s.tracks[c].generation + 2, number := s.tracks[c].number + 1)])
  }

  lemma TakenUp(s: State, id: CallId, c: Crawler, value: bool, now: int)
    requires c in s.tracks && s.startedAt.Some? && !Calling(s, c) && !Step(s, Started(c, value, id, now)).degraded
    ensures id !in s.inflight && !s.degraded
    ensures var k := s.tracks[c];
            Step(s, Started(c, value, id, now))
            == s.(tracks := s.tracks[c := k.(generation := k.generation + 1)],
                  inflight := s.inflight[id := Call(c, value, now)], clock := now)
  {
  }

  lemma StillDegraded(s: State, e: Event)
    requires CrawlersKnown(s) && s.degraded && !e.StartEpoch?
    ensures Step(s, e).degraded
  {
    hide Step;
    EffectCalls(s, e);
  }

  lemma CommitSettles(s: State, id: CallId, c: Crawler, value: bool, started: int, at: int, now: int)
    requires c in s.tracks && s.startedAt.Some? && !Calling(s, c) && TrackTold(s.tracks[c], c) && !s.tracks[c].blocked
    requires var d := Committed(id, c, value, started, at, now); started <= at && !Step(s, d[0]).degraded
    ensures var d := Committed(id, c, value, started, at, now);
            var k := s.tracks[c];
            SameAnswers(Append(Counted(s, c), c, Point(at, Some((value, Revision(k.baseline.value, c, k.number + 1))))),
                        Step(Step(s, d[0]), d[1]))
  {
    var k, d := s.tracks[c], Committed(id, c, value, started, at, now);
    var s1, p := Step(s, d[0]), Point(at, Some((value, Revision(k.baseline.value, c, k.number + 1))));
    TakenUp(s, id, c, value, started);
    AckSettles(s, id, c, value, started, at);
    hide Append, CommitAck, CommitStarted, Calling, AckState, AckPoint, TrackTold;
    CommitAckForm(s1, id, at);
    AppendInflight(Counted(s, c), s1.inflight, started, c, p);
    AppendCalls(Counted(s, c), c, p);
    assert s1.inflight - {id} == s.inflight;
  }

  lemma AckSettles(s: State, id: CallId, c: Crawler, value: bool, started: int, at: int)
    requires c in s.tracks && TrackTold(s.tracks[c], c) && !s.tracks[c].blocked && started <= at
    ensures var k := s.tracks[c];
            var s1 := s.(tracks := s.tracks[c := k.(generation := k.generation + 1)],
                         inflight := s.inflight[id := Call(c, value, started)], clock := started);
            && AckState(s1, id, at) == Counted(s, c).(inflight := s1.inflight, clock := started)
            && AckPoint(s1, id, at) == Point(at, Some((value, Revision(k.baseline.value, c, k.number + 1))))
  {
    var k := s.tracks[c];
    assert s.tracks[c := k.(generation := k.generation + 1)]
           [c := k.(generation := k.generation + 2, number := k.number + 1)]
           == s.tracks[c := k.(generation := k.generation + 2, number := k.number + 1)];
  }

  lemma AppendInflight(s: State, inflight: map<CallId, Call>, now: int, c: Crawler, p: Point)
    requires c in s.tracks
    ensures Append(s.(inflight := inflight, clock := now), c, p) == Append(s, c, p).(inflight := inflight, clock := now)
  {
    hide Push;
  }

  /** What is known for arbitrarily late is what a crawler without a call in flight is anchored at. */
  lemma KnownIsAnchored(s: State, c: Crawler, at: int, value: bool, r: Revision)
    requires TracksTold(s) && !s.degraded && ConfigAt(s, c, at) == Some((value, r))
    requires s.tracks[c].history[|s.tracks[c].history| - 1].at <= at
    ensures var k := s.tracks[c]; !k.blocked && TrackTold(k, c) && r == Revision(k.baseline.value, c, k.number)
  {
  }

  /** An acknowledgement that does not degrade the observer is not dated before what is on record. */
  lemma NotBehind(s: State, id: CallId, c: Crawler, value: bool, started: int, at: int, now: int)
    requires c in s.tracks && s.startedAt.Some? && !Calling(s, c) && CrawlersKnown(s) && s.tracks[c].history != []
    requires var d := Committed(id, c, value, started, at, now); !Step(Step(s, d[0]), d[1]).degraded
    ensures !s.degraded && !Step(s, Started(c, value, id, started)).degraded
    ensures s.tracks[c].history[|s.tracks[c].history| - 1].at <= at
  {
    var d := Committed(id, c, value, started, at, now);
    hide CommitAck, CommitStarted, Calling, Step;
    EffectCalls(s, d[0]);
    var s1 := Step(s, d[0]);
    forall call | call in s1.inflight ensures s1.inflight[call].crawler in s1.tracks {
      assert call in s.inflight || s1.inflight[call].crawler == c;
    }
    if s1.degraded { StillDegraded(s1, d[1]); }
    TakenUp(s, id, c, value, started);
    AckInOrder(Step(s, d[0]), id, at, now);
  }

  lemma AckInOrder(s: State, id: CallId, at: int, now: int)
    requires id in s.inflight && s.inflight[id].crawler in s.tracks && !Step(s, Acknowledged(id, at, now)).degraded
    requires s.tracks[s.inflight[id].crawler].history != []
    ensures var h := s.tracks[s.inflight[id].crawler].history; h[|h| - 1].at <= at
  {
    CommitAckForm(s, id, at);
    hide CommitAck, Push;
  }

  lemma ShownMeansHistory(s: State, c: Crawler, t: int)
    requires ConfigAt(s, c, t).Some?
    ensures c in s.tracks && s.tracks[c].history != [] && s.startedAt.Some? && s.startedAt.value <= t
  {
  }

  /** In every run: where a switch of a crawler without open calls is known, a call that asks for `value` and is then
      acknowledged for `at` is affirmed from `at` on, under the next revision of the baseline, unless the observer is
      degraded then. */
  lemma AcknowledgedIsAffirmed(members: set<Crawler>, events: seq<Event>, id: CallId, c: Crawler, value: bool,
                               started: int, at: int, now: int, t: int, before: bool, r: Revision)
    requires InTime(events + Committed(id, c, value, started, at, now)) && started <= at <= t
    requires ConfigAt(Run(Initial(members), events), c, at) == Some((before, r))
    requires forall call :: !OpenFor(events, call, c)
    requires !Run(Initial(members), events + Committed(id, c, value, started, at, now)).degraded
    ensures ConfigAt(Run(Initial(members), events + Committed(id, c, value, started, at, now)), c, t)
            == Some((value, Revision(r.baseline, c, r.number + 1)))
  {
    hide Run, OpenFor, InTime, Append, Step, ConfigAt, Sound, TrackOk, RowsTold, CallsTold, Calling, TracksTold,
         TrackTold;
    var d, s := Committed(id, c, value, started, at, now), Run(Initial(members), events);
    RunTwo(Initial(members), events, d[0], d[1]);
    assert (events + d)[..|events|] == events;
    EarlierInTime(events + d, |events|);
    RunSound(members, events);
    RunTold(members, events);
    RunTracks(members, events);
    NotCalling(s, events, c);
    KnownCrawlers(s, events);
    ShownMeansHistory(s, c, at);
    NotBehind(s, id, c, value, started, at, now);
    KnownIsAnchored(s, c, at, before, r);
    CommitSettles(s, id, c, value, started, at, now);
    var p := Point(at, Some((value, Revision(r.baseline, c, r.number + 1))));
    CountedSound(s, c);
    AppendAffirms(Counted(s, c), c, p, t);
    SameAffirms(Append(Counted(s, c), c, p), Step(Step(s, d[0]), d[1]), c, t);
  }

  lemma CountedSound(s: State, c: Crawler)
    requires Sound(s) && c in s.tracks
    ensures Sound(Counted(s, c)) && Calling(Counted(s, c), c) == Calling(s, c)
  {
    SameHistorySound(s, Counted(s, c));
  }

  // ---- Acknowledgements that are dated badly ----

  /** The first call is acknowledged for a moment to come, the second for an earlier one; so the observer gives up what
      follows from then on, and does not take up the third call. */
  function DatedAhead(ids: (CallId, CallId, CallId), c: Crawler, value: bool, now: int, far: int): seq<Event> {
    Committed(ids.0, c, value, now, far, now) + Committed(ids.1, c, value, now, far - 1, now)
    + Committed(ids.2, c, !value, now, now, now)
  }

  predicate Free(s: State, id: CallId) { id !in s.inflight && id !in s.completed }

  lemma CommitIsTaken(s: State, id: CallId, c: Crawler, value: bool, now: int)
    requires c in s.tracks && s.startedAt.Some? && !s.degraded && !Calling(s, c) && Free(s, id) && |s.inflight| < 256
    ensures !Step(s, Started(c, value, id, now)).degraded
  {
    hide Calling;
  }

  /** A call acknowledged in order. */
  lemma CommitsInOrder(s: State, id: CallId, c: Crawler, value: bool, started: int, at: int, now: int)
    requires c in s.tracks && s.startedAt.Some? && !s.degraded && !Calling(s, c) && Free(s, id) && |s.inflight| < 256
    requires TrackTold(s.tracks[c], c) && !s.tracks[c].blocked && started <= at && !Behind(s, c, at)
    ensures var d := Committed(id, c, value, started, at, now);
            var s' := Step(Step(s, d[0]), d[1]);
            var p := Point(at, Some((value, Revision(s.tracks[c].baseline.value, c, s.tracks[c].number + 1))));
            && s'
            == s.(tracks := s.tracks[c := Push(Counted(s, c).tracks[c], p)], completed := s'.completed, clock := now,
                        recorded := s'.recorded)
            && s'.completed == Finish(s, id).completed
  {
    var d := Committed(id, c, value, started, at, now);
    CommitIsTaken(s, id, c, value, started);
    TakenUp(s, id, c, value, started);
    AckSettles(s, id, c, value, started, at);
    var s1 := Step(s, d[0]);
    CommitAckForm(s1, id, at);
    assert s.inflight[id := Call(c, value, started)] - {id} == s.inflight;
    hide CommitAck, CommitStarted, Calling, AckState, AckPoint, TrackTold, Push;
  }

  /** A call that is acknowledged for a moment before what is on record. */
  lemma CommitsBehind(s: State, id: CallId, c: Crawler, value: bool, started: int, at: int, now: int)
    requires c in s.tracks && s.startedAt.Some? && !s.degraded && !Calling(s, c) && Free(s, id) && |s.inflight| < 256
    requires TrackTold(s.tracks[c], c) && !s.tracks[c].blocked && started <= at && Behind(s, c, at)
    ensures var d := Committed(id, c, value, started, at, now);
            var s' := Step(Step(s, d[0]), d[1]);
            && s' == s.(tracks := s.tracks[c := Counted(s, c).tracks[c]], degraded := true, degradedAt := s'.degradedAt,
                        completed := s'.completed, clock := now)
            && s'.degradedAt == Degrade(s, at).degradedAt
  {
    var d := Committed(id, c, value, started, at, now);
    CommitIsTaken(s, id, c, value, started);
    TakenUp(s, id, c, value, started);
    AckSettles(s, id, c, value, started, at);
    var s1 := Step(s, d[0]);
    CommitAckForm(s1, id, at);
    assert s.inflight[id := Call(c, value, started)] - {id} == s.inflight;
    hide CommitAck, CommitStarted, Calling, AckState, AckPoint, TrackTold, Push;
  }

  /** A call that is started after the observer has given up. */
  lemma CommitsUnheard(s: State, id: CallId, c: Crawler, value: bool, started: int, at: int, now: int)
    requires c in s.tracks && s.degraded && id !in s.inflight
    ensures var d := Committed(id, c, value, started, at, now); Step(Step(s, d[0]), d[1]) == s.(clock := now)
  {
  }

  /** Nothing is dated as long as nothing is given up. */
  predicate NotDated(s: State) { !s.degraded ==> s.degradedAt == None }

  predicate DatesMove(s: State, s': State) {
    (s.degraded ==> s'.degraded) && (!s'.degraded ==> s'.degradedAt == s.degradedAt)
  }

  lemma AppendDates(s: State, c: Crawler, p: Point)
    requires c in s.tracks
    ensures DatesMove(s, Append(s, c, p))
  {
    hide Push;
  }

  lemma UnknownDates(s: State, c: Crawler, at: int)
    requires c in s.tracks
    ensures DatesMove(s, Unknown(s, c, at))
  {
    hide Append;
    AppendDates(Blocked(s, c), c, Point(at, None));
  }

  lemma AckDates(s: State, id: CallId, at: int)
    requires id in s.inflight && s.inflight[id].crawler in s.tracks
    ensures DatesMove(s, CommitAck(s, id, at))
  {
    hide Append, CommitAck, AckPoint;
    CommitAckForm(s, id, at);
    AppendDates(AckState(s, id, at), s.inflight[id].crawler, AckPoint(s, id, at));
  }

  lemma EndDates(s: State, b: Baseline, stable: bool, c: Crawler, now: int)
    requires c in s.tracks && (stable ==> c in b.rows)
    ensures DatesMove(s, EndFor(s, b, stable, c, now))
  {
    hide Append, Unknown;
    UnknownDates(s, c, now);
    if stable {
      AppendDates(Anchored(s, b.id, c), c, Point(now, Some((b.rows[c], Revision(b.id, c, 0)))));
    }
  }

  lemma StepDates(s: State, e: Event)
    requires CrawlersKnown(s) && NotDated(s)
    ensures NotDated(Step(s, e))
  {
    hide Append, Unknown, CommitAck, EndFor, Stable, Calling;
    match e {
      case Started(c, _, _, now) => if c in s.tracks { UnknownDates(s, c, now); }
      case ResultUnknown(id, now) => if id in s.inflight { UnknownDates(s, s.inflight[id].crawler, now); }
      case Acknowledged(id, at, _) => if id in s.inflight { AckDates(s, id, at); }
      case BaselineRow(_, c, _, now) => if c in s.tracks { UnknownDates(s, c, now); }
      case BaselineEndFor(id, c, ok, missing, now) =>
        if Active(s, id) && c in s.tracks {
          StableHasRow(s, s.baseline.value, ok, missing, c);
          EndDates(s, s.baseline.value, Stable(s, s.baseline.value, ok, missing, c), c, now);
        }
      case CrawlerFailed(c, now, blind) => if c in s.tracks { UnknownDates(s, c, FailureTime(s, now, blind)); }
      case _ =>
    }
  }

  lemma {:induction false} RunDates(members: set<Crawler>, events: seq<Event>)
    ensures NotDated(Run(Initial(members), events))
    decreases |events|
  {
    hide Step, Run;
    if events == [] {
      RunNothing(Initial(members));
    } else {
      var earlier, e := events[..|events| - 1], events[|events| - 1];
      assert events == earlier + [e];
      RunDates(members, earlier);
      RunTold(members, earlier);
      RunSnoc(Initial(members), earlier, e);
      KnownCrawlers(Run(Initial(members), earlier), earlier);
      StepDates(Run(Initial(members), earlier), e);
    }
  }

  lemma RunCommit(s: State, events: seq<Event>, d: seq<Event>)
    requires |d| == 2
    ensures Run(s, events + d) == Step(Step(Run(s, events), d[0]), d[1])
  {
    assert d == [d[0], d[1]];
    RunTwo(s, events, d[0], d[1]);
  }

  /** A point for a moment to come leaves the present as it is. */
  lemma PushAhead(k: Track, p: Point, t: int)
    requires TrackOk(k) && k.history != [] && k.history[|k.history| - 1].at <= t < p.at && !CutAfter(k, t)
    ensures !CutAfter(Push(k, p), t) && Underlying(Push(k, p).history, t) == Underlying(k.history, t)
  {
    if |k.history + [p]| > HISTORY_CAP {
      assert (k.history + [p])[1] == k.history[1];
    }
    PushShows(k, p, t);
    hide Underlying;
  }

  /** What may be misled: a crawler without open calls that is known now, of an observer that has room. */
  predicate Misleadable(s: State, ids: (CallId, CallId, CallId), c: Crawler, now: int) {
    && c in s.tracks && s.startedAt.Some? && s.startedAt.value <= now && !s.degraded && s.degradedAt == None
    && |s.inflight| < 256 && TrackTold(s.tracks[c], c) && !s.tracks[c].blocked && !Calling(s, c) && !Behind(s, c, now)
    && s.tracks[c].history != [] && Free(s, ids.0) && Free(s, ids.1) && Free(s, ids.2) && ids.0 != ids.1
  }

  function PointAhead(s: State, c: Crawler, value: bool, far: int): Point
    requires c in s.tracks && TrackTold(s.tracks[c], c) && !s.tracks[c].blocked
  {
    Point(far, Some((value, Revision(s.tracks[c].baseline.value, c, s.tracks[c].number + 1))))
  }

  lemma FirstAhead(s: State, ids: (CallId, CallId, CallId), c: Crawler, value: bool, now: int, far: int)
    requires Misleadable(s, ids, c, now) && now + 2 <= far
    ensures var d := Committed(ids.0, c, value, now, far, now);
            var s' := Step(Step(s, d[0]), d[1]);
            && c in s'.tracks && s'.startedAt == s.startedAt && !s'.degraded && s'.degradedAt == None
            && s'.inflight == s.inflight && s'.tracks[c] == Push(Counted(s, c).tracks[c], PointAhead(s, c, value, far))
            && TrackTold(s'.tracks[c], c) && !s'.tracks[c].blocked && Free(s', ids.1) && ids.2 !in s'.inflight
            && Behind(s', c, far - 1)
  {
    hide Step, Push, Calling, TrackTold;
    NotBehindLater(s, c, now, far);
    CommitsInOrder(s, ids.0, c, value, now, far, now);
    AheadTold(s, c, value, far);
  }

  lemma NotBehindLater(s: State, c: Crawler, now: int, far: int)
    requires !Behind(s, c, now) && now <= far
    ensures !Behind(s, c, far)
  {
  }

  lemma AheadTold(s: State, c: Crawler, value: bool, far: int)
    requires c in s.tracks && TrackTold(s.tracks[c], c) && !s.tracks[c].blocked
    ensures var k := Push(Counted(s, c).tracks[c], PointAhead(s, c, value, far));
            TrackTold(k, c) && !k.blocked && k.history != [] && k.history[|k.history| - 1].at == far
  {
    PushLast(Counted(s, c).tracks[c], PointAhead(s, c, value, far));
    hide Push;
  }

  lemma SecondAhead(s: State, ids: (CallId, CallId, CallId), c: Crawler, value: bool, now: int, far: int)
    requires c in s.tracks && s.startedAt.Some? && !s.degraded && s.degradedAt == None && |s.inflight| < 256
    requires TrackTold(s.tracks[c], c) && !s.tracks[c].blocked && !Calling(s, c) && Free(s, ids.1) && now < far
    requires Behind(s, c, far - 1) && ids.2 !in s.inflight
    ensures var d := Committed(ids.1, c, value, now, far - 1, now);
            var s' := Step(Step(s, d[0]), d[1]);
            && c in s'.tracks && s'.startedAt == s.startedAt && s'.degraded && s'.degradedAt == Some(far - 1)
            && s'.inflight == s.inflight && s'.tracks[c].history == s.tracks[c].history
            && s'.tracks[c].truncatedBefore == s.tracks[c].truncatedBefore
  {
    CommitsBehind(s, ids.1, c, value, now, far - 1, now);
    hide Step, Calling, Behind, TrackTold;
  }

  lemma StillAnswers(s: State, s': State, c: Crawler, p: Point, now: int, far: int)
    requires Sound(s) && c in s.tracks && s.tracks[c].history != [] && !Behind(s, c, now) && !s.degraded
    requires c in s'.tracks && s'.startedAt == s.startedAt && s'.degraded && s'.degradedAt == Some(far - 1)
    requires s'.inflight == s.inflight && !Calling(s, c) && now + 2 <= far && p.at == far
    requires s'.tracks[c].history == Push(Counted(s, c).tracks[c], p).history
    requires s'.tracks[c].truncatedBefore == Push(Counted(s, c).tracks[c], p).truncatedBefore
    ensures ConfigAt(s, c, now).Some? ==> ConfigAt(s', c, now) == ConfigAt(s, c, now)
  {
    assert TrackOk(s.tracks[c]);
    hide Push, Underlying, Sound;
    if ConfigAt(s, c, now).Some? {
      PushAhead(Counted(s, c).tracks[c], p, now);
    }
  }

  lemma AheadMisleads(s: State, ids: (CallId, CallId, CallId), c: Crawler, value: bool, now: int, far: int)
    requires Sound(s) && Misleadable(s, ids, c, now) && now + 2 <= far && ConfigAt(s, c, now).Some?
    ensures var d0, d1, d2 := Committed(ids.0, c, value, now, far, now), Committed(ids.1, c, value, now, far - 1, now),
                              Committed(ids.2, c, !value, now, now, now);
            ConfigAt(Step(Step(Step(Step(Step(Step(s, d0[0]), d0[1]), d1[0]), d1[1]), d2[0]), d2[1]), c, now)
            == ConfigAt(s, c, now)
  {
    hide Step, Sound, Push, ConfigAt, Calling, TrackTold, Behind;
    var d0, d1, d2 := Committed(ids.0, c, value, now, far, now), Committed(ids.1, c, value, now, far - 1, now),
                      Committed(ids.2, c, !value, now, now, now);
    FirstAhead(s, ids, c, value, now, far);
    var s2 := Step(Step(s, d0[0]), d0[1]);
    assert Calling(s2, c) == Calling(s, c) by { SameInflight(s, s2, c); }
    SecondAhead(s2, ids, c, value, now, far);
    var s4 := Step(Step(s2, d1[0]), d1[1]);
    CommitsUnheard(s4, ids.2, c, !value, now, now, now);
    StillAnswers(s, s4, c, PointAhead(s, c, value, far), now, far);
    SameClock(s4, c, now, now);
  }

  lemma SameInflight(s: State, s': State, c: Crawler)
    requires s'.inflight == s.inflight
    ensures Calling(s', c) == Calling(s, c)
  {
  }

  lemma SameClock(s: State, c: Crawler, t: int, now: int)
    ensures ConfigAt(s.(clock := now), c, t) == ConfigAt(s, c, t)
  {
  }

  // ---- Bad dates in runs ----

  lemma RunAhead(s: State, events: seq<Event>, ids: (CallId, CallId, CallId), c: Crawler, value: bool, now: int,
                 far: int)
    ensures var d0, d1, d2 := Committed(ids.0, c, value, now, far, now), Committed(ids.1, c, value, now, far - 1, now),
                              Committed(ids.2, c, !value, now, now, now);
            var r := Run(s, events);
            Run(s, events + DatedAhead(ids, c, value, now, far))
            == Step(Step(Step(Step(Step(Step(r, d0[0]), d0[1]), d1[0]), d1[1]), d2[0]), d2[1])
  {
    hide Run, Step;
    var d0, d1, d2 := Committed(ids.0, c, value, now, far, now), Committed(ids.1, c, value, now, far - 1, now),
                      Committed(ids.2, c, !value, now, now, now);
    RunCommit(s, events, d0);
    RunCommit(s, events + d0, d1);
    RunCommit(s, events + d0 + d1, d2);
    assert events + DatedAhead(ids, c, value, now, far) == events + d0 + d1 + d2;
  }

  /** The last call, which the observer has missed, is open for its acknowledgement. */
  lemma MissedIsOpen(events: seq<Event>, id: CallId, c: Crawler, requested: bool, started: int, at: int, now: int)
    requires Opener(events, id) == None
    ensures var all := events + Committed(id, c, requested, started, at, now);
            && Opener(all[..|events| + 1], id) == Some(|events|)
            && all[|events|] == Started(c, requested, id, started) && all[|events| + 1] == Acknowledged(id, at, now)
  {
    var all := events + Committed(id, c, requested, started, at, now);
    assert all[..|events| + 1] == events + [Started(c, requested, id, started)];
    OpenerAppend(events, Started(c, requested, id, started), id);
  }

  /** If the last event acknowledges, for a moment up to `t`, a call that asked for the opposite, then no event is the
      last to say `value`. */
  lemma OppositeIsLatest(events: seq<Event>, id: CallId, c: Crawler, value: bool, started: int, at: int, now: int,
                         t: int)
    requires Opener(events, id) == None && at <= t
    ensures var all := events + Committed(id, c, !value, started, at, now);
            forall j: nat, r: Revision :: !Latest(all, j, c, t, value, r)
  {
    var all := events + Committed(id, c, !value, started, at, now);
    MissedIsOpen(events, id, c, !value, started, at, now);
    assert Acks(all, |events| + 1, c, t);
    hide Opener, Rows;
    forall j: nat, r: Revision ensures !Latest(all, j, c, t, value, r) {
    }
  }

  lemma NeverOpened(s: State, events: seq<Event>, id: CallId)
    requires CallsTold(s, events) && s.startedAt.Some? && !s.degraded && id !in s.inflight
    ensures Opener(events, id) == None
  {
  }

  /** Wherever a run has come to: an acknowledgement dated at least two ticks into the future is enough to make the
      observer affirm now what a later call has changed. */
  lemma FutureDateMisleads(members: set<Crawler>, events: seq<Event>, ids: (CallId, CallId, CallId), c: Crawler,
                           now: int, far: int, value: bool, r: Revision)
    requires InTime(events) && now + 2 <= far && ids.0 != ids.1 && ids.0 != ids.2 && ids.1 != ids.2
    requires var s := Run(Initial(members), events);
             && !s.degraded && |s.inflight| < 256 && !Behind(s, c, now) && ConfigAt(s, c, now) == Some((value, r))
             && Free(s, ids.0) && Free(s, ids.1) && Free(s, ids.2)
    requires forall call :: !OpenFor(events, call, c)
    ensures ConfigAt(Run(Initial(members), events + DatedAhead(ids, c, value, now, far)), c, now) == Some((value, r))
    ensures forall j: nat, q: Revision :: !Latest(events + DatedAhead(ids, c, value, now, far), j, c, now, value, q)
  {
    hide Run, Opener, InTime, Step, ConfigAt, Sound, TrackOk, RowsTold, CallsTold, Calling, TracksTold, TrackTold,
           Behind,
         Latest;
    var s := Run(Initial(members), events);
    RunSound(members, events);
    RunTold(members, events);
    RunTracks(members, events);
    RunDates(members, events);
    NotCalling(s, events, c);
    ShownMeansHistory(s, c, now);
    AnchoredNow(s, c, now, value, r);
    AheadMisleads(s, ids, c, value, now, far);
    RunAhead(Initial(members), events, ids, c, value, now, far);
    NeverOpened(s, events, ids.2);
    ThirdIsLatest(events, ids, c, value, now, far);
  }

  lemma AnchoredNow(s: State, c: Crawler, now: int, value: bool, r: Revision)
    requires TracksTold(s) && !s.degraded && ConfigAt(s, c, now) == Some((value, r)) && !Behind(s, c, now)
    ensures c in s.tracks && !s.tracks[c].blocked && TrackTold(s.tracks[c], c)
  {
    ShownMeansHistory(s, c, now);
    KnownIsAnchored(s, c, now, value, r);
  }

  lemma ThirdIsLatest(events: seq<Event>, ids: (CallId, CallId, CallId), c: Crawler, value: bool, now: int, far: int)
    requires Opener(events, ids.2) == None && ids.0 != ids.2 && ids.1 != ids.2
    ensures forall j: nat, r: Revision :: !Latest(events + DatedAhead(ids, c, value, now, far), j, c, now, value, r)
  {
    hide Opener, Latest;
    var d0, d1 := Committed(ids.0, c, value, now, far, now), Committed(ids.1, c, value, now, far - 1, now);
    OpenerAppend(events, d0[0], ids.2);
    OpenerAppend(events + [d0[0]], d0[1], ids.2);
    OpenerAppend(events + [d0[0]] + [d0[1]], d1[0], ids.2);
    OpenerAppend(events + [d0[0]] + [d0[1]] + [d1[0]], d1[1], ids.2);
    assert events + d0 + d1 == events + [d0[0]] + [d0[1]] + [d1[0]] + [d1[1]];
    OppositeIsLatest(events + d0 + d1, ids.2, c, value, now, now, now, now);
    assert events + DatedAhead(ids, c, value, now, far)
           == events + d0 + d1 + Committed(ids.2, c, !value, now, now, now);
  }

  /** The observer gives up, does not take up a call, and the call is acknowledged for a moment before its start. */
  function DatedBack(id: CallId, c: Crawler, value: bool, now: int, at: int): seq<Event> {
    [TrackingFailed(now, false)] + Committed(id, c, !value, now, at, now)
  }

  lemma GivenUpLater(s: State, c: Crawler, now: int, at: int)
    requires !s.degraded && s.degradedAt == None && at < now
    ensures var s' := Step(s, TrackingFailed(now, false));
            s'.degraded && s'.tracks == s.tracks && s'.inflight == s.inflight
            && ConfigAt(s', c, at) == ConfigAt(s, c, at)
  {
  }

  /** Wherever a run has come to: an acknowledgement dated before the start of its call can be missed in the same way.
      */
  lemma PastDateMisleads(members: set<Crawler>, events: seq<Event>, id: CallId, c: Crawler, now: int, at: int,
                         value: bool, r: Revision)
    requires InTime(events) && at < now
    requires var s := Run(Initial(members), events);
             !s.degraded && ConfigAt(s, c, at) == Some((value, r)) && id !in s.inflight
    ensures ConfigAt(Run(Initial(members), events + DatedBack(id, c, value, now, at)), c, at) == Some((value, r))
    ensures forall j: nat, q: Revision :: !Latest(events + DatedBack(id, c, value, now, at), j, c, at, value, q)
  {
    hide Run, Opener, InTime, Step, ConfigAt, RowsTold, CallsTold, Latest;
    var s, failed := Run(Initial(members), events), TrackingFailed(now, false);
    RunTold(members, events);
    RunDates(members, events);
    ShownMeansHistory(s, c, at);
    GivenUpLater(s, c, now, at);
    RunSnoc(Initial(members), events, failed);
    RunCommit(Initial(members), events + [failed], Committed(id, c, !value, now, at, now));
    CommitsUnheard(Step(s, failed), id, c, !value, now, at, now);
    SameClock(Step(s, failed), c, at, now);
    NeverOpened(s, events, id);
    OpenerAppend(events, failed, id);
    OppositeIsLatest(events + [failed], id, c, value, now, at, now, at);
    assert events + DatedBack(id, c, value, now, at)
        == events + [failed] + Committed(id, c, !value, now, at, now);
  }
}
