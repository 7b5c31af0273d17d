/** Every operation keeps the invariant, so every run does. */
module LedgerSafety {
  import opened Wrappers
  import opened Totals
  import opened Axes
  import opened LedgerState
  import opened LedgerSpec
  import opened LedgerInvariant
  import opened LedgerAdvance

  // ---- The identity checks never fire ----

  lemma NoIdentityFault(st: Ledger, id: Id)
    requires Inv(st)
    ensures !IdentityFault(st, id)
  {
    if Live(st, id) {
      assert OwnerIs(st.owners, st.records[st.ids[id]].source, st.records[st.ids[id]].connection, st.ids[id]);
    } else if Tombstoned(st, id) {
      assert OwnerIs(st.owners, st.tombs[st.ids[id]].source, st.tombs[st.ids[id]].connection, st.ids[id]);
    }
  }

  lemma NoCandidateFault(st: Ledger, key: (Source, Round))
    requires Inv(st)
    ensures !CandidateFault(st, key)
  {
    if key in st.owners {
      assert Owns(st.records, st.tombs, st.owners[key], key);
    }
  }

  // ---- What an advance leaves of a record ----

  lemma RetireLeaves(st: Ledger, dead: map<nat, Record>, wall: int, mono: int)
    ensures var a := Retire(st, dead, wall, mono);
            && a.records == st.records - dead.Keys
            && a.retired == st.retired + dead
            && a.(records := st.records, tombs := st.tombs, retired := st.retired, frozen := st.frozen,
                  frozenThrough := st.frozenThrough) == st
  {
    hide CohortTallies, LatestStart, Bury, Total;
  }

  lemma CloseBucketsLeaves(st: Ledger, wall: int, mono: int)
    ensures var a := CloseBuckets(st, wall, mono);
            && (forall k :: k in a.records ==> k in st.records && a.records[k] == st.records[k])
            && a.(frontier := st.frontier, cumulative := st.cumulative, retired := st.retired, records := st.records,
                  tombs := st.tombs, frozen := st.frozen, frozenThrough := st.frozenThrough) == st
  {
    var target := CloseTarget(st.records, wall, mono);
    var closing := Closing(st.records, target);
    RetireLeaves(Count(st, closing).(frontier := Some(target)), closing, wall, mono);
    hide CloseTarget, Closing, IncludedOf, Contributions, Total, Retire;
  }

  /** Whoever is live after an advance was live before it, under the same number, and only its overdue mark may be
      new. */
  lemma AdvanceRecord(st: Ledger, wall: int, mono: int, k: nat)
    requires k in Advance(st, wall, mono).records
    ensures k in st.records
    ensures Advance(st, wall, mono).records[k] == MarkOverdue(st.records[k], mono)
  {
    CloseBucketsLeaves(st, wall, mono);
    hide CloseBuckets, CohortTallies, LatestStart, Bury, Total, MarkOverdue, Expirable, Prunable;
  }

  lemma AdvanceFields(st: Ledger, wall: int, mono: int)
    ensures var a := Advance(st, wall, mono);
            && a.frontier == CloseBuckets(st, wall, mono).frontier
            && a.cumulative == CloseBuckets(st, wall, mono).cumulative
            && a.clock == st.clock.(last := Some(Instant(wall, mono)))
            && a.(frontier := st.frontier, cumulative := st.cumulative, retired := st.retired, clock := st.clock,
                  records := st.records, tombs := st.tombs, frozen := st.frozen, frozenThrough := st.frozenThrough,
                  ids := st.ids, owners := st.owners, ownedIds := st.ownedIds, identityPruned := st.identityPruned)
                  == st
  {
    CloseBucketsLeaves(st, wall, mono);
    hide CloseBuckets, CohortTallies, LatestStart, Bury, Total, MarkOverdue, Expirable, Prunable;
  }

  lemma AdvanceIds(st: Ledger, wall: int, mono: int)
    ensures var a := Advance(st, wall, mono);
            forall i :: i in a.ids ==> i in st.ids && a.ids[i] == st.ids[i]
  {
    CloseBucketsLeaves(st, wall, mono);
    hide CloseBuckets, CohortTallies, LatestStart, Bury, Total, MarkOverdue, Expirable, Prunable;
  }

  // ---- Register ----

  lemma EnterKeepsIdentities(ids: map<Id, nat>, records: map<nat, Record>, tombs: map<nat, Tomb>,
                             owners: map<(Source, Round), nat>, k: nat, r: Record)
    requires IdsOk(ids, records, tombs) && OwnersOk(records, tombs, owners)
    requires k !in records && k !in tombs && r.id !in ids && r.connection == Unbound
    ensures IdsOk(ids[r.id := k], records[k := r], tombs) && OwnersOk(records[k := r], tombs, owners)
  {
  }

  lemma EnterKeepsOwnedIds(ids: map<Id, nat>, records: map<nat, Record>, tombs: map<nat, Tomb>, owned: set<Id>,
                           k: nat, r: Record)
    requires IdsOk(ids, records, tombs) && OwnedIdsOk(ids, records, tombs, owned)
    requires k !in records && k !in tombs && r.id !in ids && r.connection == Unbound
    ensures OwnedIdsOk(ids[r.id := k], records[k := r], tombs, owned)
  {
  }

  lemma FreshNumber(st: Ledger)
    requires Inv(st)
    ensures st.nTotal + 1 !in st.records && st.nTotal + 1 !in st.tombs && st.nTotal + 1 !in st.retired
  {
    hide IdsOk, OwnersOk, OwnedIdsOk, RecordsOk, CumulativeOk, ChangesOk, FrozenOk, LineOk;
  }

  lemma EnterKeepsRecords(st: Ledger, e: Event)
    requires e.Register? && RecordsOk(st.start, st.frontier, st.records)
    requires st.start <= e.startedWall && e.source != Unsupported
    ensures var t := Enter(st, e); RecordsOk(t.start, t.frontier, t.records)
  {
  }

  lemma EnterKeepsRegistered(registered: seq<Registration>, records: map<nat, Record>, retired: map<nat, Record>,
                             r: Record)
    requires RegisteredOk(registered, records, retired)
    ensures RegisteredOk(registered + [Registration(r.source, r.startedWall)], records[|registered| + 1 := r], retired)
  {
    var longer := registered + [Registration(r.source, r.startedWall)];
    StillRegistered(registered, longer, records);
    StillRegistered(registered, longer, retired);
    hide AllRegistered;
    assert |registered| + 1 !in records && |registered| + 1 !in retired;
    OneMoreRegistered(longer, records, r);
  }

  lemma StillRegistered(registered: seq<Registration>, longer: seq<Registration>, records: map<nat, Record>)
    requires registered <= longer && AllRegistered(registered, records)
    ensures AllRegistered(longer, records)
    ensures |registered| + 1 !in records
  {
    forall k | k in records ensures RegistrationIs(longer, k, records[k]) {
      assert RegistrationIs(registered, k, records[k]);
    }
    assert forall k :: k in records ==> RegistrationIs(registered, k, records[k]);
  }

  lemma OneMoreRegistered(registered: seq<Registration>, records: map<nat, Record>, r: Record)
    requires AllRegistered(registered, records) && RegistrationIs(registered, |registered|, r)
    ensures AllRegistered(registered, records[|registered| := r])
  {
  }

  lemma EnterKeepsChanges(st: Ledger, e: Event)
    requires e.Register? && st.nTotal + 1 !in st.records && st.nTotal + 1 !in st.retired
    requires ChangesOk(st.changes, st.records, st.retired)
    ensures ChangesOk(st.changes, Enter(st, e).records, st.retired)
  {
    forall j: nat ensures ChangeOk(ActionsOf(st.changes, j), j, Enter(st, e).records, st.retired) {
      assert ChangeOk(ActionsOf(st.changes, j), j, st.records, st.retired);
    }
  }

  lemma EnterSize(st: Ledger, e: Event)
    requires e.Register? && st.nTotal + 1 !in st.records
    ensures |Enter(st, e).records| == |st.records| + 1
  {
    hide NewRecord;
  }

  lemma NewRecordFields(e: Event)
    requires e.Register?
    ensures NewRecord(e).id == e.id && NewRecord(e).source == e.source && NewRecord(e).startedWall == e.startedWall
    ensures NewRecord(e).job == e.job && NewRecord(e).connection == Unbound && NewRecord(e).finish.None?
  {
  }

  lemma EnterKeeps(st: Ledger, e: Event)
    requires e.Register? && Inv(st) && e.id !in st.ids && |st.records| + |st.tombs| < st.maxRecords
    requires st.start <= e.startedWall && e.source != Unsupported
    ensures Inv(Enter(st, e))
  {
    hide IdsOk, OwnersOk, OwnedIdsOk, RecordsOk, FrontierOk, RetiredRecordsOk, CumulativeOk, RegisteredOk, TombsOk,
         ChangesOk, FrozenOk, LineOk, NewRecord;
    NewRecordFields(e);
    FreshNumber(st);
    EnterKeepsIdentities(st.ids, st.records, st.tombs, st.owners, st.nTotal + 1, NewRecord(e));
    EnterKeepsOwnedIds(st.ids, st.records, st.tombs, st.ownedIds, st.nTotal + 1, NewRecord(e));
    EnterKeepsRecords(st, e);
    EnterKeepsRegistered(st.registered, st.records, st.retired, NewRecord(e));
    EnterKeepsChanges(st, e);
    EnterSize(st, e);
  }

  lemma UnavailableIsOk(start: int, frontier: Option<int>, r: Record, s: Record)
    requires RecordOk(start, frontier, r)
    requires s.id == r.id && s.source == r.source && s.startedWall == r.startedWall && s.startedMono == r.startedMono
    requires s.inclusion == r.inclusion && s.finish == r.finish && s.detail == r.detail
    requires s.connection == r.connection || (r.connection.Unbound? && s.connection.InitFailed?)
    requires s.lifecycle == (if Unreported(r) then ReportUnavailable else r.lifecycle)
    ensures RecordOk(start, frontier, s) && SameStanding(r, s)
  {
  }

  function Noted(r: Record, e: Event): Record
    requires e.Register?
  {
    var noted := r.(exit := NextEntry(e.startedWall, e.startedMono));
    if Unreported(noted) then Unavailable(noted) else noted
  }

  lemma NotedKeeps(st: Ledger, e: Event, k: nat)
    requires e.Register? && Inv(st) && k in st.records
    ensures Inv(st.(records := st.records[k := Noted(st.records[k], e)]))
    ensures |st.records[k := Noted(st.records[k], e)]| == |st.records|
  {
    LiveRecordOk(st, k);
    UnavailableIsOk(st.start, st.frontier, st.records[k], Noted(st.records[k], e));
    SizeOfKeys(st.records);
    SizeOfKeys(st.records[k := Noted(st.records[k], e)]);
    assert st.records[k := Noted(st.records[k], e)].Keys == st.records.Keys;
    hide Inv, RecordOk, Noted;
    var r := Noted(st.records[k], e);
    PutKeeps(st, k, r);
    JobsDoNotMatter(Put(st, k, r), st.jobs);
    assert Put(st, k, r).(jobs := st.jobs) == st.(records := st.records[k := r]);
  }

  lemma NoteNextEntryKeeps(st: Ledger, e: Event)
    requires e.Register? && Inv(st)
    ensures Inv(NoteNextEntry(st, e))
    ensures NoteNextEntry(st, e).(records := st.records) == st
    ensures |NoteNextEntry(st, e).records| == |st.records|
  {
    hide Inv;
    if e.serial && e.job.Some? && (e.source, e.job.value) in st.jobs {
      var p := st.jobs[(e.source, e.job.value)];
      if EndsPrevious(p, e.startedWall, e.startedMono) && p.seqNo in st.records {
        NotedKeeps(st, e, p.seqNo);
      }
    }
  }

  lemma NotResident(st: Ledger, id: Id)
    requires Inv(st) && !Live(st, id) && !Tombstoned(st, id)
    ensures id !in st.ids
  {
  }

  lemma AdmissionKeeps(st: Ledger)
    requires Inv(st)
    ensures Inv(st.(admissionStopped := true))
  {
    hide IdsOk, OwnersOk, OwnedIdsOk, RecordsOk, FrontierOk, RetiredRecordsOk, CumulativeOk, RegisteredOk, TombsOk,
         ChangesOk, FrozenOk, LineOk;
  }

  lemma RegisterApplyKeeps(st: Ledger, e: Event)
    requires e.Register? && Inv(st)
    requires Live(st, e.id) || st.start <= e.startedWall || st.start < CohortExactFrom(st.frozenThrough)
    ensures Inv(RegisterApply(st, e).0)
  {
    hide IdsOk, OwnersOk, OwnedIdsOk, RecordsOk, FrontierOk, RetiredRecordsOk, CumulativeOk, RegisteredOk, TombsOk,
         ChangesOk, FrozenOk, LineOk;
    if Live(st, e.id) {
      TouchKeeps(st, st.ids[e.id]);
      IsolateAndTouchKeeps(st, st.ids[e.id], AsConflict);
    } else if !Tombstoned(st, e.id) {
      NotResident(st, e.id);
      AdmissionKeeps(st);
      NoteNextEntryKeeps(st, e);
      if e.source != Unsupported && st.start <= e.startedWall && |st.records| + |st.tombs| < st.maxRecords {
        EnterKeeps(NoteNextEntry(st, e), e);
      }
    }
  }

  lemma ClockDoesNotMatter(st: Ledger, c: Clock)
    requires Inv(st)
    ensures Inv(st.(clock := c))
  {
    hide IdsOk, OwnersOk, OwnedIdsOk, RecordsOk, FrontierOk, RetiredRecordsOk, CumulativeOk, RegisteredOk, TombsOk,
         ChangesOk, FrozenOk, LineOk;
  }

  // ---- Link ----

  lemma BindKeepsIdentities(ids: map<Id, nat>, records: map<nat, Record>, tombs: map<nat, Tomb>,
                            owners: map<(Source, Round), nat>, k: nat, round: Round, r: Record)
    requires IdsOk(ids, records, tombs) && OwnersOk(records, tombs, owners)
    requires k in records && records[k].connection == Unbound && (records[k].source, round) !in owners
    requires r.id == records[k].id && r.source == records[k].source && r.connection == Started(round)
    ensures IdsOk(ids, records[k := r], tombs) && OwnersOk(records[k := r], tombs, owners[(r.source, round) := k])
  {
  }

  lemma BindKeepsOwnedIds(ids: map<Id, nat>, records: map<nat, Record>, tombs: map<nat, Tomb>, owned: set<Id>,
                          k: nat, r: Record)
    requires IdsOk(ids, records, tombs) && OwnedIdsOk(ids, records, tombs, owned)
    requires k in records && r.id == records[k].id && r.connection.Started?
    ensures OwnedIdsOk(ids, records[k := r], tombs, owned + {r.id})
  {
  }

  lemma BindKeepsHistory(st: Ledger, k: nat, r: Record)
    requires k in st.records
    requires r.source == st.records[k].source && r.startedWall == st.records[k].startedWall
    requires r.finish == st.records[k].finish && r.inclusion == st.records[k].inclusion
    requires RegisteredOk(st.registered, st.records, st.retired)
    requires ChangesOk(st.changes, st.records, st.retired)
    ensures RegisteredOk(st.registered, st.records[k := r], st.retired)
    ensures ChangesOk(st.changes, st.records[k := r], st.retired)
    ensures |st.records[k := r]| == |st.records|
  {
    assert st.records[k := r].Keys == st.records.Keys;
    ReplaceKeepsRegistered(st, st.records[k := r]);
    hide RegisteredOk;
    SizeOfKeys(st.records);
    SizeOfKeys(st.records[k := r]);
    forall j: nat ensures ChangeOk(ActionsOf(st.changes, j), j, st.records[k := r], st.retired) {
      assert ChangeOk(ActionsOf(st.changes, j), j, st.records, st.retired);
    }
  }

  function Bound(r: Record, round: Round): Record {
    r.(connection := Started(round), lifecycle := if r.lifecycle == AwaitingReport then InFlight else r.lifecycle)
  }

  lemma BoundIsOk(start: int, frontier: Option<int>, r: Record, round: Round)
    requires RecordOk(start, frontier, r)
    ensures RecordOk(start, frontier, Bound(r, round))
  {
  }

  lemma Unowned(st: Ledger, k: nat, key: (Source, Round))
    requires Inv(st) && k in st.records && !OwnedByOther(st, k, key) && st.records[k].connection == Unbound
    ensures key !in st.owners
  {
    assert key in st.owners ==> Owns(st.records, st.tombs, st.owners[key], key);
  }

  lemma BindKeeps(st: Ledger, k: nat, round: Round)
    requires Inv(st) && k in st.records && st.records[k].connection == Unbound
    requires !OwnedByOther(st, k, (st.records[k].source, round))
    ensures Inv(Bind(st, k, round))
  {
    var r := Bound(st.records[k], round);
    Unowned(st, k, (st.records[k].source, round));
    LiveRecordOk(st, k);
    BoundIsOk(st.start, st.frontier, st.records[k], round);
    hide IdsOk, OwnersOk, OwnedIdsOk, RecordsOk, FrontierOk, RetiredRecordsOk, CumulativeOk, RegisteredOk, TombsOk,
         ChangesOk, FrozenOk, LineOk, RecordOk;
    PutKeepsRecords(st.start, st.frontier, st.records, k, r);
    BindKeepsIdentities(st.ids, st.records, st.tombs, st.owners, k, round, r);
    BindKeepsOwnedIds(st.ids, st.records, st.tombs, st.ownedIds, k, r);
    BindKeepsHistory(st, k, r);
  }

  lemma LinkLiveKeeps(st: Ledger, k: nat, e: Event)
    requires e.LinkRound? && Inv(st) && k in st.records
    ensures Inv(LinkLive(st, k, e).0)
  {
    hide Inv;
    ConflictKeeps(st, k, (st.records[k].source, e.round));
    IsolateKeeps(st, k, AsConflict);
    TouchKeeps(st, k);
    IsolateAndTouchKeeps(st, k, AsMixed);
    IsolateAndTouchKeeps(st, k, AsUnavailable);
    if st.records[k].connection == Unbound && !OwnedByOther(st, k, (st.records[k].source, e.round)) {
      BindKeeps(st, k, e.round);
      TouchKeeps(Bind(st, k, e.round), k);
    }
  }

  // ---- Finish ----

  /** An advance never closes a bucket that is still open for a report. */
  lemma AdvanceStaysBehind(st: Ledger, wall: int, mono: int, finishedWall: int)
    requires Inv(st) && st.start <= finishedWall && wall < CloseAt(finishedWall)
    requires st.frontier.Some? ==> BucketEnd(finishedWall) > st.frontier.value
    ensures BucketEnd(finishedWall) > PreviousEnd(st.start, Advance(st, wall, mono).frontier)
  {
    hide Inv;
    AdvanceFields(st, wall, mono);
    StaysBehind(st, wall, mono, finishedWall);
  }

  lemma StaysBehind(st: Ledger, wall: int, mono: int, finishedWall: int)
    requires st.start <= finishedWall && wall < CloseAt(finishedWall)
    requires st.frontier.Some? ==> BucketEnd(finishedWall) > st.frontier.value
    ensures BucketEnd(finishedWall) > PreviousEnd(st.start, CloseBuckets(st, wall, mono).frontier)
  {
    TargetIsWholeMinute(st.records, wall, mono);
    hide CloseTarget, Closing, IncludedOf, Contributions, Total, CohortTallies, LatestStart, Bury;
  }

  /** A finish that stays in step after the ledger has advanced. */
  predicate InStep(st: Ledger, e: Event)
    requires e.Finish?
  {
    Live(st, e.id) && st.records[st.ids[e.id]].connection == Started(e.round)
    && st.records[st.ids[e.id]].finish.None? && WithinClocks(st.records[st.ids[e.id]], e)
    && e.wall < CloseAt(e.finishedWall)
    ==> BucketEnd(e.finishedWall) > PreviousEnd(st.start, st.frontier)
  }

  lemma SurvivorBefore(st: Ledger, wall: int, mono: int, id: Id)
    requires Live(Advance(st, wall, mono), id)
    ensures Live(st, id) && Advance(st, wall, mono).ids[id] == st.ids[id]
    ensures Advance(st, wall, mono).records[st.ids[id]] == MarkOverdue(st.records[st.ids[id]], mono)
  {
    AdvanceIds(st, wall, mono);
    AdvanceRecord(st, wall, mono, st.ids[id]);
  }

  lemma AdvanceInStep(st: Ledger, e: Event)
    requires e.Finish? && Inv(st)
    requires Live(st, e.id) ==> !FinishOutOfStep(st, st.records[st.ids[e.id]], e)
    ensures InStep(Advance(st, e.wall, e.mono), e)
  {
    hide Inv, Advance;
    var a := Advance(st, e.wall, e.mono);
    if Live(a, e.id) {
      SurvivorBefore(st, e.wall, e.mono, e.id);
      var r := st.records[st.ids[e.id]];
      LiveRecordOk(st, st.ids[e.id]);
      if r.connection == Started(e.round) && r.finish.None? && WithinClocks(r, e) && e.wall < CloseAt(e.finishedWall) {
        AdvanceStaysBehind(st, e.wall, e.mono, e.finishedWall);
        AdvanceFields(st, e.wall, e.mono);
      }
    }
  }

  lemma FinishedIsOk(start: int, frontier: Option<int>, r: Record, e: Event)
    requires e.Finish? && RecordOk(start, frontier, r) && r.finish.None? && r.connection.Started? && WithinClocks(r, e)
    requires BucketEnd(e.finishedWall) > PreviousEnd(start, frontier)
    ensures var s :=
              Finished(r, e).(lifecycle := ReportUnavailable, inclusion := OpenExcluded, everUnavailable := true);
            RecordOk(start, frontier, s) && SameStanding(r, s)
    ensures var s := Finished(r, e).(lifecycle := Finalized, inclusion := OpenIncluded,
                       detail := Some(Normalize(r.source, e.report.summary, e.report.telemetryError)));
            RecordOk(start, frontier, s) && Announces(r, s, Add)
  {
    NormalizeIsWellFormed(r.source, e.report.summary, e.report.telemetryError);
    hide Normalize, WellFormed;
  }

  lemma OneRetirable(start: int, frontier: Option<int>, records: map<nat, Record>, k: nat, last: Record)
    requires k in records && records[k].finish.None? && SameIdentity(records[k], last)
    requires RecordOk(start, frontier, records[k]) && last.inclusion == PostCloseExcluded
    ensures Retirable(records, map[k := last]) && Settled(records, map[k := last])
    ensures IncludedOf(map[k := last]) == map[]
  {
    var dead := map[k := last];
    assert dead.Keys == {k};
  }

  lemma LateFinishIsRetire(st: Ledger, k: nat, last: Record, wall: int, mono: int)
    requires k in st.records
    ensures Retire(Put(st, k, last), map[k := last], wall, mono)
            == Retire(st, map[k := last], wall, mono).(jobs := SyncJob(st.jobs, k, last))
  {
    hide Bury, CohortTallies, SyncJob, LatestStart;
    assert map[k := last].Keys == {k};
    assert st.records[k := last] - {k} == st.records - {k};
  }

  lemma LateFinishKeeps(st: Ledger, k: nat, last: Record, wall: int, mono: int)
    requires Inv(st) && k in st.records && st.records[k].finish.None? && SameIdentity(st.records[k], last)
    requires last.inclusion == PostCloseExcluded
    ensures Inv(Retire(Put(st, k, last), map[k := last], wall, mono))
  {
    hide Inv, Retire, SyncJob, RecordOk, Settled, Retirable;
    LiveRecordOk(st, k);
    OneRetirable(st.start, st.frontier, st.records, k, last);
    CountNothing(st, map[k := last]);
    RetireKeeps(st, map[k := last], wall, mono);
    JobsDoNotMatter(Retire(st, map[k := last], wall, mono), SyncJob(st.jobs, k, last));
    LateFinishIsRetire(st, k, last, wall, mono);
  }

  lemma FirstFinishKeeps(st: Ledger, k: nat, e: Event)
    requires e.Finish? && Inv(st) && k in st.records
    requires st.records[k].finish.None? && st.records[k].connection.Started? && WithinClocks(st.records[k], e)
    requires e.wall < CloseAt(e.finishedWall) ==> BucketEnd(e.finishedWall) > PreviousEnd(st.start, st.frontier)
    ensures Inv(FirstFinish(st, k, e).0)
  {
    hide Inv, RecordOk, Finished, Normalize, SyncJob, Retire, CloseAt, SameIdentity, SameStanding, Announces,
           PreviousEnd,
         WithinClocks;
    LiveRecordOk(st, k);
    var r := Finished(st.records[k], e);
    FinishedIdentity(st.records[k], e);
    if e.wall >= CloseAt(e.finishedWall) {
      LateFinishKeeps(st, k, r.(lifecycle := Finalized, inclusion := PostCloseExcluded), e.wall, e.mono);
    } else {
      FinishedIsOk(st.start, st.frontier, st.records[k], e);
      if e.report.retention != Keep {
        var s := r.(lifecycle := ReportUnavailable, inclusion := OpenExcluded, everUnavailable := true);
        PutKeeps(st, k, s);
        AdmissionMayStop(Put(st, k, s), e.report.retention == OverBudget);
      } else {
        AnnounceKeeps(st, k, r.(lifecycle := Finalized, inclusion := OpenIncluded,
                      detail := Some(Normalize(r.source, e.report.summary, e.report.telemetryError))), Add);
      }
    }
  }

  lemma FinishedIdentity(r: Record, e: Event)
    requires e.Finish?
    ensures Finished(r, e).source == r.source
    ensures SameIdentity(r, Finished(r, e).(lifecycle := Finalized, inclusion := PostCloseExcluded))
  {
  }

  lemma AdmissionMayStop(st: Ledger, stop: bool)
    requires Inv(st)
    ensures Inv(st.(admissionStopped := st.admissionStopped || stop))
  {
    AdmissionKeeps(st);
    hide Inv;
    assert st.(admissionStopped := st.admissionStopped) == st;
  }

  lemma FinishStartedKeeps(st: Ledger, k: nat, e: Event)
    requires e.Finish? && Inv(st) && k in st.records && st.records[k].connection == Started(e.round)
    requires st.records[k].finish.None? && WithinClocks(st.records[k], e) && e.wall < CloseAt(e.finishedWall) ==>
               BucketEnd(e.finishedWall) > PreviousEnd(st.start, st.frontier)
    ensures Inv(FinishStarted(st, k, e).0)
  {
    hide Inv, FirstFinish;
    TouchKeeps(st, k);
    IsolateAndTouchKeeps(st, k, AsMixed);
    IsolateAndTouchKeeps(st, k, AsUnavailable);
    IsolateAndTouchKeeps(st, k, AsConflict);
    if st.records[k].finish.None? && WithinClocks(st.records[k], e) {
      FirstFinishKeeps(st, k, e);
    }
  }

  lemma FinishLiveKeeps(st: Ledger, k: nat, e: Event)
    requires e.Finish? && Inv(st) && Live(st, e.id) && k == st.ids[e.id] && InStep(st, e)
    ensures Inv(FinishLive(st, k, e).0)
  {
    hide Inv, FinishStarted;
    ConflictKeeps(st, k, (st.records[k].source, e.round));
    IsolateKeeps(st, k, AsConflict);
    IsolateAndTouchKeeps(st, k, AsUnavailable);
    if st.records[k].connection == Started(e.round) {
      FinishStartedKeeps(st, k, e);
    }
  }

  // ---- Evidence ----

  lemma EvidenceKeeps(st: Ledger, k: nat, s: Record)
    requires Inv(st) && k in st.records
    requires var r := st.records[k];
             && s.id == r.id && s.source == r.source && s.startedWall == r.startedWall && s.startedMono == r.startedMono
             && s.inclusion == r.inclusion && s.finish == r.finish && s.detail == r.detail
             && (s.connection == r.connection || (r.connection.Unbound? && s.connection.InitFailed?))
             && (s.lifecycle == (if Unreported(r) then ReportUnavailable else r.lifecycle)
                 || s.lifecycle == r.lifecycle)
    ensures Inv(Put(st, k, s))
  {
    LiveRecordOk(st, k);
    assert RecordOk(st.start, st.frontier, s) && SameStanding(st.records[k], s);
    hide Inv;
    PutKeeps(st, k, s);
  }

  lemma InitFailedApplyKeeps(st: Ledger, e: Event)
    requires e.ReportInitFailed? && Inv(st)
    ensures Inv(InitFailedApply(st, e).0)
  {
    hide Inv;
    if Live(st, e.id) {
      var k := st.ids[e.id];
      var r := st.records[k];
      var at := r.(initFailed := Some(Instant(e.failedWall, e.failedMono)));
      if r.connection.Started? {
        EvidenceKeeps(st, k, at);
        IsolateKeeps(Put(st, k, at), k, AsConflict);
      } else {
        var failed := at.(connection := InitFailed);
        EvidenceKeeps(st, k, if Unreported(r) then Unavailable(failed) else failed);
      }
    }
  }

  lemma ExitApplyKeeps(st: Ledger, e: Event)
    requires e.WrapperExit? && Inv(st)
    ensures Inv(ExitApply(st, e).0)
  {
    hide Inv;
    if Live(st, e.id) {
      var k := st.ids[e.id];
      var exited := st.records[k].(exit := WrapperExited(e.exitedWall, e.exitedMono));
      EvidenceKeeps(st, k, if Unreported(st.records[k]) then Unavailable(exited) else exited);
    }
  }

  // ---- Steps and runs ----

  /** A live record that an advance retires pushes the frozen line past the start of the ledger. */
  lemma RetiredFreezes(st: Ledger, wall: int, mono: int, id: Id)
    requires Inv(st) && Live(st, id) && !Live(Advance(st, wall, mono), id)
    ensures st.start < CohortExactFrom(Advance(st, wall, mono).frozenThrough)
  {
    hide Inv, Advance;
    var k := st.ids[id];
    LiveRecordOk(st, k);
    AdvanceKeeps(st, wall, mono);
    AdvanceFields(st, wall, mono);
    AdvanceIds(st, wall, mono);
    if k in Advance(st, wall, mono).records {
      StillLive(st, Advance(st, wall, mono), id);
    } else {
      StartOf(st, k);
      FrozenCovers(Advance(st, wall, mono), k);
    }
  }

  lemma StillLive(st: Ledger, a: Ledger, id: Id)
    requires Inv(st) && Inv(a) && Live(st, id) && st.ids[id] in a.records
    requires forall i :: i in a.ids ==> i in st.ids && a.ids[i] == st.ids[i]
    ensures Live(a, id)
  {
    hide OwnersOk, OwnedIdsOk, RecordsOk, FrontierOk, CumulativeOk, RegisteredOk, ChangesOk, FrozenOk, LineOk;
    assert st.records[st.ids[id]].id == id;
    assert a.ids[a.records[st.ids[id]].id] == st.ids[id];
  }

  lemma StartOf(st: Ledger, k: nat)
    requires Inv(st) && k in st.records
    ensures 1 <= k <= st.nTotal == |st.registered|
    ensures st.registered[k - 1] == Registration(st.records[k].source, st.records[k].startedWall)
  {
    assert RegistrationIs(st.registered, k, st.records[k]);
  }

  lemma FrozenCovers(st: Ledger, k: nat)
    requires Inv(st) && 1 <= k <= st.nTotal && k !in st.records
    ensures k in st.retired && k <= |st.registered|
    ensures st.frozenThrough.Some? && st.registered[k - 1].startedWall <= st.frozenThrough.value
  {
    assert RegistrationIs(st.registered, k, st.retired[k]);
  }

  lemma RegisterStepKeeps(st: Ledger, e: Event)
    requires e.Register? && Inv(st)
    ensures Inv(RegisterStep(st, e).0)
  {
    hide Inv, Advance, CheckClock, RegisterApply, IdentityFault;
    NoIdentityFault(st, e.id);
    NoIndexError(st);
    var gate := CheckClock(st.clock, e.wall, e.mono);
    if gate.Rejected? {
      ClockDoesNotMatter(st, gate.clock);
    } else {
      var a := Advance(st, e.wall, e.mono);
      AdvanceKeeps(st, e.wall, e.mono);
      AdvanceFields(st, e.wall, e.mono);
      if Live(st, e.id) && !Live(a, e.id) {
        RetiredFreezes(st, e.wall, e.mono, e.id);
      }
      if Live(a, e.id) || st.start <= e.startedWall || a.start < CohortExactFrom(a.frozenThrough) {
        RegisterApplyKeeps(a, e);
      }
    }
  }

  lemma NoIndexError(st: Ledger)
    requires Inv(st)
    ensures !st.indexError
  {
  }

  lemma LinkStepKeeps(st: Ledger, e: Event)
    requires e.LinkRound? && Inv(st)
    ensures Inv(LinkStep(st, e).0)
  {
    hide Inv, Advance, CheckClock, LinkLive, IdentityFault, CandidateFault;
    NoIdentityFault(st, e.id);
    NoIndexError(st);
    if Live(st, e.id) {
      NoCandidateFault(st, (st.records[st.ids[e.id]].source, e.round));
    }
    var gate := CheckClock(st.clock, e.wall, e.mono);
    if gate.Rejected? {
      ClockDoesNotMatter(st, gate.clock);
    } else {
      var a := Advance(st, e.wall, e.mono);
      AdvanceKeeps(st, e.wall, e.mono);
      if Live(a, e.id) {
        LinkLiveKeeps(a, a.ids[e.id], e);
      }
    }
  }

  lemma FinishStepKeeps(st: Ledger, e: Event)
    requires e.Finish? && Inv(st)
    ensures Inv(FinishStep(st, e).0)
  {
    hide Inv, Advance, CheckClock, FinishLive, IdentityFault, CandidateFault, FinishOutOfStep, InStep;
    NoIdentityFault(st, e.id);
    NoIndexError(st);
    if Live(st, e.id) {
      NoCandidateFault(st, (st.records[st.ids[e.id]].source, e.round));
    }
    var gate := CheckClock(st.clock, e.wall, e.mono);
    if gate.Rejected? {
      ClockDoesNotMatter(st, gate.clock);
    } else {
      var a := Advance(st, e.wall, e.mono);
      AdvanceKeeps(st, e.wall, e.mono);
      if Live(a, e.id) && (Live(st, e.id) ==> !FinishOutOfStep(st, st.records[st.ids[e.id]], e)) {
        AdvanceInStep(st, e);
        FinishLiveKeeps(a, a.ids[e.id], e);
      }
    }
  }

  lemma InitFailedStepKeeps(st: Ledger, e: Event)
    requires e.ReportInitFailed? && Inv(st)
    ensures Inv(InitFailedStep(st, e).0)
  {
    hide Inv, Advance, CheckClock, InitFailedApply, IdentityFault;
    NoIdentityFault(st, e.id);
    NoIndexError(st);
    var gate := CheckClock(st.clock, e.wall, e.mono);
    if gate.Rejected? {
      ClockDoesNotMatter(st, gate.clock);
    } else {
      AdvanceKeeps(st, e.wall, e.mono);
      InitFailedApplyKeeps(Advance(st, e.wall, e.mono), e);
    }
  }

  lemma ExitStepKeeps(st: Ledger, e: Event)
    requires e.WrapperExit? && Inv(st)
    ensures Inv(ExitStep(st, e).0)
  {
    hide Inv, Advance, CheckClock, ExitApply, IdentityFault;
    NoIdentityFault(st, e.id);
    NoIndexError(st);
    var gate := CheckClock(st.clock, e.wall, e.mono);
    if gate.Rejected? {
      ClockDoesNotMatter(st, gate.clock);
    } else {
      AdvanceKeeps(st, e.wall, e.mono);
      ExitApplyKeeps(Advance(st, e.wall, e.mono), e);
    }
  }

  lemma ObserveStepKeeps(st: Ledger, e: Event)
    requires e.Observe? && Inv(st)
    ensures Inv(ObserveStep(st, e).0)
  {
    hide Inv, Advance, CheckClock;
    NoIndexError(st);
    var gate := CheckClock(st.clock, e.wall, e.mono);
    if gate.Rejected? {
      ClockDoesNotMatter(st, gate.clock);
    } else {
      AdvanceKeeps(st, e.wall, e.mono);
    }
  }

  lemma StepKeeps(st: Ledger, e: Event)
    requires Inv(st)
    ensures Inv(Step(st, e).0)
  {
    hide Inv, RegisterStep, LinkStep, FinishStep, InitFailedStep, ExitStep, ObserveStep;
    match e {
      case Register(_, _, _, _, _, _, _, _, _) => RegisterStepKeeps(st, e);
      case LinkRound(_, _, _, _, _) => LinkStepKeeps(st, e);
      case Finish(_, _, _, _, _, _, _, _) => FinishStepKeeps(st, e);
      case ReportInitFailed(_, _, _, _, _) => InitFailedStepKeeps(st, e);
      case WrapperExit(_, _, _, _, _) => ExitStepKeeps(st, e);
      case Observe(_, _) => ObserveStepKeeps(st, e);
    }
  }

  lemma {:induction false} RunKeeps(start: int, maxRecords: nat, events: seq<Event>)
    ensures Inv(Run(EmptyLedger(start, maxRecords), events))
    decreases |events|
  {
    hide Inv, Step;
    if events == [] {
      EmptyLedgerInv(start, maxRecords);
    } else {
      RunKeeps(start, maxRecords, events[..|events| - 1]);
      StepKeeps(Run(EmptyLedger(start, maxRecords), events[..|events| - 1]), events[|events| - 1]);
    }
  }
}
