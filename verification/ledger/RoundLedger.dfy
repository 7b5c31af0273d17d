/** The round ledger as it runs: its dictionaries and counters (`core`) and its hand-kept indexes (`index`) are updated
    in place by every operation, and every operation is proved to do what LedgerSpec.dfy says by plain scans. */
module RoundLedgers {
  import opened Wrappers
  import opened Totals
  import opened Axes
  import opened LedgerState
  import opened LedgerSpec
  import opened LedgerInvariant
  import opened LedgerAdvance
  import opened LedgerSafety
  import opened LedgerTheorems
  import opened LedgerIndexes
  import opened LedgerEngine
  import LedgerEffects

  // ---- Changing one record ----

  /** Replaces a record whose entries stay as they are, except perhaps its overdue deadline. */
  method Update(st: Ledger, ix: Indexes, k: nat, r: Record) returns (now: Ledger, nowIx: Indexes)
    requires Agree(st, ix) && k in st.records && QuietlyBecomes(st.records[k], r)
    ensures now == Put(st, k, r) && Agree(now, nowIx)
  {
    hide Agree, SyncJob, QuietlyBecomes;
    now, nowIx := StoreQuietly(st, ix, k, r);
    JobsAgree(now, nowIx, SyncJob(st.jobs, k, r));
    now := now.(jobs := SyncJob(st.jobs, k, r));
  }

  /** The indexes do not see the difference, apart from an overdue deadline that lapses. */
  predicate QuietlyBecomes(q: Record, r: Record) {
    && CloseKey(r) == CloseKey(q) && ExpiryKey(r) == ExpiryKey(q) && BucketKey(r) == BucketKey(q)
    && (OverdueKey(r) == OverdueKey(q) || OverdueKey(r).None?)
    && r.source == q.source && r.startedWall == q.startedWall
  }

  method StoreQuietly(st: Ledger, ix: Indexes, k: nat, r: Record) returns (now: Ledger, nowIx: Indexes)
    requires Agree(st, ix) && k in st.records && QuietlyBecomes(st.records[k], r)
    ensures now == st.(records := st.records[k := r]) && Agree(now, nowIx)
  {
    hide Agree, CloseKey, ExpiryKey, BucketKey, OverdueKey;
    now, nowIx := StoreQuiet(st, ix, k, r);
  }

  lemma JobsAgree(st: Ledger, ix: Indexes, jobs: map<(Source, int), JobSummary>)
    requires Agree(st, ix)
    ensures Agree(st.(jobs := jobs), ix)
  {
    hide DeadlinesOk, PruneOk, OpenOk, CohortsOk, CountsOk;
  }

  lemma OpenHasFinish(st: Ledger, k: nat)
    requires Inv(st) && k in st.records && st.records[k].inclusion == OpenIncluded
    ensures st.records[k].finish.Some?
  {
    LiveRecordOk(st, k);
  }

  /** Gives up on the report of a record, taking it off the open lists and the overdue index. */
  method Isolate(st: Ledger, ix: Indexes, k: nat, how: Isolation) returns (now: Ledger, nowIx: Indexes)
    requires Inv(st) && Agree(st, ix) && k in st.records
    ensures now == IsolateRecord(st, k, how) && Agree(now, nowIx) && Inv(now)
  {
    hide Inv, Agree, SyncJob, Isolated, Open, OpenOk;
    IsolateKeeps(st, k, how);
    var r := st.records[k];
    var s := Isolated(r, how);
    nowIx := ix;
    OpenAgrees(st, ix);
    if r.inclusion == OpenIncluded {
      OpenHasFinish(st, k);
      OpenEntry(st.records, k);
      nowIx := DropOpen(nowIx, k, FloorMinute(r.finish.value.wall), Open(st.records));
    }
    IsolatedAgrees(st, ix, k, how, nowIx.openSeq, nowIx.buckets);
    nowIx := nowIx.(overdue := ix.overdue - {k});
    now := st.(records := st.records[k := s], jobs := SyncJob(st.jobs, k, s),
               changes := if r.inclusion == OpenIncluded then st.changes + [Change(k, Remove)] else st.changes);
  }

  lemma OpenAgrees(st: Ledger, ix: Indexes)
    requires Agree(st, ix)
    ensures OpenOk(Open(st.records), ix.openSeq, ix.buckets)
  {
  }

  lemma IsolatedAgrees(st: Ledger, ix: Indexes, k: nat, how: Isolation, openSeq: seq<nat>, buckets: map<int, seq<nat>>)
    requires Agree(st, ix) && k in st.records
    requires OpenOk(if st.records[k].inclusion == OpenIncluded then Open(st.records) - {k} else Open(st.records),
                    openSeq, buckets)
    ensures Agree(IsolateRecord(st, k, how), ix.(openSeq := openSeq, buckets := buckets, overdue := ix.overdue - {k}))
  {
    hide DeadlinesOk, OpenOk, CohortsOk, CountsOk, PruneOk, SyncJob, Isolated, Open;
    IsolatedIndexes(st.records, ix, k, how);
    CohortsPut(st.records, ix.cohorts, k, Isolated(st.records[k], how));
    CountsPut(st.records, st.tombs, ix, k, Isolated(st.records[k], how));
  }

  lemma OpenEntry(records: map<nat, Record>, k: nat)
    requires k in records && records[k].inclusion == OpenIncluded && records[k].finish.Some?
    ensures k in Open(records) && Open(records)[k] == FloorMinute(records[k].finish.value.wall)
  {
  }

  lemma IsolatedIndexes(records: map<nat, Record>, ix: Indexes, k: nat, how: Isolation)
    requires DeadlinesOk(records, ix.close, ix.overdue, ix.expiry) && k in records
    ensures DeadlinesOk(records[k := Isolated(records[k], how)], ix.close, ix.overdue - {k}, ix.expiry)
    ensures Open(records[k := Isolated(records[k], how)])
            == if records[k].inclusion == OpenIncluded then Open(records) - {k} else Open(records)
    ensures Isolated(records[k], how).source == records[k].source
    ensures Isolated(records[k], how).startedWall == records[k].startedWall
  {
    var s := Isolated(records[k], how);
    ScanSame(records, k, s, CloseKey);
    ScanSame(records, k, s, ExpiryKey);
    ScanPut(records, k, s, OverdueKey);
    ScanPut(records, k, s, BucketKey);
    if records[k].inclusion != OpenIncluded {
      NotOpen(records, k);
    }
  }

  lemma TouchedQuietly(r: Record)
    ensures QuietlyBecomes(r, Touched(r))
  {
  }

  method TouchOne(st: Ledger, ix: Indexes, k: nat) returns (now: Ledger, nowIx: Indexes)
    requires Inv(st) && Agree(st, ix) && k in st.records
    ensures now == Touch(st, k) && Agree(now, nowIx) && Inv(now)
  {
    hide Inv, Agree, Put, Touched, QuietlyBecomes;
    TouchKeeps(st, k);
    TouchedQuietly(st.records[k]);
    now, nowIx := Update(st, ix, k, Touched(st.records[k]));
  }

  method IsolateThenTouch(st: Ledger, ix: Indexes, k: nat, how: Isolation) returns (now: Ledger, nowIx: Indexes)
    requires Inv(st) && Agree(st, ix) && k in st.records
    ensures now == IsolateAndTouch(st, k, how) && Agree(now, nowIx) && Inv(now)
  {
    hide Inv, Agree, Touch, SyncJob, Isolated;
    now, nowIx := Isolate(st, ix, k, how);
    now, nowIx := TouchOne(now, nowIx, k);
  }

  /** Isolates both parties of a conflict, as far as they are live. */
  method Clash(st: Ledger, ix: Indexes, k: nat, key: (Source, Round)) returns (now: Ledger, nowIx: Indexes)
    requires Inv(st) && Agree(st, ix) && k in st.records
    ensures now == Conflict(st, k, key) && Agree(now, nowIx) && Inv(now)
  {
    hide Inv, Agree, IsolateRecord;
    now, nowIx := Isolate(st, ix, k, AsConflict);
    if key in st.owners && st.owners[key] != k && st.owners[key] in st.records {
      StillLiveAfter(st, k, st.owners[key]);
      now, nowIx := Isolate(now, nowIx, st.owners[key], AsConflict);
    }
  }

  lemma StillLiveAfter(st: Ledger, k: nat, j: nat)
    requires k in st.records && j in st.records
    ensures j in IsolateRecord(st, k, AsConflict).records
  {
  }

  // ---- First finish ----

  /** The record as its accepted report leaves it, in front of the frontier. */
  function Reported(r: Record, e: Event): Record
    requires e.Finish?
  {
    Finished(r, e).(lifecycle := Finalized, inclusion := OpenIncluded,
      detail := Some(Normalize(r.source, e.report.summary, e.report.telemetryError)))
  }

  function Refused(r: Record, e: Event): Record
    requires e.Finish?
  {
    Finished(r, e).(lifecycle := ReportUnavailable, inclusion := OpenExcluded, everUnavailable := true)
  }

  lemma FinishedIndexes(records: map<nat, Record>, ix: Indexes, k: nat, s: Record, e: Event)
    requires e.Finish? && DeadlinesOk(records, ix.close, ix.overdue, ix.expiry)
    requires s.finish.Some? && s.finish.value.wall == e.finishedWall
    ensures DeadlinesOk(records[k := s], ix.close[k := BucketEnd(e.finishedWall)], ix.overdue - {k}, ix.expiry - {k})
    ensures Open(records[k := s]) == if s.inclusion == OpenIncluded then Open(records)[k := FloorMinute(e.finishedWall)]
                                     else Open(records) - {k}
  {
    hide Scan;
    DeadlinesPut(records, k, s, ix.close, ix.overdue, ix.expiry);
    ScanPut(records, k, s, BucketKey);
  }

  /** The indexes after a first finish whose bucket is still open. */
  lemma FinishAgrees(st: Ledger, ix: Indexes, k: nat, s: Record, e: Event, openSeq: seq<nat>,
                     buckets: map<int, seq<nat>>)
    requires e.Finish? && Agree(st, ix) && k in st.records
    requires s.finish.Some? && s.finish.value.wall == e.finishedWall
    requires s.source == st.records[k].source && s.startedWall == st.records[k].startedWall
    requires OpenOk(if s.inclusion == OpenIncluded then Open(st.records)[k := FloorMinute(e.finishedWall)]
                    else Open(st.records) - {k}, openSeq, buckets)
    ensures Agree(Put(st, k, s),
              ix.(close := ix.close[k := BucketEnd(e.finishedWall)], overdue := ix.overdue - {k},
                  expiry := ix.expiry - {k}, openSeq := openSeq, buckets := buckets))
  {
    hide DeadlinesOk, OpenOk, CohortsOk, CountsOk, PruneOk, SyncJob, Open;
    FinishedIndexes(st.records, ix, k, s, e);
    CohortsPut(st.records, ix.cohorts, k, s);
    CountsPut(st.records, st.tombs, ix, k, s);
  }

  lemma FinishedFields(r: Record, e: Event)
    requires e.Finish?
    ensures forall s :: s in {Reported(r, e), Refused(r, e)} ==>
              && s.finish.Some? && s.finish.value.wall == e.finishedWall && s.source == r.source
              && s.startedWall == r.startedWall
    ensures Reported(r, e).inclusion == OpenIncluded && Refused(r, e).inclusion != OpenIncluded
  {
  }

  method AddOpen(ix: Indexes, k: nat, b: int, ghost open: map<nat, int>) returns (now: Indexes)
    requires OpenOk(open, ix.openSeq, ix.buckets) && k !in open
    ensures OpenOk(open[k := b], now.openSeq, now.buckets)
    ensures now == ix.(openSeq := now.openSeq, buckets := now.buckets)
  {
    var openSeq := Insort(ix.openSeq, k);
    var buckets := AddToBucket(ix.buckets, b, k, open);
    now := ix.(openSeq := openSeq, buckets := buckets);
  }

  lemma UnfinishedIsNotOpen(records: map<nat, Record>, k: nat)
    requires k in records && records[k].finish.None?
    ensures k !in Open(records) && Open(records) - {k} == Open(records)
  {
  }

  lemma LateAgrees(st: Ledger, k: nat, last: Record, wall: int, mono: int)
    requires k in st.records
    ensures Retire(Put(st, k, last), map[k := last], wall, mono)
            == Retire(st, map[k := last], wall, mono).(jobs := SyncJob(st.jobs, k, last))
  {
    hide Retire, SyncJob;
    LateFinishIsRetire(st, k, last, wall, mono);
  }

  /** A first finish whose bucket has closed: the record is retired on the spot. */
  method FinishLate(st: Ledger, ix: Indexes, k: nat, e: Event) returns (now: Ledger, nowIx: Indexes)
    requires e.Finish? && Agree(st, ix) && k in st.records && e.wall >= CloseAt(e.finishedWall)
    ensures now == FirstFinish(st, k, e).0 && Agree(now, nowIx)
  {
    hide Agree, Retire, SyncJob, Finished, CloseAt;
    var last := Finished(st.records[k], e).(lifecycle := Finalized, inclusion := PostCloseExcluded);
    LateAgrees(st, k, last, e.wall, e.mono);
    now, nowIx := RetireOne(st, ix, k, last, e.wall, e.mono);
    JobsAgree(now, nowIx, SyncJob(st.jobs, k, last));
    now := now.(jobs := SyncJob(st.jobs, k, last));
  }

  method FinishKept(st: Ledger, ix: Indexes, k: nat, e: Event) returns (now: Ledger, nowIx: Indexes)
    requires e.Finish? && Agree(st, ix) && k in st.records && st.records[k].finish.None?
    ensures now == Put(st, k, Reported(st.records[k], e)).(changes := st.changes + [Change(k, Add)])
            && Agree(now, nowIx)
  {
    hide Agree, SyncJob, Open, OpenOk, Reported;
    var s := Reported(st.records[k], e);
    OpenAgrees(st, ix);
    UnfinishedIsNotOpen(st.records, k);
    FinishedFields(st.records[k], e);
    nowIx := AddOpen(ix, k, FloorMinute(e.finishedWall), Open(st.records));
    FinishAgrees(st, ix, k, s, e, nowIx.openSeq, nowIx.buckets);
    nowIx := nowIx.(close := ix.close[k := BucketEnd(e.finishedWall)], overdue := ix.overdue - {k},
                    expiry := ix.expiry - {k});
    AnnouncedAgrees(Put(st, k, s), nowIx);
    now := st.(records := st.records[k := s], jobs := SyncJob(st.jobs, k, s), changes := st.changes + [Change(k, Add)]);
  }

  method FinishRefused(st: Ledger, ix: Indexes, k: nat, e: Event) returns (now: Ledger, nowIx: Indexes)
    requires e.Finish? && Agree(st, ix) && k in st.records && st.records[k].finish.None?
    ensures now == Put(st, k, Refused(st.records[k], e))
                   .(admissionStopped := st.admissionStopped || e.report.retention == OverBudget)
    ensures Agree(now, nowIx)
  {
    hide Agree, SyncJob, Open, OpenOk, Refused;
    var s := Refused(st.records[k], e);
    OpenAgrees(st, ix);
    UnfinishedIsNotOpen(st.records, k);
    FinishedFields(st.records[k], e);
    FinishAgrees(st, ix, k, s, e, ix.openSeq, ix.buckets);
    nowIx :=
      ix.(close := ix.close[k := BucketEnd(e.finishedWall)], overdue := ix.overdue - {k}, expiry := ix.expiry - {k});
    AnnouncedAgrees(Put(st, k, s), nowIx);
    now := st.(records := st.records[k := s], jobs := SyncJob(st.jobs, k, s),
               admissionStopped := st.admissionStopped || e.report.retention == OverBudget);
  }

  lemma FirstFinishForm(st: Ledger, k: nat, e: Event)
    requires e.Finish? && k in st.records && e.wall < CloseAt(e.finishedWall)
    ensures FirstFinish(st, k, e) ==
            if e.report.retention == Keep
            then (Put(st, k, Reported(st.records[k], e)).(changes := st.changes + [Change(k, Add)]), FinalizedReply)
            else (Put(st, k, Refused(st.records[k], e))
                  .(admissionStopped := st.admissionStopped || e.report.retention == OverBudget),
                 ReportUnavailableReply)
  {
    hide CloseAt, SyncJob, Normalize;
  }

  method FinishFirst(st: Ledger, ix: Indexes, k: nat, e: Event) returns (now: Ledger, nowIx: Indexes, reply: Reply)
    requires e.Finish? && Agree(st, ix) && k in st.records && st.records[k].finish.None?
    ensures (now, reply) == FirstFinish(st, k, e) && Agree(now, nowIx)
  {
    hide Agree, FirstFinish, CloseAt, Put, Reported, Refused;
    if e.wall >= CloseAt(e.finishedWall) {
      now, nowIx := FinishLate(st, ix, k, e);
      reply := PostCloseFinish;
      LateReply(st, k, e);
    } else {
      FirstFinishForm(st, k, e);
      if e.report.retention != Keep {
        now, nowIx := FinishRefused(st, ix, k, e);
        reply := ReportUnavailableReply;
      } else {
        now, nowIx := FinishKept(st, ix, k, e);
        reply := FinalizedReply;
      }
    }
  }

  lemma LateReply(st: Ledger, k: nat, e: Event)
    requires e.Finish? && k in st.records && e.wall >= CloseAt(e.finishedWall)
    ensures FirstFinish(st, k, e).1 == PostCloseFinish
  {
    hide CloseAt, Put, Retire, Finished;
  }

  lemma AnnouncedAgrees(st: Ledger, ix: Indexes)
    requires Agree(st, ix)
    ensures forall changes, stopped, clock, error ::
              Agree(st.(changes := changes, admissionStopped := stopped, clock := clock, indexError := error), ix)
  {
    hide DeadlinesOk, PruneOk, OpenOk, CohortsOk, CountsOk;
  }

  // ---- The operations on a live record ----

  method BindRound(st: Ledger, ix: Indexes, k: nat, round: Round) returns (now: Ledger, nowIx: Indexes)
    requires Inv(st) && Agree(st, ix) && k in st.records && st.records[k].connection == Unbound
    requires !OwnedByOther(st, k, (st.records[k].source, round))
    ensures now == Touch(Bind(st, k, round), k) && Agree(now, nowIx)
  {
    hide Inv, Agree, SyncJob, Touch, QuietlyBecomes;
    BindKeeps(st, k, round);
    var r := st.records[k];
    BoundQuietly(r, round);
    now, nowIx := Update(st, ix, k, Bound(r, round));
    OwnersAgree(now, nowIx, now.owners[(r.source, round) := k], now.ownedIds + {r.id});
    now := now.(owners := now.owners[(r.source, round) := k], ownedIds := now.ownedIds + {r.id});
    now, nowIx := TouchOne(now, nowIx, k);
  }

  lemma BoundQuietly(r: Record, round: Round)
    ensures QuietlyBecomes(r, Bound(r, round))
  {
  }

  lemma OwnersAgree(st: Ledger, ix: Indexes, owners: map<(Source, Round), nat>, ownedIds: set<Id>)
    requires Agree(st, ix)
    ensures Agree(st.(owners := owners, ownedIds := ownedIds), ix)
  {
    hide DeadlinesOk, PruneOk, OpenOk, CohortsOk, CountsOk;
  }

  method LinkRecord(st: Ledger, ix: Indexes, k: nat, e: Event) returns (now: Ledger, nowIx: Indexes, reply: Reply)
    requires e.LinkRound? && Inv(st) && Agree(st, ix) && k in st.records
    ensures (now, reply) == LinkLive(st, k, e) && Agree(now, nowIx)
  {
    hide Inv, Agree, Conflict, IsolateRecord, IsolateAndTouch, Touch, Bind;
    var r := st.records[k];
    var key := (r.source, e.round);
    var taken := key in st.owners && st.owners[key] != k;
    if (r.connection.Started? && r.connection.round != e.round) || taken {
      now, nowIx := Clash(st, ix, k, key);
      reply := IdentityConflict;
    } else if r.connection == InitFailed {
      now, nowIx := Isolate(st, ix, k, AsConflict);
      reply := IdentityConflict;
    } else if r.connection.Started? {
      if e.contract == RegisteredContract(r.source) {
        now, nowIx := TouchOne(st, ix, k);
        reply := RelinkedSame;
      } else {
        now, nowIx := IsolateThenTouch(st, ix, k, AsMixed);
        reply := ContractMixedReply;
      }
    } else if e.contract != RegisteredContract(r.source) {
      now, nowIx := IsolateThenTouch(st, ix, k, AsUnavailable);
      reply := UnregisteredContract;
    } else {
      now, nowIx := BindRound(st, ix, k, e.round);
      reply := Linked;
    }
  }

  method FinishRecord(st: Ledger, ix: Indexes, k: nat, e: Event) returns (now: Ledger, nowIx: Indexes, reply: Reply)
    requires e.Finish? && Inv(st) && Agree(st, ix) && k in st.records
    ensures (now, reply) == FinishLive(st, k, e) && Agree(now, nowIx)
  {
    hide Inv, Agree, Conflict, IsolateRecord, IsolateAndTouch, FinishStarted;
    var r := st.records[k];
    var key := (r.source, e.round);
    if key in st.owners && st.owners[key] != k {
      now, nowIx := Clash(st, ix, k, key);
      reply := IdentityConflict;
    } else if r.connection == InitFailed {
      now, nowIx := Isolate(st, ix, k, AsConflict);
      reply := IdentityConflict;
    } else if r.connection == Unbound {
      now, nowIx := IsolateThenTouch(st, ix, k, AsUnavailable);
      reply := StartUnrecorded;
    } else if r.connection.round != e.round {
      now, nowIx := Isolate(st, ix, k, AsConflict);
      reply := IdentityConflict;
    } else {
      now, nowIx, reply := FinishLinked(st, ix, k, e);
    }
  }

  method FinishLinked(st: Ledger, ix: Indexes, k: nat, e: Event) returns (now: Ledger, nowIx: Indexes, reply: Reply)
    requires e.Finish? && Inv(st) && Agree(st, ix) && k in st.records
    ensures (now, reply) == FinishStarted(st, k, e) && Agree(now, nowIx)
  {
    hide Inv, Agree, IsolateAndTouch, Touch, FirstFinish, FinishTimesWrong, DigestOf;
    var r := st.records[k];
    if e.contract != RegisteredContract(r.source) {
      now, nowIx := IsolateThenTouch(st, ix, k, AsMixed);
      reply := ContractMixedReply;
    } else if e.report.problem {
      now, nowIx := IsolateThenTouch(st, ix, k, AsUnavailable);
      reply := InputProblem;
    } else if r.finish.Some? && r.finish.value.digest != DigestOf(r.source, e) {
      now, nowIx := IsolateThenTouch(st, ix, k, AsConflict);
      reply := ConflictingFinish;
    } else if FinishTimesWrong(r, e) {
      now, nowIx := IsolateThenTouch(st, ix, k, AsUnavailable);
      reply := TimeIntegrityError;
    } else if r.lifecycle == Conflicting || r.lifecycle == ContractMixed {
      now, nowIx := TouchOne(st, ix, k);
      reply := AfterConflictRedelivery;
    } else if r.finish.Some? {
      now, nowIx := TouchOne(st, ix, k);
      reply := DuplicateFinish;
    } else {
      now, nowIx, reply := FinishFirst(st, ix, k, e);
    }
  }

  lemma FailedQuietly(r: Record, s: Record)
    requires s.finish == r.finish && s.inclusion == r.inclusion && s.source == r.source
    requires s.startedWall == r.startedWall && s.startedMono == r.startedMono
    requires s.lifecycle == r.lifecycle || s.lifecycle == ReportUnavailable
    ensures QuietlyBecomes(r, s)
  {
  }

  lemma PutHas(st: Ledger, k: nat, r: Record)
    ensures k in Put(st, k, r).records
  {
  }

  method FailRecord(st: Ledger, ix: Indexes, k: nat, e: Event) returns (now: Ledger, nowIx: Indexes, reply: Reply)
    requires e.ReportInitFailed? && Inv(st) && Agree(st, ix) && Live(st, e.id) && k == st.ids[e.id]
    ensures (now, reply) == InitFailedApply(st, e) && Agree(now, nowIx)
  {
    hide Inv, Agree, Put, IsolateRecord, QuietlyBecomes, EvidenceTimesWrong;
    var r := st.records[k];
    var at := Some(Instant(e.failedWall, e.failedMono));
    now, nowIx := st, ix;
    if EvidenceTimesWrong(r, e.failedWall, e.failedMono, e.wall, e.mono) {
      reply := TimeIntegrityError;
    } else if r.initFailed.Some? {
      reply := if r.initFailed == at then DuplicateInitFailure else InitFailureConflict;
    } else if r.connection.Started? {
      FailedQuietly(r, r.(initFailed := at));
      EvidenceKeeps(st, k, r.(initFailed := at));
      now, nowIx := Update(st, ix, k, r.(initFailed := at));
      PutHas(st, k, r.(initFailed := at));
      now, nowIx := Isolate(now, nowIx, k, AsConflict);
      reply := IdentityConflict;
    } else {
      var failed := r.(initFailed := at, connection := InitFailed);
      var s := if Unreported(r) then Unavailable(failed) else failed;
      FailedQuietly(r, s);
      now, nowIx := Update(st, ix, k, s);
      reply := InitFailureRecorded;
    }
  }

  method ExitRecord(st: Ledger, ix: Indexes, k: nat, e: Event) returns (now: Ledger, nowIx: Indexes, reply: Reply)
    requires e.WrapperExit? && Agree(st, ix) && Live(st, e.id) && k == st.ids[e.id]
    ensures (now, reply) == ExitApply(st, e) && Agree(now, nowIx)
  {
    hide Agree, Put, QuietlyBecomes, EvidenceTimesWrong;
    var r := st.records[k];
    now, nowIx := st, ix;
    if EvidenceTimesWrong(r, e.exitedWall, e.exitedMono, e.wall, e.mono)
       || (r.exit.NextEntry? && (e.exitedWall > r.exit.wall || e.exitedMono > r.exit.mono)) {
      reply := TimeIntegrityError;
    } else if r.exit.WrapperExited? {
      reply := if r.exit == WrapperExited(e.exitedWall, e.exitedMono) then DuplicateWrapperExit
               else WrapperExitConflict;
    } else if r.finish.Some? && (e.exitedWall < r.finish.value.wall || e.exitedMono < r.finish.value.mono) {
      reply := WrapperExitConflict;
    } else {
      var exited := r.(exit := WrapperExited(e.exitedWall, e.exitedMono));
      var s := if Unreported(r) then Unavailable(exited) else exited;
      FailedQuietly(r, s);
      now, nowIx := Update(st, ix, k, s);
      reply := WrapperExitRecorded;
    }
  }

  // ---- Registering ----

  lemma NotedQuietly(r: Record, e: Event)
    requires e.Register?
    ensures QuietlyBecomes(r, Noted(r, e))
  {
  }

  /** A serial job's new entry is noted on its previous invocation. */
  method NoteEntry(st: Ledger, ix: Indexes, e: Event) returns (now: Ledger, nowIx: Indexes)
    requires e.Register? && Agree(st, ix)
    ensures now == NoteNextEntry(st, e) && Agree(now, nowIx)
  {
    hide Agree, QuietlyBecomes, EndsPrevious;
    now, nowIx := st, ix;
    if e.serial && e.job.Some? && (e.source, e.job.value) in st.jobs {
      var p := st.jobs[(e.source, e.job.value)];
      if EndsPrevious(p, e.startedWall, e.startedMono) && p.seqNo in st.records {
        NotedQuietly(st.records[p.seqNo], e);
        now, nowIx := StoreQuietly(st, ix, p.seqNo, Noted(st.records[p.seqNo], e));
      }
    }
  }

  lemma NewDeadlines(records: map<nat, Record>, ix: Indexes, k: nat, e: Event)
    requires e.Register? && DeadlinesOk(records, ix.close, ix.overdue, ix.expiry) && k !in records
    ensures DeadlinesOk(records[k := NewRecord(e)], ix.close,
              if Pending(NewRecord(e)) then ix.overdue[k := e.startedMono + OVERDUE_AFTER] else ix.overdue,
              ix.expiry[k := e.startedWall + UNFINISHED_EXPIRY])
    ensures Open(records[k := NewRecord(e)]) == Open(records)
  {
    var r := NewRecord(e);
    NewKeys(e);
    assert k !in Scan(records, CloseKey) && k !in Scan(records, OverdueKey);
    hide Scan, NewRecord, CloseKey, OverdueKey, ExpiryKey, BucketKey;
    DeadlinesPut(records, k, r, ix.close, ix.overdue, ix.expiry);
    assert ix.close - {k} == ix.close && ix.overdue - {k} == ix.overdue;
    ScanPut(records, k, r, BucketKey);
    NotOpen(records, k);
  }

  lemma NewKeys(e: Event)
    requires e.Register?
    ensures var r := NewRecord(e);
            && CloseKey(r) == None && BucketKey(r) == None && ExpiryKey(r) == Some(e.startedWall + UNFINISHED_EXPIRY)
            && OverdueKey(r) == if Pending(r) then Some(e.startedMono + OVERDUE_AFTER) else None
  {
  }

  lemma NewCohort(records: map<nat, Record>, cohorts: set<(Source, int, nat)>, k: nat, r: Record)
    requires CohortsOk(records, cohorts) && k !in records
    ensures CohortsOk(records[k := r], cohorts + {(r.source, r.startedWall, k)})
  {
  }

  lemma NewCount(records: map<nat, Record>, tombs: map<nat, Tomb>, ix: Indexes, k: nat, r: Record)
    requires CountsOk(records, tombs, ix.nLive, ix.nTomb, ix.nRes) && k !in records && k !in tombs
    ensures CountsOk(records[k := r], tombs, ix.nLive + 1, ix.nTomb, ix.nRes + 1)
  {
  }

  lemma NewAgrees(st: Ledger, ix: Indexes, e: Event)
    requires e.Register? && Agree(st, ix) && st.nTotal + 1 !in st.records && st.nTotal + 1 !in st.tombs
    ensures var k := st.nTotal + 1;
            Agree(Enter(st, e),
              ix.(overdue := if Pending(NewRecord(e)) then ix.overdue[k := e.startedMono + OVERDUE_AFTER]
                              else ix.overdue,
                  expiry := ix.expiry[k := e.startedWall + UNFINISHED_EXPIRY],
                  cohorts := ix.cohorts + {(e.source, e.startedWall, k)}, nLive := ix.nLive + 1, nRes := ix.nRes + 1))
  {
    hide DeadlinesOk, OpenOk, CohortsOk, CountsOk, PruneOk, Open, NewRecord;
    var k := st.nTotal + 1;
    NewRecordFields(e);
    NewDeadlines(st.records, ix, k, e);
    NewCohort(st.records, ix.cohorts, k, NewRecord(e));
    NewCount(st.records, st.tombs, ix, k, NewRecord(e));
  }

  method Admit(st: Ledger, ix: Indexes, e: Event) returns (now: Ledger, nowIx: Indexes)
    requires e.Register? && Agree(st, ix) && st.nTotal + 1 !in st.records && st.nTotal + 1 !in st.tombs
    ensures now == Enter(st, e) && Agree(now, nowIx)
  {
    hide Agree, NewRecord;
    NewAgrees(st, ix, e);
    var k := st.nTotal + 1;
    var r := NewRecord(e);
    now := st.(nTotal := k, ids := st.ids[e.id := k], records := st.records[k := r],
               registered := st.registered + [Registration(e.source, e.startedWall)]);
    if e.job.Some? {
      now := now.(jobs := st.jobs[(e.source, e.job.value) := Summarize(k, r)]);
    }
    nowIx := ix.(expiry := ix.expiry[k := e.startedWall + UNFINISHED_EXPIRY],
                 cohorts := ix.cohorts + {(e.source, e.startedWall, k)}, nLive := ix.nLive + 1, nRes := ix.nRes + 1);
    if Pending(r) {
      nowIx := nowIx.(overdue := ix.overdue[k := e.startedMono + OVERDUE_AFTER]);
    }
  }

  lemma CountsKnown(st: Ledger, ix: Indexes)
    requires Agree(st, ix)
    ensures ix.nRes == |st.records| + |st.tombs|
  {
  }

  method RegisterNew(st: Ledger, ix: Indexes, e: Event) returns (now: Ledger, nowIx: Indexes, reply: Reply)
    requires e.Register? && Inv(st) && Agree(st, ix) && !Live(st, e.id) && !Tombstoned(st, e.id)
    ensures (now, reply) == RegisterApply(st, e) && Agree(now, nowIx)
  {
    hide Inv, Agree, NoteNextEntry, Enter;
    now, nowIx := st, ix;
    CountsKnown(st, ix);
    if e.startedWall > e.wall || e.startedMono > e.mono {
      reply := TimeIntegrityError;
    } else if e.source == Unsupported {
      reply := UnsupportedSource;
    } else if e.wall - e.startedWall > REGISTRATION_FRESHNESS || e.mono - e.startedMono > REGISTRATION_FRESHNESS {
      reply := LateStartExcluded;
    } else if e.startedWall < CohortExactFrom(st.frozenThrough) {
      reply := ClockUnverified;
    } else if st.admissionStopped || ix.nRes >= st.maxRecords || !e.fits {
      AnnouncedAgrees(st, ix);
      now := st.(admissionStopped := true);
      reply := AdmissionStopped;
    } else {
      now, nowIx := NoteEntry(st, ix, e);
      NoteNextEntryKeeps(st, e);
      FreshNumber(now);
      now, nowIx := Admit(now, nowIx, e);
      reply := Registered;
    }
  }

  method RegisterRecord(st: Ledger, ix: Indexes, e: Event) returns (now: Ledger, nowIx: Indexes, reply: Reply)
    requires e.Register? && Inv(st) && Agree(st, ix)
    ensures (now, reply) == RegisterApply(st, e) && Agree(now, nowIx)
  {
    hide Inv, Agree, IsolateAndTouch, Touch, NoteNextEntry, Enter, SameRegistration;
    now, nowIx := st, ix;
    if e.id in st.ids && st.ids[e.id] in st.records {
      var r := st.records[st.ids[e.id]];
      if SameRegistration(e, r.source, r.startedWall, r.startedMono, r.job, r.serial) {
        now, nowIx := TouchOne(st, ix, st.ids[e.id]);
        reply := DuplicateInvocation;
      } else {
        now, nowIx := IsolateThenTouch(st, ix, st.ids[e.id], AsConflict);
        reply := RegistrationConflict;
      }
    } else if e.id in st.ids && st.ids[e.id] in st.tombs {
      var t := st.tombs[st.ids[e.id]];
      reply := if SameRegistration(e, t.source, t.startedWall, t.startedMono, t.job, t.serial) then DuplicateInvocation
               else RegistrationConflict;
    } else {
      now, nowIx, reply := RegisterNew(st, ix, e);
    }
  }

  // ---- The ledger ----

  class RoundLedger {
    var core: Ledger
    var index: Indexes

    ghost predicate Valid()
      reads this
    {
      Inv(core) && Agree(core, index)
    }

    constructor (start: int, maxRecords: nat)
      ensures Valid() && core == EmptyLedger(start, maxRecords)
    {
      core := EmptyLedger(start, maxRecords);
      index := NO_INDEXES;
      new;
      EmptyLedgerInv(start, maxRecords);
      EmptyAgrees(start, maxRecords);
    }

    /** Brings the ledger up to an accepted pair of readings; otherwise only the clock changes. */
    method Accept(wall: int, mono: int) returns (accepted: bool, reply: Reply)
      requires Valid()
      modifies this
      ensures Valid()
      ensures var gate := CheckClock(old(core.clock), wall, mono);
              && accepted == gate.Accepted?
              && (accepted ==> core == Advance(old(core), wall, mono) && reply == Snapshot)
              && (!accepted ==> core == old(core).(clock := gate.clock) && reply == ClockReply(gate))
    {
      hide Inv, Agree, CheckClock, Advance;
      var gate := CheckClock(core.clock, wall, mono);
      accepted := gate.Accepted?;
      if accepted {
        core, index := AdvanceAndClose(core, index, wall, mono);
        reply := Snapshot;
      } else {
        AnnouncedAgrees(core, index);
        ClockDoesNotMatter(core, gate.clock);
        core := core.(clock := gate.clock);
        reply := ClockReply(gate);
      }
    }

    method Register(e: Event) returns (reply: Reply)
      requires Valid() && e.Register?
      modifies this
      ensures Valid() && (core, reply) == RegisterStep(old(core), e)
    {
      hide Inv, Agree, CheckClock, Advance, RegisterApply, IdentityFault;
      RegisterStepKeeps(core, e);
      NoIndexError(core);
      NoIdentityFault(core, e.id);
      if e.serial && e.job.None? {
        return InvalidArgument;
      }
      if !Live(core, e.id) && e.startedWall < core.start {
        return InvalidArgument;
      }
      if BeforeOrigin(core, e.wall) {
        return InvalidArgument;
      }
      var accepted;
      accepted, reply := Accept(e.wall, e.mono);
      if accepted {
        core, index, reply := RegisterRecord(core, index, e);
      }
    }

    method LinkRound(e: Event) returns (reply: Reply)
      requires Valid() && e.LinkRound?
      modifies this
      ensures Valid() && (core, reply) == LinkStep(old(core), e)
    {
      hide Inv, Agree, CheckClock, Advance, LinkLive, IdentityFault, CandidateFault;
      LinkStepKeeps(core, e);
      NoIndexError(core);
      NoIdentityFault(core, e.id);
      if !Live(core, e.id) && !Tombstoned(core, e.id) {
        return MissingEvent(core);
      }
      if Live(core, e.id) {
        NoCandidateFault(core, (core.records[core.ids[e.id]].source, e.round));
      }
      if BeforeOrigin(core, e.wall) {
        return InvalidArgument;
      }
      var accepted;
      accepted, reply := Accept(e.wall, e.mono);
      if !accepted {
        return;
      }
      if Live(core, e.id) {
        core, index, reply := LinkRecord(core, index, core.ids[e.id], e);
      } else {
        reply := LinkApply(core, e).1;
      }
    }

    method Finish(e: Event) returns (reply: Reply)
      requires Valid() && e.Finish?
      modifies this
      ensures Valid() && (core, reply) == FinishStep(old(core), e)
    {
      hide Inv, Agree, CheckClock, Advance, FinishLive, IdentityFault, CandidateFault, FinishOutOfStep, FinishTomb;
      FinishStepKeeps(core, e);
      NoIndexError(core);
      NoIdentityFault(core, e.id);
      if !Live(core, e.id) && !Tombstoned(core, e.id) {
        return MissingEvent(core);
      }
      if Live(core, e.id) {
        NoCandidateFault(core, (core.records[core.ids[e.id]].source, e.round));
      }
      if BeforeOrigin(core, e.wall) {
        return InvalidArgument;
      }
      var outOfStep := Live(core, e.id) && FinishOutOfStep(core, core.records[core.ids[e.id]], e);
      var gate := CheckClock(core.clock, e.wall, e.mono);
      if gate.Accepted? && outOfStep {
        return ClockUnverified;
      }
      var accepted;
      accepted, reply := Accept(e.wall, e.mono);
      if !accepted {
        return;
      }
      if Live(core, e.id) {
        core, index, reply := FinishRecord(core, index, core.ids[e.id], e);
      } else if Tombstoned(core, e.id) {
        reply := FinishTomb(core.tombs[core.ids[e.id]], e);
      } else {
        reply := MissingEvent(core);
      }
    }

    method ReportInitFailed(e: Event) returns (reply: Reply)
      requires Valid() && e.ReportInitFailed?
      modifies this
      ensures Valid() && (core, reply) == InitFailedStep(old(core), e)
    {
      hide Inv, Agree, CheckClock, Advance, InitFailedApply, IdentityFault, EvidenceTimesWrong;
      InitFailedStepKeeps(core, e);
      NoIndexError(core);
      NoIdentityFault(core, e.id);
      if !Live(core, e.id) && !Tombstoned(core, e.id) {
        return MissingEvent(core);
      }
      if BeforeOrigin(core, e.wall) {
        return InvalidArgument;
      }
      var wrong := Live(core, e.id)
        && EvidenceTimesWrong(core.records[core.ids[e.id]], e.failedWall, e.failedMono, e.wall, e.mono);
      var gate := CheckClock(core.clock, e.wall, e.mono);
      if gate.Accepted? && wrong {
        return TimeIntegrityError;
      }
      var accepted;
      accepted, reply := Accept(e.wall, e.mono);
      if !accepted {
        return;
      }
      if Live(core, e.id) {
        core, index, reply := FailRecord(core, index, core.ids[e.id], e);
      } else {
        FailedTomb(core, e);
        reply := InitFailedApply(core, e).1;
      }
    }

    method WrapperExited(e: Event) returns (reply: Reply)
      requires Valid() && e.WrapperExit?
      modifies this
      ensures Valid() && (core, reply) == ExitStep(old(core), e)
    {
      hide Inv, Agree, CheckClock, Advance, ExitApply, IdentityFault, EvidenceTimesWrong;
      ExitStepKeeps(core, e);
      NoIndexError(core);
      NoIdentityFault(core, e.id);
      if !Live(core, e.id) && !Tombstoned(core, e.id) {
        return MissingEvent(core);
      }
      if BeforeOrigin(core, e.wall) {
        return InvalidArgument;
      }
      var wrong := Live(core, e.id)
        && EvidenceTimesWrong(core.records[core.ids[e.id]], e.exitedWall, e.exitedMono, e.wall, e.mono);
      var gate := CheckClock(core.clock, e.wall, e.mono);
      if gate.Accepted? && wrong {
        return TimeIntegrityError;
      }
      var accepted;
      accepted, reply := Accept(e.wall, e.mono);
      if !accepted {
        return;
      }
      if Live(core, e.id) {
        core, index, reply := ExitRecord(core, index, core.ids[e.id], e);
      } else {
        ExitedTomb(core, e);
        reply := ExitApply(core, e).1;
      }
    }

    method Observe(e: Event) returns (reply: Reply)
      requires Valid() && e.Observe?
      modifies this
      ensures Valid() && (core, reply) == ObserveStep(old(core), e)
    {
      hide Inv, Agree, CheckClock, Advance;
      NoIndexError(core);
      if BeforeOrigin(core, e.wall) {
        return InvalidArgument;
      }
      var accepted;
      accepted, reply := Accept(e.wall, e.mono);
    }

    /** Whether the counters of the resident identities agree; they always do. */
    method IndicesIntact() returns (ok: bool)
      requires Valid()
      ensures ok && |core.ids| == index.nRes
    {
      hide Inv, DeadlinesOk, OpenOk, CohortsOk, PruneOk;
      Intact(core);
      ok := |core.ids| == index.nRes && index.nRes == |core.records| + |core.tombs|;
    }

    /** What a source's invocations that started in the range have come to: counted over all history, or no answer. */
    method CohortSnapshot(source: Source, lo: int, hi: int) returns (counts: Option<multiset<CohortKey>>)
      requires Valid()
      ensures counts.Some? <==> source != Unsupported && lo >= CohortExactFrom(core.frozenThrough)
      ensures counts.Some? ==>
                && counts.value == Total(CohortTallies(CohortRecords(core.records, source, lo, hi)))
                && counts.value[Invocations(source)] == |EverRegistered(core.registered, source, lo, hi)|
                && FrozenBalanced(counts.value, source)
                && forall t :: counts.value[t]
                     == |LedgerEffects.Under(CohortRecords(core.records, source, lo, hi), t)|
    {
      if source == Unsupported || lo < CohortExactFrom(core.frozenThrough) {
        return None;
      }
      CohortIsExact(core, source, lo, hi);
      var sum := CountCohort(core.records, index.cohorts, source, lo, hi);
      hide Inv, Agree, FrozenBalanced, CohortTallies, EverRegistered;
      CohortBalances(core.records, source, lo, hi);
      forall t ensures sum[t] == |LedgerEffects.Under(CohortRecords(core.records, source, lo, hi), t)| {
        LedgerEffects.CohortCounts(CohortRecords(core.records, source, lo, hi), t);
      }
      counts := Some(sum);
    }

    /** The reports of the sixty minutes before `wall`, read off the bucket lists in the order of registration. */
    method RecentWindow(wall: int) returns (recent: seq<nat>)
      requires Valid()
      ensures Increasing(recent)
      ensures forall k :: k in recent <==>
                && OpenlyIncluded(core.records, k) && core.records[k].finish.Some?
                && FloorMinute(wall) - 60 * MINUTE <= FloorMinute(core.records[k].finish.value.wall) < FloorMinute(wall)
    {
      hide Inv;
      var end := FloorMinute(wall);
      recent := MergeBuckets(Open(core.records), index.buckets, end - 60 * MINUTE);
      forall k ensures k in recent <==>
                && OpenlyIncluded(core.records, k) && core.records[k].finish.Some?
                && end - 60 * MINUTE <= FloorMinute(core.records[k].finish.value.wall) < end
      {
        assert k in recent <==> k in Open(core.records) && end - 60 * MINUTE <= Open(core.records)[k] < end;
      }
    }

    /** A page of the open reports after `after`, and where the next page starts if there is one. */
    method ContributionsOpen(after: nat, limit: nat) returns (page: seq<nat>, next: Option<nat>)
      requires Valid() && 1 <= limit
      ensures Increasing(page) && |page| <= limit
      ensures forall k: nat :: k in page ==> OpenlyIncluded(core.records, k) && k > after
      ensures forall k: nat :: OpenlyIncluded(core.records, k) && k > after && (next.Some? ==> k <= next.value) ==>
                k in page
      ensures next.Some? ==> page != [] && next.value == page[|page| - 1]
                             && exists k: nat :: OpenlyIncluded(core.records, k) && k > next.value
    {
      hide OpenlyIncluded;
      OpenListed(core, index);
      hide Inv, Agree;
      page, next := Page(index.openSeq, after, limit);
    }
  }

  method Page(open: seq<nat>, after: nat, limit: nat) returns (page: seq<nat>, next: Option<nat>)
    requires Increasing(open) && 1 <= limit
    ensures Increasing(page) && |page| <= limit
    ensures forall k :: k in page ==> k in open && k > after
    ensures forall k :: k in open && k > after && (next.Some? ==> k <= next.value) ==> k in page
    ensures next.Some? ==> page != [] && next.value == page[|page| - 1] && exists k :: k in open && k > next.value
  {
    var start := 0;
    while start < |open| && open[start] <= after
      invariant 0 <= start <= |open| && forall j :: 0 <= j < start ==> open[j] <= after
    {
      start := start + 1;
    }
    var stop := if start + limit < |open| then start + limit else |open|;
    page := open[start..stop];
    next := if stop < |open| then Some(page[|page| - 1]) else None;
    assert next.Some? ==> open[stop] in open && open[stop] > next.value;
  }

  lemma Intact(st: Ledger)
    requires Inv(st)
    ensures |st.ids| == |st.records| + |st.tombs|
  {
    ResidentsAddUp(st.ids, st.records, st.tombs);
  }

  /** The open list holds the openly included records, and only those. */
  lemma OpenListed(st: Ledger, ix: Indexes)
    requires Inv(st) && Agree(st, ix)
    ensures Increasing(ix.openSeq) && forall k :: k in ix.openSeq <==> OpenlyIncluded(st.records, k)
  {
    forall k ensures k in ix.openSeq <==> OpenlyIncluded(st.records, k) {
      if OpenlyIncluded(st.records, k) {
        OpenHasFinish(st, k);
      }
    }
  }

  ghost function CohortRecords(records: map<nat, Record>, source: Source, lo: int, hi: int): map<nat, Record> {
    map k | k in records && records[k].source == source && lo <= records[k].startedWall < hi :: records[k]
  }

  lemma CohortBalances(records: map<nat, Record>, source: Source, lo: int, hi: int)
    requires source != Unsupported
    ensures var sum := Total(CohortTallies(CohortRecords(records, source, lo, hi)));
            sum[Invocations(source)] == |Cohort(records, source, lo, hi)| && FrozenBalanced(sum, source)
  {
    hide FrozenBalanced, CohortTallies, Total;
    var cohort := CohortRecords(records, source, lo, hi);
    TotalBalances(cohort);
    OneSource(cohort, source);
    assert cohort.Keys == Cohort(records, source, lo, hi);
    SizeOfKeys(cohort);
  }

  /** Records of one source are all counted under it. */
  lemma {:induction false} OneSource(m: map<nat, Record>, source: Source)
    requires forall k :: k in m ==> m[k].source == source
    ensures Total(CohortTallies(m))[Invocations(source)] == |m|
    decreases |m|
  {
    hide CohortTally;
    if m == map[] {
      assert CohortTallies(m) == map[];
    } else {
      var k :| k in m;
      OneSource(m - {k}, source);
      TotalTakesAnyKey(CohortTallies(m), k);
      assert CohortTallies(m) - {k} == CohortTallies(m - {k});
      CohortTallyCount(m[k], Invocations(source));
      SizeWithout(m, k);
    }
  }

  /** Goes through the cohort index; the order of its keys does not matter to the sums. */
  method CountCohort(records: map<nat, Record>, cohorts: set<(Source, int, nat)>, source: Source, lo: int, hi: int)
    returns (sum: multiset<CohortKey>)
    requires CohortsOk(records, cohorts)
    ensures sum == Total(CohortTallies(CohortRecords(records, source, lo, hi)))
  {
    hide CohortTally, CohortTallies, CohortRecords;
    sum := multiset{};
    var rest := cohorts;
    ghost var seen: map<nat, Record> := map[];
    NothingCounted();
    while rest != {}
      invariant rest <= cohorts && Counted(records, cohorts - rest, source, lo, hi, seen)
      invariant sum == Total(CohortTallies(seen))
      decreases |rest|
    {
      var c :| c in rest;
      OneKeyPerRecord(records, cohorts, c);
      KeepsCounting(records, cohorts, rest, c, source, lo, hi, seen);
      rest := rest - {c};
      if c.0 == source && lo <= c.1 < hi {
        sum := sum + CohortTally(records[c.2]);
        seen := seen[c.2 := records[c.2]];
      }
    }
    AllCounted(records, cohorts, source, lo, hi, seen);
  }

  /** The records of the cohort whose keys have been visited. */
  ghost predicate Counted(records: map<nat, Record>, visited: set<(Source, int, nat)>, source: Source, lo: int, hi: int,
                          seen: map<nat, Record>) {
    && (forall k :: k in seen <==> k in records && InRange(records[k], source, lo, hi)
                                   && (records[k].source, records[k].startedWall, k) in visited)
    && (forall k :: k in seen ==> seen[k] == records[k])
  }

  predicate InRange(r: Record, source: Source, lo: int, hi: int) { r.source == source && lo <= r.startedWall < hi }

  lemma NothingCounted()
    ensures Total(CohortTallies(map[])) == multiset{}
  {
    assert CohortTallies(map[]) == map[];
  }

  lemma KeepsCounting(records: map<nat, Record>, cohorts: set<(Source, int, nat)>, rest: set<(Source, int, nat)>,
                      c: (Source, int, nat), source: Source, lo: int, hi: int, seen: map<nat, Record>)
    requires CohortsOk(records, cohorts) && rest <= cohorts && c in rest && c.2 in records
    requires c == (records[c.2].source, records[c.2].startedWall, c.2)
    requires Counted(records, cohorts - rest, source, lo, hi, seen)
    ensures var more := seen[c.2 := records[c.2]];
            if c.0 == source && lo <= c.1 < hi then
              && Counted(records, cohorts - (rest - {c}), source, lo, hi, more)
              && Total(CohortTallies(more)) == Total(CohortTallies(seen)) + CohortTally(records[c.2])
            else Counted(records, cohorts - (rest - {c}), source, lo, hi, seen)
  {
    hide CohortTally;
    var more := seen[c.2 := records[c.2]];
    if c.0 == source && lo <= c.1 < hi {
      assert c.2 !in seen;
      assert CohortTallies(more) == CohortTallies(seen)[c.2 := CohortTally(records[c.2])];
      TotalAdds(CohortTallies(seen), c.2, CohortTally(records[c.2]));
    }
  }

  lemma AllCounted(records: map<nat, Record>, cohorts: set<(Source, int, nat)>, source: Source, lo: int, hi: int,
                   seen: map<nat, Record>)
    requires CohortsOk(records, cohorts) && Counted(records, cohorts - {}, source, lo, hi, seen)
    ensures seen == CohortRecords(records, source, lo, hi)
  {
    assert cohorts - {} == cohorts;
  }

  lemma OneKeyPerRecord(records: map<nat, Record>, cohorts: set<(Source, int, nat)>, c: (Source, int, nat))
    requires CohortsOk(records, cohorts) && c in cohorts
    ensures c.2 in records && c == (records[c.2].source, records[c.2].startedWall, c.2)
  {
  }

  method MergeBuckets(ghost open: map<nat, int>, buckets: map<int, seq<nat>>, from: int) returns (merged: seq<nat>)
    requires BucketsOk(open, buckets) && from % MINUTE == 0
    requires forall k :: k in open ==> open[k] % MINUTE == 0
    ensures Increasing(merged)
    ensures forall k :: k in merged <==> k in open && from <= open[k] < from + 60 * MINUTE
  {
    merged := [];
    for i := 0 to 60
      invariant Increasing(merged)
      invariant forall k :: k in merged <==> k in open && from <= open[k] < from + i * MINUTE
    {
      var b := from + i * MINUTE;
      WholeMinutes(open, from, i);
      if b in buckets {
        merged := MergeOne(merged, buckets[b]);
      }
    }
  }

  /** Between two whole minutes there is no other. */
  lemma WholeMinutes(open: map<nat, int>, from: int, i: nat)
    requires from % MINUTE == 0 && forall k :: k in open ==> open[k] % MINUTE == 0
    ensures forall k :: k in open && from + i * MINUTE <= open[k] < from + (i + 1) * MINUTE ==>
              open[k] == from + i * MINUTE
  {
  }

  method MergeOne(merged: seq<nat>, list: seq<nat>) returns (all: seq<nat>)
    requires Increasing(merged) && Increasing(list) && forall k :: k in list ==> k !in merged
    ensures Increasing(all) && forall k :: k in all <==> k in merged || k in list
  {
    all := merged;
    for i := 0 to |list|
      invariant Increasing(all) && forall k :: k in all <==> k in merged || k in list[..i]
    {
      assert list[i] !in list[..i];
      all := Insort(all, list[i]);
      assert list[..i + 1] == list[..i] + [list[i]];
    }
    assert list[..|list|] == list;
  }

  lemma EmptyAgrees(start: int, maxRecords: nat)
    ensures Agree(EmptyLedger(start, maxRecords), NO_INDEXES)
  {
  }

  lemma FailedTomb(st: Ledger, e: Event)
    requires e.ReportInitFailed? && !Live(st, e.id)
    ensures InitFailedApply(st, e).0 == st
  {
  }

  lemma ExitedTomb(st: Ledger, e: Event)
    requires e.WrapperExit? && !Live(st, e.id)
    ensures ExitApply(st, e).0 == st
  {
  }
}