/** History is never rewritten: what later states may still say about an invocation that was live earlier. */
module LedgerHistory {
  import opened Wrappers
  import opened Totals
  import opened Axes
  import opened LedgerState
  import opened LedgerSpec
  import opened LedgerInvariant
  import opened LedgerAdvance
  import opened LedgerSafety

  // ---- One record ----

  predicate Isolatedly(l: Lifecycle) { l == Conflicting || l == ContractMixed }

  /** The evidence of a wrapper's end does not contradict a report of that time. */
  predicate ExitAllows(exit: Exit, wall: int, mono: int) {
    match exit
    case NoExit => true
    case NextEntry(w, m) => wall <= w && mono <= m
    case WrapperExited(w, m) => wall <= w && mono <= m
  }

  /** A first finish agrees with its own digest, with its record and with the evidence of the wrapper's end. */
  predicate ReportOk(r: Record) {
    r.finish.Some? ==>
      var f := r.finish.value;
      && f.digest.wall == f.wall && f.digest.mono == f.mono && f.digest.source == r.source
      && f.digest.contract == RegisteredContract(r.source) && r.connection == Started(f.digest.round)
      && ExitAllows(r.exit, f.wall, f.mono)
  }

  /** `s` is a later state of the live record `r`. */
  predicate Evolves(r: Record, s: Record) {
    && s.id == r.id && s.source == r.source && s.startedWall == r.startedWall && s.startedMono == r.startedMono
    && s.job == r.job && s.serial == r.serial
    && (r.connection != Unbound ==> s.connection == r.connection)
    && (r.initFailed.Some? ==> s.initFailed == r.initFailed)
    && (r.finish.Some? ==> s.finish == r.finish && s.lateFinish == r.lateFinish && s.detail == r.detail)
    && (r.exit.WrapperExited? ==> s.exit == r.exit)
    && (r.everOverdue ==> s.everOverdue) && (r.everUnavailable ==> s.everUnavailable)
    && (r.lifecycle == ContractMixed ==> s.lifecycle == ContractMixed)
    && (r.lifecycle == Conflicting ==> Isolatedly(s.lifecycle))
    && (r.finish.Some? && s.lifecycle == Finalized ==> r.lifecycle == Finalized)
    && (r.inclusion == OpenExcluded ==> s.inclusion == OpenExcluded)
    && (r.inclusion == OpenIncluded ==> s.inclusion == OpenIncluded || s.inclusion == OpenExcluded)
    && (ReportOk(r) ==> ReportOk(s))
  }

  lemma EvolvesTransitive(r: Record, s: Record, t: Record)
    requires Evolves(r, s) && Evolves(s, t)
    ensures Evolves(r, t)
  {
  }

  /** `t` is a tombstone that the live record `r` may leave. */
  predicate Leaves(r: Record, t: Tomb) {
    && t.id == r.id && t.source == r.source && t.startedWall == r.startedWall && t.startedMono == r.startedMono
    && t.job == r.job && t.serial == r.serial
    && (r.connection != Unbound ==> t.connection == r.connection)
    && (r.finish.Some? ==> t.finish == r.finish && !t.expired)
    && (t.expired <==> t.finish.None?)
    && (t.expired ==> t.lifecycle == ReportUnavailable)
    && (r.lifecycle == ContractMixed && !t.expired ==> t.lifecycle == ContractMixed)
    && (r.lifecycle == Conflicting && !t.expired ==> Isolatedly(t.lifecycle))
  }

  lemma LeavesAfterEvolving(r: Record, s: Record, t: Tomb)
    requires Evolves(r, s) && Leaves(s, t)
    ensures Leaves(r, t)
  {
  }

  // ---- The whole state ----

  predicate AtMost(a: Option<int>, b: Option<int>) { a.Some? ==> b.Some? && a.value <= b.value }

  ghost predicate RecordsFollow(records: map<nat, Record>, records': map<nat, Record>, tombs': map<nat, Tomb>) {
    forall k :: k in records ==>
      if k in records' then Evolves(records[k], records'[k])
      else k in tombs' ==> Leaves(records[k], tombs'[k])
  }

  /** Nothing comes back to life, and no tombstone is altered. */
  ghost predicate NumbersFollow(records: map<nat, Record>, tombs: map<nat, Tomb>, nTotal: nat,
                                records': map<nat, Record>, tombs': map<nat, Tomb>) {
    && (forall k :: k in records' ==> k in records || (k > nTotal && ReportOk(records'[k])))
    && (forall k :: k in tombs' ==> (k in tombs && tombs'[k] == tombs[k]) || k in records || k > nTotal)
  }

  ghost predicate RetiredFollow(retired: map<nat, Record>, retired': map<nat, Record>) {
    forall k :: k in retired ==> k in retired' && retired'[k] == retired[k]
  }

  ghost predicate Follows(a: Ledger, b: Ledger) {
    && RecordsFollow(a.records, b.records, b.tombs)
    && NumbersFollow(a.records, a.tombs, a.nTotal, b.records, b.tombs)
    && RetiredFollow(a.retired, b.retired)
    && a.nTotal <= b.nTotal && a.registered <= b.registered && a.changes <= b.changes
    && a.cumulative <= b.cumulative && a.frozen <= b.frozen
    && AtMost(a.frontier, b.frontier) && AtMost(a.frozenThrough, b.frozenThrough)
    && (a.admissionStopped ==> b.admissionStopped) && (a.identityPruned ==> b.identityPruned)
  }

  ghost predicate NumbersOk(st: Ledger) {
    && st.records.Keys !! st.tombs.Keys
    && (forall k :: k in st.records ==> k <= st.nTotal)
    && (forall k :: k in st.tombs ==> k <= st.nTotal)
    && st.records.Keys !! st.retired.Keys
  }

  lemma InvNumbers(st: Ledger)
    requires Inv(st)
    ensures NumbersOk(st)
  {
    hide OwnersOk, OwnedIdsOk, RecordsOk, CumulativeOk, ChangesOk, FrozenOk, LineOk;
  }

  lemma Reflexive(st: Ledger)
    ensures Follows(st, st)
  {
  }

  lemma RecordsTransitive(a: Ledger, b: Ledger, c: Ledger)
    requires NumbersOk(a) && NumbersOk(b) && a.nTotal <= b.nTotal
    requires RecordsFollow(a.records, b.records, b.tombs) && RecordsFollow(b.records, c.records, c.tombs)
    requires NumbersFollow(a.records, a.tombs, a.nTotal, b.records, b.tombs)
    requires NumbersFollow(b.records, b.tombs, b.nTotal, c.records, c.tombs)
    ensures RecordsFollow(a.records, c.records, c.tombs)
  {
    forall k | k in a.records
      ensures if k in c.records then Evolves(a.records[k], c.records[k])
              else k in c.tombs ==> Leaves(a.records[k], c.tombs[k])
    {
      if k in b.records {
        if k in c.records {
          EvolvesTransitive(a.records[k], b.records[k], c.records[k]);
        } else if k in c.tombs {
          LeavesAfterEvolving(a.records[k], b.records[k], c.tombs[k]);
        }
      }
    }
  }

  lemma NumbersTransitive(a: Ledger, b: Ledger, c: Ledger)
    requires NumbersOk(a) && NumbersOk(b) && a.nTotal <= b.nTotal
    requires NumbersFollow(a.records, a.tombs, a.nTotal, b.records, b.tombs)
    requires NumbersFollow(b.records, b.tombs, b.nTotal, c.records, c.tombs)
    requires RecordsFollow(b.records, c.records, c.tombs)
    ensures NumbersFollow(a.records, a.tombs, a.nTotal, c.records, c.tombs)
  {
    hide ReportOk;
    forall k | k in c.records && k !in a.records ensures k > a.nTotal && ReportOk(c.records[k]) {
      assert k in b.records ==> Evolves(b.records[k], c.records[k]);
    }
    hide Evolves, Leaves;
  }

  lemma FollowsTransitive(a: Ledger, b: Ledger, c: Ledger)
    requires Inv(a) && Inv(b) && Follows(a, b) && Follows(b, c)
    ensures Follows(a, c)
  {
    hide Inv, RecordsFollow, NumbersFollow;
    InvNumbers(a);
    InvNumbers(b);
    RecordsTransitive(a, b, c);
    NumbersTransitive(a, b, c);
  }

  // ---- What the job index remembers ----

  predicate JobOk(records: map<nat, Record>, p: JobSummary) {
    p.seqNo in records ==> Summarize(p.seqNo, records[p.seqNo]) == p
  }

  /** As long as a job's latest invocation is live, the job index knows its exit and finish. */
  ghost predicate JobsOk(st: Ledger) {
    && (forall key :: key in st.jobs ==> JobOk(st.records, st.jobs[key]) && 1 <= st.jobs[key].seqNo <= st.nTotal)
    && (forall key :: key in st.jobs && st.jobs[key].seqNo in st.records ==>
          var r := st.records[st.jobs[key].seqNo]; r.job.Some? && key == (r.source, r.job.value))
  }

  // ---- Advancing ----

  lemma RetireFollows(st: Ledger, dead: map<nat, Record>, wall: int, mono: int)
    requires NumbersOk(st) && dead.Keys <= st.records.Keys
    requires forall k :: k in dead ==> Leaves(st.records[k], Bury(dead[k], wall, mono))
    ensures Follows(st, Retire(st, dead, wall, mono))
  {
    RetireRecordsFollow(st, dead, wall, mono);
    hide RecordsFollow, NumbersFollow, NumbersOk, CohortTallies, Buried, Leaves, Bury;
  }

  lemma RetireRecordsFollow(st: Ledger, dead: map<nat, Record>, wall: int, mono: int)
    requires NumbersOk(st) && dead.Keys <= st.records.Keys
    requires forall k :: k in dead ==> Leaves(st.records[k], Bury(dead[k], wall, mono))
    ensures RecordsFollow(st.records, st.records - dead.Keys, st.tombs + Buried(dead, wall, mono))
    ensures NumbersFollow(st.records, st.tombs, st.nTotal, st.records - dead.Keys, st.tombs + Buried(dead, wall, mono))
    ensures RetiredFollow(st.retired, st.retired + dead)
  {
    EvolvesReflexive();
    hide Evolves, Leaves, Bury;
  }

  lemma EvolvesReflexive()
    ensures forall r: Record {:trigger Evolves(r, r)} :: Evolves(r, r)
  {
  }

  lemma CloseBucketsFollows(st: Ledger, wall: int, mono: int)
    requires Inv(st)
    ensures Follows(st, CloseBuckets(st, wall, mono))
  {
    hide Inv, Follows, CloseTarget, Closing, Retire, Contributions, IncludedOf, PreviousEnd, Leaves, Bury;
    InvNumbers(st);
    var target := CloseTarget(st.records, wall, mono);
    if target <= PreviousEnd(st.start, st.frontier) {
      Reflexive(st);
    } else {
      var closing := Closing(st.records, target);
      ClosingLeaves(st, target, wall, mono);
      RetireFollows(st, closing, wall, mono);
      CountFollows(st, target, wall, mono);
    }
  }

  lemma ClosingLeaves(st: Ledger, target: int, wall: int, mono: int)
    requires Inv(st)
    ensures forall k :: k in Closing(st.records, target) ==>
              k in st.records && Leaves(st.records[k], Bury(Closing(st.records, target)[k], wall, mono))
  {
    forall k | k in Closing(st.records, target) ensures Leaves(st.records[k], Bury(st.records[k], wall, mono)) {
      LiveRecordOk(st, k);
    }
  }

  lemma CountFollows(st: Ledger, target: int, wall: int, mono: int)
    requires target > PreviousEnd(st.start, st.frontier)
    requires Follows(st, Retire(st, Closing(st.records, target), wall, mono))
    ensures var closing := Closing(st.records, target);
            Follows(st, Retire(Count(st, closing).(frontier := Some(target)), closing, wall, mono))
  {
    hide RecordsFollow, NumbersFollow, RetiredFollow, Closing, IncludedOf, Contributions, CohortTallies, Bury,
           LatestStart,
         Total;
  }

  lemma MarkOverduesFollows(st: Ledger, mono: int)
    requires NumbersOk(st)
    ensures Follows(st, MarkOverdues(st, mono))
  {
  }

  lemma StampFollows(st: Ledger, wall: int, mono: int)
    ensures Follows(st, Stamp(st, wall, mono))
  {
    EvolvesReflexive();
    hide Evolves;
  }

  lemma ExpireUnfinishedFollows(st: Ledger, wall: int, mono: int)
    requires Inv(st)
    ensures Follows(st, ExpireUnfinished(st, wall, mono))
  {
    InvNumbers(st);
    ExpiringLeaves(st.records, wall, mono);
    hide Inv, Expiring, Leaves, Retire;
    RetireFollows(st, Expiring(st.records, wall, mono), wall, mono);
    ExpireIsRetiring(st, wall, mono);
  }

  lemma ExpireIsRetiring(st: Ledger, wall: int, mono: int)
    ensures ExpireUnfinished(st, wall, mono) == Retire(st, Expiring(st.records, wall, mono), wall, mono)
  {
    hide Retire;
  }

  lemma ExpiringLeaves(records: map<nat, Record>, wall: int, mono: int)
    ensures var dead := Expiring(records, wall, mono);
            dead.Keys <= records.Keys && forall k :: k in dead ==> Leaves(records[k], Bury(dead[k], wall, mono))
  {
  }

  lemma PruneFollows(st: Ledger, gone: set<nat>)
    ensures Follows(st, Prune(st, gone))
  {
    EvolvesReflexive();
    hide Evolves;
  }

  lemma AdvanceFollows(st: Ledger, wall: int, mono: int)
    requires Inv(st)
    ensures Follows(st, Advance(st, wall, mono))
  {
    hide Inv, Follows, CloseBuckets, MarkOverdues, ExpireUnfinished, Prune;
    CloseBucketsKeeps(st, wall, mono);
    var a := CloseBuckets(st, wall, mono);
    StampKeeps(a, wall, mono);
    var b := Stamp(a, wall, mono);
    MarkOverduesKeeps(b, mono);
    var c := MarkOverdues(b, mono);
    ExpireUnfinishedKeeps(c, wall, mono);
    var d := ExpireUnfinished(c, wall, mono);
    CloseBucketsFollows(st, wall, mono);
    StampFollows(a, wall, mono);
    InvNumbers(b);
    MarkOverduesFollows(b, mono);
    ExpireUnfinishedFollows(c, wall, mono);
    PruneFollows(d, Prunables(d.tombs, wall, mono));
    FollowsTransitive(st, a, b);
    FollowsTransitive(st, b, c);
    FollowsTransitive(st, c, d);
    FollowsTransitive(st, d, PruneTombs(d, wall, mono));
  }

  lemma AdvanceKeepsJobs(st: Ledger, wall: int, mono: int)
    requires JobsOk(st)
    ensures JobsOk(Advance(st, wall, mono))
  {
    var a := Advance(st, wall, mono);
    AdvanceFields(st, wall, mono);
    hide Advance;
    forall k | k in a.records
      ensures k in st.records && Summarize(k, a.records[k]) == Summarize(k, st.records[k])
      ensures a.records[k].source == st.records[k].source && a.records[k].job == st.records[k].job
    {
      AdvanceRecord(st, wall, mono, k);
    }
  }

  // ---- The operations ----

  lemma PutKeepsJobs(st: Ledger, k: nat, r: Record)
    requires JobsOk(st) && k in st.records && r.source == st.records[k].source && r.job == st.records[k].job
    ensures JobsOk(Put(st, k, r))
  {
  }

  lemma PutFollows(st: Ledger, k: nat, r: Record)
    requires JobsOk(st) && k in st.records && Evolves(st.records[k], r)
    ensures Follows(st, Put(st, k, r)) && JobsOk(Put(st, k, r))
  {
    PutKeepsJobs(st, k, r);
    EvolvesReflexive();
    hide Evolves, JobsOk;
  }

  /** Two ledgers that differ only in what no earlier state constrains. */
  lemma FollowsLoosely(a: Ledger, b: Ledger, c: Ledger)
    requires Follows(a, b) && JobsOk(b)
    requires c == b.(changes := c.changes, admissionStopped := c.admissionStopped, clock := c.clock)
    requires b.changes <= c.changes && (b.admissionStopped ==> c.admissionStopped)
    ensures Follows(a, c) && JobsOk(c)
  {
    hide RecordsFollow, NumbersFollow, RetiredFollow;
  }

  lemma TouchFollows(st: Ledger, k: nat)
    requires JobsOk(st) && k in st.records
    ensures Follows(st, Touch(st, k)) && JobsOk(Touch(st, k))
  {
    PutFollows(st, k, Touched(st.records[k]));
  }

  lemma IsolatedEvolves(st: Ledger, k: nat, how: Isolation)
    requires Inv(st) && k in st.records
    ensures Evolves(st.records[k], Isolated(st.records[k], how))
  {
    LiveRecordOk(st, k);
  }

  lemma IsolateFollows(st: Ledger, k: nat, how: Isolation)
    requires Inv(st) && JobsOk(st) && k in st.records
    ensures Follows(st, IsolateRecord(st, k, how)) && JobsOk(IsolateRecord(st, k, how))
  {
    hide Inv, Follows, Evolves, JobsOk;
    IsolatedEvolves(st, k, how);
    var r := Isolated(st.records[k], how);
    PutFollows(st, k, r);
    FollowsLoosely(st, Put(st, k, r), IsolateRecord(st, k, how));
  }

  lemma IsolateAndTouchFollows(st: Ledger, k: nat, how: Isolation)
    requires Inv(st) && JobsOk(st) && k in st.records
    ensures Follows(st, IsolateAndTouch(st, k, how)) && JobsOk(IsolateAndTouch(st, k, how))
  {
    hide Inv, Follows, JobsOk;
    IsolateKeeps(st, k, how);
    IsolateFollows(st, k, how);
    TouchFollows(IsolateRecord(st, k, how), k);
    FollowsTransitive(st, IsolateRecord(st, k, how), IsolateAndTouch(st, k, how));
  }

  lemma ConflictFollows(st: Ledger, k: nat, key: (Source, Round))
    requires Inv(st) && JobsOk(st) && k in st.records
    ensures Follows(st, Conflict(st, k, key)) && JobsOk(Conflict(st, k, key))
  {
    hide Inv, Follows, JobsOk;
    var s := IsolateRecord(st, k, AsConflict);
    IsolateKeeps(st, k, AsConflict);
    IsolateFollows(st, k, AsConflict);
    if OwnedByOther(st, k, key) && st.owners[key] in st.records {
      IsolateFollows(s, st.owners[key], AsConflict);
      FollowsTransitive(st, s, Conflict(st, k, key));
    }
  }

  // ---- Register ----

  lemma EnterFollows(st: Ledger, e: Event)
    requires e.Register? && NumbersOk(st)
    ensures Follows(st, Enter(st, e))
  {
    EvolvesReflexive();
    NewRecordFields(e);
    hide Evolves, NewRecord;
  }

  /** A note is only made on the latest invocation of the job that registers. */
  lemma NotedOnly(st: Ledger, e: Event)
    requires e.Register?
    ensures var noted := NoteNextEntry(st, e);
            && noted.(records := st.records) == st && noted.records.Keys == st.records.Keys
            && forall k :: k in st.records ==>
                 && noted.records[k].source == st.records[k].source && noted.records[k].job == st.records[k].job
                 && (noted.records[k] == st.records[k]
                     || (e.job.Some? && (e.source, e.job.value) in st.jobs
                         && st.jobs[(e.source, e.job.value)].seqNo == k))
  {
  }

  lemma EnterKeepsJobs(st: Ledger, e: Event)
    requires e.Register? && NumbersOk(st) && JobsOk(st)
    ensures JobsOk(Enter(NoteNextEntry(st, e), e))
  {
    hide NoteNextEntry, Enter, JobsOk;
    NotedOnly(st, e);
    EnterOverNoted(st, NoteNextEntry(st, e), e);
  }

  lemma EnterOverNoted(st: Ledger, noted: Ledger, e: Event)
    requires e.Register? && NumbersOk(st) && JobsOk(st)
    requires noted.jobs == st.jobs && noted.nTotal == st.nTotal && noted.records.Keys == st.records.Keys
    requires forall k :: k in st.records ==>
               && noted.records[k].source == st.records[k].source && noted.records[k].job == st.records[k].job
               && (noted.records[k] == st.records[k]
                   || (e.job.Some? && (e.source, e.job.value) in st.jobs
                       && st.jobs[(e.source, e.job.value)].seqNo == k))
    ensures JobsOk(Enter(noted, e))
  {
    var t := Enter(noted, e);
    hide NewRecord;
    NewRecordFields(e);
    forall key | key in t.jobs
      ensures JobOk(t.records, t.jobs[key]) && 1 <= t.jobs[key].seqNo <= t.nTotal
      ensures t.jobs[key].seqNo in t.records ==>
                var r := t.records[t.jobs[key].seqNo]; r.job.Some? && key == (r.source, r.job.value)
    {
      if e.job.Some? && key == (e.source, e.job.value) {
        assert t.jobs[key] == Summarize(t.nTotal, NewRecord(e));
      } else {
        assert key in st.jobs && t.jobs[key] == st.jobs[key] && JobOk(st.records, st.jobs[key]);
      }
    }
  }

  lemma NotedEvolves(st: Ledger, e: Event, k: nat)
    requires e.Register? && Inv(st) && k in st.records && st.records[k].exit == NoExit && st.records[k].finish.None?
    ensures Evolves(st.records[k], Noted(st.records[k], e))
  {
    hide Inv;
    LiveRecordOk(st, k);
    NotedRecordEvolves(st.start, st.frontier, st.records[k], e);
  }

  lemma NotedRecordEvolves(start: int, frontier: Option<int>, r: Record, e: Event)
    requires e.Register? && RecordOk(start, frontier, r) && r.exit == NoExit && r.finish.None?
    ensures Evolves(r, Noted(r, e))
  {
  }

  lemma NoteNextEntryFollows(st: Ledger, e: Event)
    requires e.Register? && Inv(st) && JobsOk(st)
    ensures Follows(st, NoteNextEntry(st, e))
  {
    hide Inv, Follows, Evolves, JobsOk;
    Reflexive(st);
    if e.serial && e.job.Some? && (e.source, e.job.value) in st.jobs {
      var p := st.jobs[(e.source, e.job.value)];
      if EndsPrevious(p, e.startedWall, e.startedMono) && p.seqNo in st.records {
        ExitKnown(st, (e.source, e.job.value));
        NotedEvolves(st, e, p.seqNo);
        var r := Noted(st.records[p.seqNo], e);
        ReplaceFollows(st, p.seqNo, r);
        assert NoteNextEntry(st, e) == st.(records := st.records[p.seqNo := r]);
      }
    }
  }

  lemma ReplaceFollows(st: Ledger, k: nat, r: Record)
    requires k in st.records && Evolves(st.records[k], r)
    ensures Follows(st, st.(records := st.records[k := r]))
  {
    EvolvesReflexive();
    hide Evolves;
  }

  lemma ExitKnown(st: Ledger, key: (Source, int))
    requires JobsOk(st) && key in st.jobs && st.jobs[key].seqNo in st.records
    ensures st.records[st.jobs[key].seqNo].exit == st.jobs[key].exit
    ensures st.records[st.jobs[key].seqNo].finish.None? <==> st.jobs[key].finished.None?
  {
    assert JobOk(st.records, st.jobs[key]);
  }

  lemma RegisterApplyFollows(st: Ledger, e: Event)
    requires e.Register? && Inv(st) && JobsOk(st)
    ensures Follows(st, RegisterApply(st, e).0) && JobsOk(RegisterApply(st, e).0)
  {
    hide Inv, Follows, JobsOk, Enter, NoteNextEntry;
    Reflexive(st);
    if Live(st, e.id) {
      TouchFollows(st, st.ids[e.id]);
      IsolateAndTouchFollows(st, st.ids[e.id], AsConflict);
    } else if !Tombstoned(st, e.id) {
      FollowsLoosely(st, st, st.(admissionStopped := true));
      NoteNextEntryKeeps(st, e);
      var noted := NoteNextEntry(st, e);
      NoteNextEntryFollows(st, e);
      InvNumbers(st);
      InvNumbers(noted);
      EnterFollows(noted, e);
      EnterKeepsJobs(st, e);
      FollowsTransitive(st, noted, Enter(noted, e));
    }
  }

  // ---- Link and finish ----

  lemma BindFollows(st: Ledger, k: nat, round: Round)
    requires JobsOk(st) && k in st.records && st.records[k].connection == Unbound
    ensures Follows(st, Bind(st, k, round)) && JobsOk(Bind(st, k, round))
  {
    PutFollows(st, k, Bound(st.records[k], round));
    hide RecordsFollow, NumbersFollow, RetiredFollow;
  }

  lemma LinkLiveFollows(st: Ledger, k: nat, e: Event)
    requires e.LinkRound? && Inv(st) && JobsOk(st) && k in st.records
    ensures Follows(st, LinkLive(st, k, e).0) && JobsOk(LinkLive(st, k, e).0)
  {
    hide Inv, Follows, JobsOk, Conflict, IsolateRecord, IsolateAndTouch, Touch, Bind;
    ConflictFollows(st, k, (st.records[k].source, e.round));
    IsolateFollows(st, k, AsConflict);
    TouchFollows(st, k);
    IsolateAndTouchFollows(st, k, AsMixed);
    IsolateAndTouchFollows(st, k, AsUnavailable);
    if st.records[k].connection == Unbound && !OwnedByOther(st, k, (st.records[k].source, e.round)) {
      BindKeeps(st, k, e.round);
      BindFollows(st, k, e.round);
      BindStays(st, k, e.round);
      TouchFollows(Bind(st, k, e.round), k);
      FollowsTransitive(st, Bind(st, k, e.round), Touch(Bind(st, k, e.round), k));
    }
  }

  lemma BindStays(st: Ledger, k: nat, round: Round)
    requires k in st.records
    ensures k in Bind(st, k, round).records
  {
  }

  lemma FinishedEvolves(r: Record, e: Event)
    requires e.Finish? && r.finish.None? && r.inclusion == NotFinished && !Isolatedly(r.lifecycle)
    requires r.connection == Started(e.round) && e.contract == RegisteredContract(r.source) && !FinishTimesWrong(r, e)
    ensures Evolves(r, Finished(r, e).(lifecycle := ReportUnavailable, inclusion := OpenExcluded,
                                       everUnavailable := true))
    ensures Evolves(r, Finished(r, e).(lifecycle := Finalized, inclusion := OpenIncluded,
                       detail := Some(Normalize(r.source, e.report.summary, e.report.telemetryError))))
    ensures forall wall, mono ::
              Leaves(r, Bury(Finished(r, e).(lifecycle := Finalized, inclusion := PostCloseExcluded), wall, mono))
    ensures Finished(r, e).source == r.source && Finished(r, e).job == r.job
  {
    hide Normalize;
  }

  lemma LateFinishFollows(st: Ledger, k: nat, last: Record, wall: int, mono: int)
    requires Inv(st) && JobsOk(st) && k in st.records && Leaves(st.records[k], Bury(last, wall, mono))
    requires last.source == st.records[k].source && last.job == st.records[k].job
    ensures Follows(st, Retire(Put(st, k, last), map[k := last], wall, mono))
    ensures JobsOk(Retire(Put(st, k, last), map[k := last], wall, mono))
  {
    hide Inv, SyncJob, Leaves, Bury, Follows;
    InvNumbers(st);
    var dead := map[k := last];
    assert dead.Keys == {k};
    RetireFollows(st, dead, wall, mono);
    LateFinishIsRetire(st, k, last, wall, mono);
    JobsFollow(st, Retire(st, dead, wall, mono), SyncJob(st.jobs, k, last));
    PutKeepsJobs(st, k, last);
    RetireKeepsJobs(Put(st, k, last), dead, wall, mono);
  }

  lemma JobsFollow(a: Ledger, b: Ledger, jobs: map<(Source, int), JobSummary>)
    requires Follows(a, b)
    ensures Follows(a, b.(jobs := jobs))
  {
    hide RecordsFollow, NumbersFollow, RetiredFollow;
  }

  lemma RetireKeepsJobs(st: Ledger, dead: map<nat, Record>, wall: int, mono: int)
    requires JobsOk(st)
    ensures JobsOk(Retire(st, dead, wall, mono))
  {
    RetireLeaves(st, dead, wall, mono);
    hide Retire;
    assert forall key :: key in st.jobs ==> JobOk(st.records, st.jobs[key]);
  }

  lemma NotFinishedYet(st: Ledger, k: nat)
    requires Inv(st) && k in st.records && st.records[k].finish.None?
    ensures st.records[k].inclusion == NotFinished
  {
    LiveRecordOk(st, k);
  }

  lemma FirstFinishFollows(st: Ledger, k: nat, e: Event)
    requires e.Finish? && Inv(st) && JobsOk(st) && k in st.records
    requires st.records[k].finish.None? && st.records[k].connection == Started(e.round)
    requires !Isolatedly(st.records[k].lifecycle)
    requires e.contract == RegisteredContract(st.records[k].source) && !FinishTimesWrong(st.records[k], e)
    ensures Follows(st, FirstFinish(st, k, e).0) && JobsOk(FirstFinish(st, k, e).0)
  {
    hide Inv, Follows, JobsOk, Evolves, Leaves, Finished, Normalize, Bury, Retire, SyncJob, CloseAt;
    NotFinishedYet(st, k);
    FinishedEvolves(st.records[k], e);
    var r := Finished(st.records[k], e);
    if e.wall >= CloseAt(e.finishedWall) {
      LateFinishFollows(st, k, r.(lifecycle := Finalized, inclusion := PostCloseExcluded), e.wall, e.mono);
    } else if e.report.retention != Keep {
      var s := r.(lifecycle := ReportUnavailable, inclusion := OpenExcluded, everUnavailable := true);
      PutFollows(st, k, s);
      FollowsLoosely(st, Put(st, k, s), FirstFinish(st, k, e).0);
    } else {
      var s := r.(lifecycle := Finalized, inclusion := OpenIncluded,
                  detail := Some(Normalize(r.source, e.report.summary, e.report.telemetryError)));
      PutFollows(st, k, s);
      FollowsLoosely(st, Put(st, k, s), FirstFinish(st, k, e).0);
    }
  }

  lemma FinishStartedFollows(st: Ledger, k: nat, e: Event)
    requires e.Finish? && Inv(st) && JobsOk(st) && k in st.records && st.records[k].connection == Started(e.round)
    ensures Follows(st, FinishStarted(st, k, e).0) && JobsOk(FinishStarted(st, k, e).0)
  {
    hide Inv, Follows, JobsOk, IsolateAndTouch, Touch, FirstFinish, FinishTimesWrong, DigestOf;
    TouchFollows(st, k);
    IsolateAndTouchFollows(st, k, AsMixed);
    IsolateAndTouchFollows(st, k, AsUnavailable);
    IsolateAndTouchFollows(st, k, AsConflict);
    if st.records[k].finish.None? && !Isolatedly(st.records[k].lifecycle)
       && e.contract == RegisteredContract(st.records[k].source) && !FinishTimesWrong(st.records[k], e) {
      FirstFinishFollows(st, k, e);
    }
  }

  lemma FinishLiveFollows(st: Ledger, k: nat, e: Event)
    requires e.Finish? && Inv(st) && JobsOk(st) && k in st.records
    ensures Follows(st, FinishLive(st, k, e).0) && JobsOk(FinishLive(st, k, e).0)
  {
    hide Inv, Follows, JobsOk, Conflict, IsolateRecord, IsolateAndTouch, FinishStarted;
    ConflictFollows(st, k, (st.records[k].source, e.round));
    IsolateFollows(st, k, AsConflict);
    IsolateAndTouchFollows(st, k, AsUnavailable);
    if st.records[k].connection == Started(e.round) {
      FinishStartedFollows(st, k, e);
    }
  }

  // ---- Evidence ----

  lemma InitFailedApplyFollows(st: Ledger, e: Event)
    requires e.ReportInitFailed? && Inv(st) && JobsOk(st)
    ensures Follows(st, InitFailedApply(st, e).0) && JobsOk(InitFailedApply(st, e).0)
  {
    hide Inv, Follows, JobsOk, Evolves, Put, IsolateRecord;
    Reflexive(st);
    if Live(st, e.id) && st.records[st.ids[e.id]].initFailed.None? {
      var k := st.ids[e.id];
      var r := st.records[k];
      var at := r.(initFailed := Some(Instant(e.failedWall, e.failedMono)));
      if r.connection.Started? {
        StartedFailsFollows(st, k, at);
      } else {
        var failed := at.(connection := InitFailed);
        var s := if Unreported(r) then Unavailable(failed) else failed;
        LiveRecordOk(st, k);
        EvidenceEvolves(st.start, st.frontier, r, s);
        PutFollows(st, k, s);
      }
    }
  }

  lemma StartedFailsFollows(st: Ledger, k: nat, at: Record)
    requires Inv(st) && JobsOk(st) && k in st.records && st.records[k].initFailed.None?
    requires at == st.records[k].(initFailed := at.initFailed)
    ensures Follows(st, IsolateRecord(Put(st, k, at), k, AsConflict))
            && JobsOk(IsolateRecord(Put(st, k, at), k, AsConflict))
  {
    hide Inv, Follows, JobsOk, IsolateRecord;
    EvidenceKeeps(st, k, at);
    PutFollows(st, k, at);
    IsolateFollows(Put(st, k, at), k, AsConflict);
    FollowsTransitive(st, Put(st, k, at), IsolateRecord(Put(st, k, at), k, AsConflict));
  }

  lemma EvidenceEvolves(start: int, frontier: Option<int>, r: Record, s: Record)
    requires RecordOk(start, frontier, r)
    requires s == r.(initFailed := s.initFailed, connection := s.connection, lifecycle := s.lifecycle, exit := s.exit,
                     everUnavailable := s.everUnavailable)
    requires s.initFailed == r.initFailed || r.initFailed.None?
    requires s.connection == r.connection || r.connection == Unbound || (r.connection == InitFailed == s.connection)
    requires s.exit == r.exit || !r.exit.WrapperExited?
    requires s.exit == r.exit || (r.finish.Some? ==> ExitAllows(s.exit, r.finish.value.wall, r.finish.value.mono))
    requires r.everUnavailable ==> s.everUnavailable
    requires s.lifecycle == (if Unreported(r) then ReportUnavailable else r.lifecycle)
    ensures Evolves(r, s)
  {
  }

  lemma ExitApplyFollows(st: Ledger, e: Event)
    requires e.WrapperExit? && Inv(st) && JobsOk(st)
    ensures Follows(st, ExitApply(st, e).0) && JobsOk(ExitApply(st, e).0)
  {
    hide Inv, Follows, JobsOk, Evolves, Put;
    Reflexive(st);
    if Live(st, e.id) && ExitApply(st, e).1 == WrapperExitRecorded {
      var k := st.ids[e.id];
      var r := st.records[k];
      var exited := r.(exit := WrapperExited(e.exitedWall, e.exitedMono));
      var s := if Unreported(r) then Unavailable(exited) else exited;
      LiveRecordOk(st, k);
      EvidenceEvolves(st.start, st.frontier, r, s);
      PutFollows(st, k, s);
    }
  }

  // ---- Steps and runs ----

  /** The state an accepted event starts from. */
  lemma AdvanceAll(st: Ledger, wall: int, mono: int)
    requires Inv(st) && JobsOk(st)
    ensures var a := Advance(st, wall, mono); Inv(a) && JobsOk(a) && Follows(st, a)
  {
    AdvanceKeeps(st, wall, mono);
    AdvanceKeepsJobs(st, wall, mono);
    AdvanceFollows(st, wall, mono);
  }

  lemma ClockFollows(st: Ledger, c: Clock)
    requires JobsOk(st)
    ensures Follows(st, st.(clock := c)) && JobsOk(st.(clock := c))
  {
    Reflexive(st);
    FollowsLoosely(st, st, st.(clock := c));
  }

  lemma RegisterStepFollows(st: Ledger, e: Event)
    requires e.Register? && Inv(st) && JobsOk(st)
    ensures Follows(st, RegisterStep(st, e).0) && JobsOk(RegisterStep(st, e).0)
  {
    hide Inv, JobsOk, Follows, Advance, CheckClock, RegisterApply, IdentityFault;
    NoIdentityFault(st, e.id);
    Reflexive(st);
    var gate := CheckClock(st.clock, e.wall, e.mono);
    if gate.Rejected? {
      ClockFollows(st, gate.clock);
    } else {
      var a := Advance(st, e.wall, e.mono);
      AdvanceAll(st, e.wall, e.mono);
      RegisterApplyFollows(a, e);
      FollowsTransitive(st, a, RegisterApply(a, e).0);
    }
  }

  lemma LinkStepFollows(st: Ledger, e: Event)
    requires e.LinkRound? && Inv(st) && JobsOk(st)
    ensures Follows(st, LinkStep(st, e).0) && JobsOk(LinkStep(st, e).0)
  {
    hide Inv, JobsOk, Follows, Advance, CheckClock, LinkLive, IdentityFault, CandidateFault;
    NoIdentityFault(st, e.id);
    if Live(st, e.id) {
      NoCandidateFault(st, (st.records[st.ids[e.id]].source, e.round));
    }
    Reflexive(st);
    var gate := CheckClock(st.clock, e.wall, e.mono);
    if gate.Rejected? {
      ClockFollows(st, gate.clock);
    } else {
      var a := Advance(st, e.wall, e.mono);
      AdvanceAll(st, e.wall, e.mono);
      if Live(a, e.id) {
        LinkLiveFollows(a, a.ids[e.id], e);
        FollowsTransitive(st, a, LinkLive(a, a.ids[e.id], e).0);
      }
    }
  }

  lemma FinishStepFollows(st: Ledger, e: Event)
    requires e.Finish? && Inv(st) && JobsOk(st)
    ensures Follows(st, FinishStep(st, e).0) && JobsOk(FinishStep(st, e).0)
  {
    hide Inv, JobsOk, Follows, Advance, CheckClock, FinishLive, IdentityFault, CandidateFault, FinishOutOfStep;
    NoIdentityFault(st, e.id);
    if Live(st, e.id) {
      NoCandidateFault(st, (st.records[st.ids[e.id]].source, e.round));
    }
    Reflexive(st);
    var gate := CheckClock(st.clock, e.wall, e.mono);
    if gate.Rejected? {
      ClockFollows(st, gate.clock);
    } else {
      var a := Advance(st, e.wall, e.mono);
      AdvanceAll(st, e.wall, e.mono);
      if Live(a, e.id) {
        FinishLiveFollows(a, a.ids[e.id], e);
        FollowsTransitive(st, a, FinishLive(a, a.ids[e.id], e).0);
      }
    }
  }

  lemma InitFailedStepFollows(st: Ledger, e: Event)
    requires e.ReportInitFailed? && Inv(st) && JobsOk(st)
    ensures Follows(st, InitFailedStep(st, e).0) && JobsOk(InitFailedStep(st, e).0)
  {
    hide Inv, JobsOk, Follows, Advance, CheckClock, InitFailedApply, IdentityFault;
    NoIdentityFault(st, e.id);
    Reflexive(st);
    var gate := CheckClock(st.clock, e.wall, e.mono);
    if gate.Rejected? {
      ClockFollows(st, gate.clock);
    } else {
      var a := Advance(st, e.wall, e.mono);
      AdvanceAll(st, e.wall, e.mono);
      InitFailedApplyFollows(a, e);
      FollowsTransitive(st, a, InitFailedApply(a, e).0);
    }
  }

  lemma ExitStepFollows(st: Ledger, e: Event)
    requires e.WrapperExit? && Inv(st) && JobsOk(st)
    ensures Follows(st, ExitStep(st, e).0) && JobsOk(ExitStep(st, e).0)
  {
    hide Inv, JobsOk, Follows, Advance, CheckClock, ExitApply, IdentityFault;
    NoIdentityFault(st, e.id);
    Reflexive(st);
    var gate := CheckClock(st.clock, e.wall, e.mono);
    if gate.Rejected? {
      ClockFollows(st, gate.clock);
    } else {
      var a := Advance(st, e.wall, e.mono);
      AdvanceAll(st, e.wall, e.mono);
      ExitApplyFollows(a, e);
      FollowsTransitive(st, a, ExitApply(a, e).0);
    }
  }

  lemma ObserveStepFollows(st: Ledger, e: Event)
    requires e.Observe? && Inv(st) && JobsOk(st)
    ensures Follows(st, ObserveStep(st, e).0) && JobsOk(ObserveStep(st, e).0)
  {
    hide Inv, JobsOk, Follows, Advance, CheckClock;
    Reflexive(st);
    var gate := CheckClock(st.clock, e.wall, e.mono);
    if gate.Rejected? {
      ClockFollows(st, gate.clock);
    } else {
      AdvanceAll(st, e.wall, e.mono);
    }
  }

  /** Every operation lets history follow. */
  lemma StepFollows(st: Ledger, e: Event)
    requires Inv(st) && JobsOk(st)
    ensures Follows(st, Step(st, e).0) && JobsOk(Step(st, e).0)
  {
    hide Inv, JobsOk, Follows, RegisterStep, LinkStep, FinishStep, InitFailedStep, ExitStep, ObserveStep;
    match e {
      case Register(_, _, _, _, _, _, _, _, _) => RegisterStepFollows(st, e);
      case LinkRound(_, _, _, _, _) => LinkStepFollows(st, e);
      case Finish(_, _, _, _, _, _, _, _) => FinishStepFollows(st, e);
      case ReportInitFailed(_, _, _, _, _) => InitFailedStepFollows(st, e);
      case WrapperExit(_, _, _, _, _) => ExitStepFollows(st, e);
      case Observe(_, _) => ObserveStepFollows(st, e);
    }
  }

  lemma EmptyLedgerJobs(start: int, maxRecords: nat)
    ensures JobsOk(EmptyLedger(start, maxRecords))
  {
  }

  lemma {:induction false} RunKeepsJobs(start: int, maxRecords: nat, events: seq<Event>)
    ensures JobsOk(Run(EmptyLedger(start, maxRecords), events))
    decreases |events|
  {
    hide Inv, JobsOk, Step;
    EmptyLedgerJobs(start, maxRecords);
    if events != [] {
      var before := events[..|events| - 1];
      RunKeepsJobs(start, maxRecords, before);
      RunKeeps(start, maxRecords, before);
      StepFollows(Run(EmptyLedger(start, maxRecords), before), events[|events| - 1]);
    }
  }

  /** Over a whole run: from any moment to any later one, reports, first finishes, rounds and exits are written once,
      isolated records stay isolated, nothing retired comes back, and totals and changes only grow. */
  lemma {:induction false} HistoryFollows(start: int, maxRecords: nat, events: seq<Event>, i: nat)
    requires i <= |events|
    ensures Follows(Run(EmptyLedger(start, maxRecords), events[..i]), Run(EmptyLedger(start, maxRecords), events))
    decreases |events|
  {
    hide Inv, JobsOk, Step, Follows;
    var st := EmptyLedger(start, maxRecords);
    if i == |events| {
      assert events[..i] == events;
      Reflexive(Run(st, events));
    } else {
      var before := events[..|events| - 1];
      assert before[..i] == events[..i];
      HistoryFollows(start, maxRecords, before, i);
      RunKeeps(start, maxRecords, before);
      RunKeeps(start, maxRecords, events[..i]);
      RunKeepsJobs(start, maxRecords, before);
      StepFollows(Run(st, before), events[|events| - 1]);
      FollowsTransitive(Run(st, events[..i]), Run(st, before), Run(st, events));
    }
  }
}
