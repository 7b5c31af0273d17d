/** What every reachable state of the ledger satisfies, and that every operation keeps it. */
module LedgerInvariant {
  import opened Wrappers
  import opened Totals
  import opened Axes
  import opened LedgerState
  import opened LedgerSpec

  // ---- Identities ----

  /** The resident identifiers and the resident sequence numbers correspond one to one. */
  ghost predicate IdsOk(ids: map<Id, nat>, records: map<nat, Record>, tombs: map<nat, Tomb>) {
    && records.Keys !! tombs.Keys
    && (forall i :: i in ids ==> || (ids[i] in records && records[ids[i]].id == i)
                                 || (ids[i] in tombs && tombs[ids[i]].id == i))
    && (forall k :: k in records ==> records[k].id in ids && ids[records[k].id] == k)
    && (forall k :: k in tombs ==> tombs[k].id in ids && ids[tombs[k].id] == k)
  }

  predicate Owns(records: map<nat, Record>, tombs: map<nat, Tomb>, k: nat, key: (Source, Round)) {
    || (k in records && records[k].source == key.0 && records[k].connection == Started(key.1))
    || (k in tombs && tombs[k].source == key.0 && tombs[k].connection == Started(key.1))
  }

  predicate HasStarted(records: map<nat, Record>, tombs: map<nat, Tomb>, k: nat) {
    (k in records && records[k].connection.Started?) || (k in tombs && tombs[k].connection.Started?)
  }

  predicate OwnerIs(owners: map<(Source, Round), nat>, source: Source, connection: Connection, k: nat) {
    connection.Started? ==>
      (source, connection.round) in owners && owners[(source, connection.round)] == k
  }

  /** Started records and tombstones correspond one to one with the ownership map. */
  ghost predicate OwnersOk(records: map<nat, Record>, tombs: map<nat, Tomb>, owners: map<(Source, Round), nat>) {
    && (forall key :: key in owners ==> Owns(records, tombs, owners[key], key))
    && (forall k :: k in records ==> OwnerIs(owners, records[k].source, records[k].connection, k))
    && (forall k :: k in tombs ==> OwnerIs(owners, tombs[k].source, tombs[k].connection, k))
  }

  ghost predicate OwnedIdsOk(ids: map<Id, nat>, records: map<nat, Record>, tombs: map<nat, Tomb>, owned: set<Id>) {
    forall i :: i in owned <==> i in ids && HasStarted(records, tombs, ids[i])
  }

  // ---- Live records ----

  predicate FinishOk(start: int, frontier: Option<int>, r: Record) {
    r.finish.Some? ==>
      && r.connection.Started?
      && r.startedWall <= r.finish.value.wall && r.startedMono <= r.finish.value.mono
      && BucketEnd(r.finish.value.wall) > PreviousEnd(start, frontier)
  }

  predicate RecordOk(start: int, frontier: Option<int>, r: Record) {
    && r.source != Unsupported && start <= r.startedWall
    && (r.finish.None? <==> r.inclusion == NotFinished)
    && r.inclusion != PostCloseExcluded
    && (r.inclusion == OpenIncluded <==> r.lifecycle == Finalized)
    && (r.inclusion == OpenIncluded ==> r.detail.Some? && WellFormed(r.source, r.detail.value))
    && (Unreported(r) ==> r.finish.None?)
    && FinishOk(start, frontier, r)
  }

  ghost predicate RecordsOk(start: int, frontier: Option<int>, records: map<nat, Record>) {
    forall k :: k in records ==> RecordOk(start, frontier, records[k])
  }

  predicate FrontierOk(start: int, frontier: Option<int>) {
    frontier.Some? ==> frontier.value % MINUTE == 0 && frontier.value > FloorMinute(start)
  }

  // ---- History ----

  predicate Contributes(r: Record) {
    r.inclusion == OpenIncluded ==> r.detail.Some? && WellFormed(r.source, r.detail.value)
  }

  ghost predicate RetiredRecordsOk(retired: map<nat, Record>) {
    forall k :: k in retired ==> retired[k].source != Unsupported && Contributes(retired[k])
  }

  /** The cumulative totals are the contributions of exactly the rounds that were openly included when they retired. */
  ghost predicate CumulativeOk(cumulative: multiset<Tally>, retired: map<nat, Record>) {
    cumulative == Total(Contributions(IncludedOf(retired)))
  }

  predicate RegistrationIs(registered: seq<Registration>, k: nat, r: Record) {
    1 <= k <= |registered| && registered[k - 1] == Registration(r.source, r.startedWall)
  }

  ghost predicate AllRegistered(registered: seq<Registration>, records: map<nat, Record>) {
    forall k :: k in records ==> RegistrationIs(registered, k, records[k])
  }

  /** Whoever ever registered is either live or retired; tombstones are the retired that are not yet pruned. */
  ghost predicate RegisteredOk(registered: seq<Registration>, records: map<nat, Record>, retired: map<nat, Record>) {
    && records.Keys !! retired.Keys && |records| + |retired| == |registered|
    && AllRegistered(registered, records) && AllRegistered(registered, retired)
    && (forall k :: 1 <= k <= |registered| ==> k in records || k in retired)
  }

  ghost predicate TombsOk(tombs: map<nat, Tomb>, retired: map<nat, Record>, identityPruned: bool) {
    tombs.Keys <= retired.Keys && (identityPruned <==> tombs.Keys != retired.Keys)
  }

  function ActionsOf(changes: seq<Change>, k: nat): seq<Action>
    decreases |changes|
  {
    if changes == [] then []
    else
      var last := changes[|changes| - 1];
      ActionsOf(changes[..|changes| - 1], k) + (if last.seqNo == k then [last.action] else [])
  }

  lemma ActionsOfAppend(changes: seq<Change>, c: Change, k: nat)
    ensures ActionsOf(changes + [c], k) == ActionsOf(changes, k) + (if c.seqNo == k then [c.action] else [])
  {
    assert (changes + [c])[..|changes|] == changes;
  }

  /** For every invocation the announced changes are a prefix of "added, removed". */
  ghost predicate ChangeOk(actions: seq<Action>, k: nat, records: map<nat, Record>, retired: map<nat, Record>) {
    && (actions == [Add] <==> (k in records && records[k].inclusion == OpenIncluded)
                              || (k in retired && retired[k].inclusion == OpenIncluded))
    && (actions == [] || actions == [Add] || actions == [Add, Remove])
    && ((k !in records && k !in retired) || (k in records && records[k].finish.None?) ==> actions == [])
  }

  ghost predicate ChangesOk(changes: seq<Change>, records: map<nat, Record>, retired: map<nat, Record>) {
    forall k: nat :: ChangeOk(ActionsOf(changes, k), k, records, retired)
  }

  // ---- Frozen counters ----

  /** The frozen line is the latest start among the retired. */
  ghost predicate LineOk(frozenThrough: Option<int>, retired: map<nat, Record>) {
    && (forall k :: k in retired ==> frozenThrough.Some? && retired[k].startedWall <= frozenThrough.value)
    && (frozenThrough.Some? ==> exists k :: k in retired && retired[k].startedWall == frozenThrough.value)
  }

  /** The frozen counters count exactly the retired. */
  ghost predicate FrozenOk(frozen: multiset<CohortKey>, retired: map<nat, Record>) {
    frozen == Total(CohortTallies(retired))
  }

  // ---- The invariant ----

  ghost predicate Inv(st: Ledger) {
    && IdsOk(st.ids, st.records, st.tombs)
    && OwnersOk(st.records, st.tombs, st.owners)
    && OwnedIdsOk(st.ids, st.records, st.tombs, st.ownedIds)
    && RecordsOk(st.start, st.frontier, st.records)
    && FrontierOk(st.start, st.frontier)
    && RetiredRecordsOk(st.retired)
    && CumulativeOk(st.cumulative, st.retired)
    && RegisteredOk(st.registered, st.records, st.retired)
    && TombsOk(st.tombs, st.retired, st.identityPruned)
    && ChangesOk(st.changes, st.records, st.retired)
    && FrozenOk(st.frozen, st.retired) && LineOk(st.frozenThrough, st.retired)
    && st.nTotal == |st.registered| && !st.indexError
    && |st.records| + |st.tombs| <= st.maxRecords
  }

  lemma EmptyLedgerInv(start: int, maxRecords: nat)
    ensures Inv(EmptyLedger(start, maxRecords))
  {
  }

  // ---- Replacing a live record ----

  /** Two states of the same record between which only its report and its evidence differ. */
  predicate SameStanding(r: Record, s: Record) {
    && s.id == r.id && s.source == r.source && s.startedWall == r.startedWall
    && (r.connection.Started? || s.connection.Started? ==> s.connection == r.connection)
    && (s.inclusion == OpenIncluded <==> r.inclusion == OpenIncluded)
    && (s.finish.None? ==> r.finish.None?)
  }

  /** Some of the live records are replaced by other states of themselves. */
  ghost predicate Replaces(records: map<nat, Record>, now: map<nat, Record>) {
    now.Keys == records.Keys && forall k :: k in now ==> SameStanding(records[k], now[k])
  }

  lemma ReplaceKeeps(st: Ledger, now: map<nat, Record>)
    requires Inv(st) && Replaces(st.records, now) && RecordsOk(st.start, st.frontier, now)
    ensures Inv(st.(records := now))
  {
    hide IdsOk, OwnersOk, OwnedIdsOk, RecordsOk, FrontierOk, RetiredRecordsOk, CumulativeOk, RegisteredOk, TombsOk,
         ChangesOk, FrozenOk, LineOk;
    ReplaceKeepsIdentities(st, now);
    ReplaceKeepsRegistered(st, now);
    ReplaceKeepsChanges(st, now);
    SizeOfKeys(st.records);
    SizeOfKeys(now);
  }

  lemma ReplaceKeepsIdentities(st: Ledger, now: map<nat, Record>)
    requires Replaces(st.records, now)
    requires IdsOk(st.ids, st.records, st.tombs) && OwnersOk(st.records, st.tombs, st.owners)
    requires OwnedIdsOk(st.ids, st.records, st.tombs, st.ownedIds)
    ensures IdsOk(st.ids, now, st.tombs) && OwnersOk(now, st.tombs, st.owners)
    ensures OwnedIdsOk(st.ids, now, st.tombs, st.ownedIds)
  {
  }

  lemma ReplaceKeepsRegistered(st: Ledger, now: map<nat, Record>)
    requires now.Keys == st.records.Keys && RegisteredOk(st.registered, st.records, st.retired)
    requires forall k :: k in now ==>
               now[k].source == st.records[k].source && now[k].startedWall == st.records[k].startedWall
    ensures RegisteredOk(st.registered, now, st.retired)
  {
    SizeOfKeys(st.records);
    SizeOfKeys(now);
    forall k | k in now ensures RegistrationIs(st.registered, k, now[k]) {
      assert RegistrationIs(st.registered, k, st.records[k]);
    }
  }

  lemma ReplaceKeepsChanges(st: Ledger, now: map<nat, Record>)
    requires Replaces(st.records, now)
    requires ChangesOk(st.changes, st.records, st.retired)
    ensures ChangesOk(st.changes, now, st.retired)
  {
    forall j: nat ensures ChangeOk(ActionsOf(st.changes, j), j, now, st.retired) {
      assert ChangeOk(ActionsOf(st.changes, j), j, st.records, st.retired);
    }
  }

  lemma PutKeeps(st: Ledger, k: nat, r: Record)
    requires Inv(st) && k in st.records && SameStanding(st.records[k], r) && RecordOk(st.start, st.frontier, r)
    ensures Inv(Put(st, k, r))
  {
    hide SyncJob, RecordOk;
    assert Replaces(st.records, st.records[k := r]);
    PutKeepsRecords(st.start, st.frontier, st.records, k, r);
    ReplaceKeeps(st, st.records[k := r]);
    JobsDoNotMatter(st.(records := st.records[k := r]), SyncJob(st.jobs, k, r));
  }

  lemma JobsDoNotMatter(st: Ledger, jobs: map<(Source, int), JobSummary>)
    requires Inv(st)
    ensures Inv(st.(jobs := jobs))
  {
    hide IdsOk, OwnersOk, OwnedIdsOk, RecordsOk, FrontierOk, RetiredRecordsOk, CumulativeOk, RegisteredOk, TombsOk,
         ChangesOk, FrozenOk, LineOk;
  }

  lemma PutKeepsRecords(start: int, frontier: Option<int>, records: map<nat, Record>, k: nat, r: Record)
    requires RecordOk(start, frontier, r) && RecordsOk(start, frontier, records)
    ensures RecordsOk(start, frontier, records[k := r])
  {
  }

  lemma SizeOfKeys<K, V>(m: map<K, V>)
    ensures |m| == |m.Keys|
  {
  }

  lemma TouchKeeps(st: Ledger, k: nat)
    requires Inv(st) && k in st.records
    ensures Inv(Touch(st, k))
  {
    LiveRecordOk(st, k);
    TouchedStands(st.start, st.frontier, st.records[k]);
    hide Inv, RecordOk, SameStanding, Touched, Put;
    PutKeeps(st, k, Touched(st.records[k]));
  }

  lemma TouchedStands(start: int, frontier: Option<int>, r: Record)
    requires RecordOk(start, frontier, r)
    ensures RecordOk(start, frontier, Touched(r)) && SameStanding(r, Touched(r))
  {
  }

  // ---- Announcing a change of the open contributions ----

  /** The record leaves the open contributions, or enters them on its first finish. */
  predicate Announces(r: Record, s: Record, action: Action) {
    && s.id == r.id && s.source == r.source && s.startedWall == r.startedWall && s.connection == r.connection
    && s.finish.Some?
    && (match action
        case Add => r.finish.None? && s.inclusion == OpenIncluded
        case Remove => r.inclusion == OpenIncluded && s.inclusion == OpenExcluded)
  }

  lemma AnnounceKeeps(st: Ledger, k: nat, r: Record, action: Action)
    requires Inv(st) && k in st.records && Announces(st.records[k], r, action) && RecordOk(st.start, st.frontier, r)
    ensures Inv(Put(st, k, r).(changes := st.changes + [Change(k, action)]))
  {
    hide IdsOk, OwnersOk, OwnedIdsOk, RecordsOk, FrontierOk, RetiredRecordsOk, CumulativeOk, RegisteredOk, TombsOk,
         ChangesOk, FrozenOk, LineOk;
    AnnounceKeepsIdentities(st, k, r, action);
    LiveAreNotRetired(st);
    PutKeepsRecords(st.start, st.frontier, st.records, k, r);
    ReplaceKeepsRegistered(st, st.records[k := r]);
    AnnounceKeepsChanges(st, k, r, action);
    SizeOfKeys(st.records);
    SizeOfKeys(st.records[k := r]);
    assert st.records[k := r].Keys == st.records.Keys;
  }

  lemma LiveAreNotRetired(st: Ledger)
    requires RegisteredOk(st.registered, st.records, st.retired)
    ensures st.records.Keys !! st.retired.Keys
  {
  }

  lemma AnnounceKeepsIdentities(st: Ledger, k: nat, r: Record, action: Action)
    requires k in st.records && Announces(st.records[k], r, action)
    requires IdsOk(st.ids, st.records, st.tombs) && OwnersOk(st.records, st.tombs, st.owners)
    requires OwnedIdsOk(st.ids, st.records, st.tombs, st.ownedIds)
    ensures IdsOk(st.ids, st.records[k := r], st.tombs) && OwnersOk(st.records[k := r], st.tombs, st.owners)
    ensures OwnedIdsOk(st.ids, st.records[k := r], st.tombs, st.ownedIds)
  {
  }

  lemma AnnounceKeepsChanges(st: Ledger, k: nat, r: Record, action: Action)
    requires k in st.records && Announces(st.records[k], r, action)
    requires st.records.Keys !! st.retired.Keys && ChangesOk(st.changes, st.records, st.retired)
    ensures ChangesOk(st.changes + [Change(k, action)], st.records[k := r], st.retired)
  {
    forall j: nat ensures ChangeOk(ActionsOf(st.changes + [Change(k, action)], j), j, st.records[k := r], st.retired) {
      ActionsOfAppend(st.changes, Change(k, action), j);
      assert ChangeOk(ActionsOf(st.changes, j), j, st.records, st.retired);
    }
  }

  lemma IsolatedIsOk(start: int, frontier: Option<int>, r: Record, how: Isolation)
    requires RecordOk(start, frontier, r)
    ensures RecordOk(start, frontier, Isolated(r, how))
    ensures if r.inclusion == OpenIncluded then Announces(r, Isolated(r, how), Remove)
            else SameStanding(r, Isolated(r, how))
  {
  }

  lemma LiveRecordOk(st: Ledger, k: nat)
    requires Inv(st) && k in st.records
    ensures RecordOk(st.start, st.frontier, st.records[k])
  {
  }

  lemma IsolateKeeps(st: Ledger, k: nat, how: Isolation)
    requires Inv(st) && k in st.records
    ensures Inv(IsolateRecord(st, k, how))
  {
    hide Inv, RecordOk;
    LiveRecordOk(st, k);
    IsolatedIsOk(st.start, st.frontier, st.records[k], how);
    if st.records[k].inclusion == OpenIncluded {
      AnnounceKeeps(st, k, Isolated(st.records[k], how), Remove);
    } else {
      PutKeeps(st, k, Isolated(st.records[k], how));
      assert IsolateRecord(st, k, how) == Put(st, k, Isolated(st.records[k], how));
    }
  }

  lemma IsolateAndTouchKeeps(st: Ledger, k: nat, how: Isolation)
    requires Inv(st) && k in st.records
    ensures Inv(IsolateAndTouch(st, k, how))
  {
    IsolateKeeps(st, k, how);
    TouchKeeps(IsolateRecord(st, k, how), k);
  }

  lemma ConflictKeeps(st: Ledger, k: nat, key: (Source, Round))
    requires Inv(st) && k in st.records
    ensures Inv(Conflict(st, k, key))
  {
    IsolateKeeps(st, k, AsConflict);
    if OwnedByOther(st, k, key) && st.owners[key] in st.records {
      IsolateKeeps(IsolateRecord(st, k, AsConflict), st.owners[key], AsConflict);
    }
  }
}
