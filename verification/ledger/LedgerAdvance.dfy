/** Retiring, closing, expiring and pruning keep the invariant. */
module LedgerAdvance {
  import opened Wrappers
  import opened Totals
  import opened Axes
  import opened LedgerState
  import opened LedgerSpec
  import opened LedgerInvariant

  // ---- Retiring ----

  predicate SameIdentity(r: Record, s: Record) {
    s.id == r.id && s.source == r.source && s.startedWall == r.startedWall && s.connection == r.connection
  }

  /** `dead` are live records, up to what their retirement changes in them. */
  ghost predicate Retirable(records: map<nat, Record>, dead: map<nat, Record>) {
    dead.Keys <= records.Keys && forall k :: k in dead ==> SameIdentity(records[k], dead[k])
  }

  lemma RetireKeepsIdentities(st: Ledger, dead: map<nat, Record>, wall: int, mono: int)
    requires Retirable(st.records, dead)
    requires IdsOk(st.ids, st.records, st.tombs) && OwnersOk(st.records, st.tombs, st.owners)
    ensures IdsOk(st.ids, st.records - dead.Keys, st.tombs + Buried(dead, wall, mono))
    ensures OwnersOk(st.records - dead.Keys, st.tombs + Buried(dead, wall, mono), st.owners)
  {
    BuriedAsTheyWere(st.records, dead, wall, mono);
    hide Buried, Retirable;
    MovedKeepIds(st, dead.Keys, Buried(dead, wall, mono));
    MovedKeepOwners(st, dead.Keys, Buried(dead, wall, mono));
  }

  /** Tombstones that stand for the records of the same numbers. */
  ghost predicate StandFor(tombs: map<nat, Tomb>, records: map<nat, Record>, gone: set<nat>) {
    && tombs.Keys == gone && gone <= records.Keys
    && forall k :: k in gone ==>
         tombs[k].id == records[k].id && tombs[k].source == records[k].source
         && tombs[k].connection == records[k].connection
  }

  lemma BuriedAsTheyWere(records: map<nat, Record>, dead: map<nat, Record>, wall: int, mono: int)
    requires Retirable(records, dead)
    ensures StandFor(Buried(dead, wall, mono), records, dead.Keys)
  {
    hide CloseAt, RetireAt, RetireMono;
  }

  lemma MovedKeepIds(st: Ledger, gone: set<nat>, buried: map<nat, Tomb>)
    requires StandFor(buried, st.records, gone) && IdsOk(st.ids, st.records, st.tombs)
    ensures IdsOk(st.ids, st.records - gone, st.tombs + buried)
  {
  }

  lemma MovedKeepOwners(st: Ledger, gone: set<nat>, buried: map<nat, Tomb>)
    requires StandFor(buried, st.records, gone) && OwnersOk(st.records, st.tombs, st.owners)
    requires st.records.Keys !! st.tombs.Keys
    ensures OwnersOk(st.records - gone, st.tombs + buried, st.owners)
  {
    var records, tombs := st.records - gone, st.tombs + buried;
    forall key | key in st.owners ensures Owns(records, tombs, st.owners[key], key) {
      assert Owns(st.records, st.tombs, st.owners[key], key);
    }
    forall k | k in tombs ensures OwnerIs(st.owners, tombs[k].source, tombs[k].connection, k) {
      assert k in gone ==> OwnerIs(st.owners, st.records[k].source, st.records[k].connection, k);
    }
  }

  lemma RetireKeepsOwnedIds(st: Ledger, dead: map<nat, Record>, wall: int, mono: int)
    requires Retirable(st.records, dead)
    requires IdsOk(st.ids, st.records, st.tombs) && OwnedIdsOk(st.ids, st.records, st.tombs, st.ownedIds)
    ensures OwnedIdsOk(st.ids, st.records - dead.Keys, st.tombs + Buried(dead, wall, mono), st.ownedIds)
  {
    var records, tombs := st.records - dead.Keys, st.tombs + Buried(dead, wall, mono);
    forall k ensures HasStarted(records, tombs, k) <==> HasStarted(st.records, st.tombs, k) {
    }
  }

  lemma RetireKeepsRegistered(registered: seq<Registration>, records: map<nat, Record>, retired: map<nat, Record>,
                              dead: map<nat, Record>)
    requires Retirable(records, dead) && RegisteredOk(registered, records, retired)
    ensures RegisteredOk(registered, records - dead.Keys, retired + dead)
  {
    SizesMove(records, retired, dead);
    DeadAreRegistered(registered, records, dead);
    RegisteredUnion(registered, records, retired, dead);
    hide AllRegistered, SameIdentity;
  }

  lemma RegisteredUnion(registered: seq<Registration>, records: map<nat, Record>, retired: map<nat, Record>,
                        dead: map<nat, Record>)
    requires AllRegistered(registered, records) && AllRegistered(registered, retired) && AllRegistered(registered, dead)
    ensures AllRegistered(registered, records - dead.Keys) && AllRegistered(registered, retired + dead)
  {
    hide RegistrationIs;
  }

  lemma SizesMove(records: map<nat, Record>, retired: map<nat, Record>, dead: map<nat, Record>)
    requires dead.Keys <= records.Keys && records.Keys !! retired.Keys
    ensures |records - dead.Keys| + |retired + dead| == |records| + |retired|
  {
    SizeAfterRemoval(records, dead);
    SizeAfterUnion(retired, dead);
  }

  lemma DeadAreRegistered(registered: seq<Registration>, records: map<nat, Record>, dead: map<nat, Record>)
    requires Retirable(records, dead) && AllRegistered(registered, records)
    ensures AllRegistered(registered, dead)
  {
    forall k | k in dead ensures RegistrationIs(registered, k, dead[k]) {
      assert RegistrationIs(registered, k, records[k]);
    }
  }

  lemma RetireKeepsTombs(tombs: map<nat, Tomb>, records: map<nat, Record>, retired: map<nat, Record>, pruned: bool,
                         dead: map<nat, Record>, wall: int, mono: int)
    requires TombsOk(tombs, retired, pruned) && Retirable(records, dead) && records.Keys !! retired.Keys
    ensures TombsOk(tombs + Buried(dead, wall, mono), retired + dead, pruned)
  {
    hide Bury;
    assert (retired + dead).Keys == retired.Keys + dead.Keys;
    assert (tombs + Buried(dead, wall, mono)).Keys == tombs.Keys + dead.Keys;
  }

  lemma RetireKeepsSize(st: Ledger, dead: map<nat, Record>, wall: int, mono: int)
    requires Retirable(st.records, dead) && st.records.Keys !! st.tombs.Keys
    ensures |st.records - dead.Keys| + |st.tombs + Buried(dead, wall, mono)| == |st.records| + |st.tombs|
  {
    hide Bury;
    SizeAfterRemoval(st.records, dead);
    var buried := Buried(dead, wall, mono);
    assert buried.Keys == dead.Keys;
    SizeOfKeys(buried);
    SizeOfKeys(dead);
    SizeAfterUnion(st.tombs, buried);
  }

  lemma SizeAfterRemoval<V>(m: map<nat, V>, removed: map<nat, V>)
    requires removed.Keys <= m.Keys
    ensures |m - removed.Keys| == |m| - |removed|
  {
    SizeOfKeys(m);
    SizeOfKeys(removed);
    SizeOfKeys(m - removed.Keys);
    assert (m - removed.Keys).Keys == m.Keys - removed.Keys;
  }

  lemma SizeAfterUnion<V>(m: map<nat, V>, n: map<nat, V>)
    requires m.Keys !! n.Keys
    ensures |m + n| == |m| + |n|
  {
    SizeOfKeys(m);
    SizeOfKeys(n);
    SizeOfKeys(m + n);
    assert (m + n).Keys == m.Keys + n.Keys;
  }

  lemma RetireKeepsFrozen(frozen: multiset<CohortKey>, retired: map<nat, Record>, dead: map<nat, Record>)
    requires FrozenOk(frozen, retired) && retired.Keys !! dead.Keys
    ensures FrozenOk(frozen + Total(CohortTallies(dead)), retired + dead)
  {
    hide CohortTallies;
    CohortTalliesOfUnion(retired, dead);
    TotalOfUnion(CohortTallies(retired), CohortTallies(dead));
  }

  lemma RetireKeepsLine(through: Option<int>, retired: map<nat, Record>, dead: map<nat, Record>)
    requires LineOk(through, retired) && retired.Keys !! dead.Keys
    ensures LineOk(LatestStart(dead, through), retired + dead)
  {
    var line := LatestStart(dead, through);
    if line.Some? {
      if line == through {
        var k :| k in retired && retired[k].startedWall == line.value;
        assert k in retired + dead;
      } else {
        var k :| k in dead && line == Some(dead[k].startedWall);
        assert k in retired + dead;
      }
    }
  }

  lemma CohortTalliesOfUnion(a: map<nat, Record>, b: map<nat, Record>)
    requires a.Keys !! b.Keys
    ensures CohortTallies(a + b) == CohortTallies(a) + CohortTallies(b)
    ensures CohortTallies(a).Keys !! CohortTallies(b).Keys
  {
    hide CohortTally;
  }

  // ---- Contributions ----

  lemma ContributionsOfUnion(a: map<nat, Record>, b: map<nat, Record>)
    requires a.Keys !! b.Keys
    ensures Contributions(IncludedOf(a + b)) == Contributions(IncludedOf(a)) + Contributions(IncludedOf(b))
    ensures Contributions(IncludedOf(a)).Keys !! Contributions(IncludedOf(b)).Keys
  {
    hide Contributions, IncludedOf;
    IncludedOfUnion(a, b);
    ContributionsOfSum(IncludedOf(a), IncludedOf(b));
  }

  lemma ContributionsOfSum(a: map<nat, Included>, b: map<nat, Included>)
    requires a.Keys !! b.Keys
    ensures Contributions(a + b) == Contributions(a) + Contributions(b)
    ensures Contributions(a).Keys !! Contributions(b).Keys
  {
    hide Contribution;
  }

  lemma IncludedOfUnion(a: map<nat, Record>, b: map<nat, Record>)
    requires a.Keys !! b.Keys
    ensures IncludedOf(a + b) == IncludedOf(a) + IncludedOf(b)
    ensures IncludedOf(a).Keys !! IncludedOf(b).Keys
  {
  }

  lemma RetireKeepsCumulative(cumulative: multiset<Tally>, retired: map<nat, Record>, dead: map<nat, Record>)
    requires CumulativeOk(cumulative, retired) && retired.Keys !! dead.Keys
    ensures CumulativeOk(cumulative + Total(Contributions(IncludedOf(dead))), retired + dead)
  {
    ContributionsOfUnion(retired, dead);
    hide Contributions, IncludedOf;
    TotalOfUnion(Contributions(IncludedOf(retired)), Contributions(IncludedOf(dead)));
  }

  /** Retirement settles what a record contributes: `dead` counts for as much as the live records did. */
  ghost predicate Settled(records: map<nat, Record>, dead: map<nat, Record>) {
    && dead.Keys <= records.Keys
    && (forall k :: k in dead ==> (dead[k].inclusion == OpenIncluded <==> records[k].inclusion == OpenIncluded))
    && RetiredRecordsOk(dead)
  }

  lemma RetireKeepsChanges(changes: seq<Change>, records: map<nat, Record>, retired: map<nat, Record>,
                           dead: map<nat, Record>)
    requires Settled(records, dead) && ChangesOk(changes, records, retired) && records.Keys !! retired.Keys
    ensures ChangesOk(changes, records - dead.Keys, retired + dead)
  {
    forall k: nat ensures ChangeOk(ActionsOf(changes, k), k, records - dead.Keys, retired + dead) {
      assert ChangeOk(ActionsOf(changes, k), k, records, retired);
    }
  }

  /** The totals with what `dead` contributes. */
  ghost function Count(st: Ledger, dead: map<nat, Record>): Ledger {
    st.(cumulative := st.cumulative + Total(Contributions(IncludedOf(dead))))
  }

  lemma RetireKeeps(st: Ledger, dead: map<nat, Record>, wall: int, mono: int)
    requires Inv(st) && Retirable(st.records, dead) && Settled(st.records, dead)
    ensures Inv(Retire(Count(st, dead), dead, wall, mono))
  {
    Disjoint(st, dead);
    SubsetRecordsOk(st.start, st.frontier, st.records, dead.Keys);
    RetiredRecordsUnion(st.retired, dead);
    hide IdsOk, OwnersOk, OwnedIdsOk, RecordsOk, FrontierOk, RetiredRecordsOk, CumulativeOk, RegisteredOk, TombsOk,
         ChangesOk, FrozenOk, LineOk;
    hide Settled, Retirable;
    RetireKeepsIdentities(st, dead, wall, mono);
    RetireKeepsOwnedIds(st, dead, wall, mono);
    RetireKeepsRegistered(st.registered, st.records, st.retired, dead);
    RetireKeepsTombs(st.tombs, st.records, st.retired, st.identityPruned, dead, wall, mono);
    RetireKeepsFrozen(st.frozen, st.retired, dead);
    RetireKeepsLine(st.frozenThrough, st.retired, dead);
    RetireKeepsSize(st, dead, wall, mono);
    RetireKeepsCumulative(st.cumulative, st.retired, dead);
    RetireKeepsChanges(st.changes, st.records, st.retired, dead);
  }

  lemma Disjoint(st: Ledger, dead: map<nat, Record>)
    requires Inv(st) && dead.Keys <= st.records.Keys
    ensures st.records.Keys !! st.tombs.Keys && st.records.Keys !! st.retired.Keys && st.retired.Keys !! dead.Keys
  {
  }

  lemma RetiredRecordsUnion(retired: map<nat, Record>, dead: map<nat, Record>)
    requires RetiredRecordsOk(retired) && RetiredRecordsOk(dead)
    ensures RetiredRecordsOk(retired + dead)
  {
  }

  lemma SubsetRecordsOk(start: int, frontier: Option<int>, records: map<nat, Record>, gone: set<nat>)
    requires RecordsOk(start, frontier, records)
    ensures RecordsOk(start, frontier, records - gone)
  {
  }

  // ---- The equations of the frozen counters ----

  predicate FrozenBalanced(frozen: multiset<CohortKey>, s: Source) {
    && frozen[ConnectionOf(s, UnboundName)] + frozen[ConnectionOf(s, StartedName)]
       + frozen[ConnectionOf(s, InitFailedName)] == frozen[Invocations(s)]
    && frozen[LifecycleOf(s, AwaitingReport)] + frozen[LifecycleOf(s, InFlight)] + frozen[LifecycleOf(s, Overdue)]
       + frozen[LifecycleOf(s, ReportUnavailable)] + frozen[LifecycleOf(s, Finalized)]
       + frozen[LifecycleOf(s, Conflicting)] + frozen[LifecycleOf(s, ContractMixed)] == frozen[Invocations(s)]
    && frozen[EverOverdue(s)] <= frozen[Invocations(s)] && frozen[EverUnavailable(s)] <= frozen[Invocations(s)]
    && frozen[LateFinish(s)] <= frozen[Invocations(s)]
  }

  function FrozenInvocations(frozen: multiset<CohortKey>): nat {
    frozen[Invocations(Investing)] + frozen[Invocations(Bs)] + frozen[Invocations(Citi)]
  }

  ghost function CohortCount(r: Record, key: CohortKey): nat {
    match key
    case Invocations(s) => One(s == r.source)
    case ConnectionOf(s, name) => One(s == r.source && name == NameOf(r.connection))
    case LifecycleOf(s, l) => One(s == r.source && l == r.lifecycle)
    case EverOverdue(s) => One(s == r.source && r.everOverdue)
    case EverUnavailable(s) => One(s == r.source && r.everUnavailable)
    case LateFinish(s) => One(s == r.source && r.lateFinish)
  }

  lemma CohortTallyCount(r: Record, key: CohortKey)
    ensures CohortTally(r)[key] == CohortCount(r, key)
  {
  }

  /** The dictionary holds, key by key, what the record says. */
  ghost predicate CohortHolds(m: multiset<CohortKey>, r: Record) {
    forall key: CohortKey :: m[key] == CohortCount(r, key)
  }

  lemma CohortTallyHolds(r: Record)
    ensures CohortHolds(CohortTally(r), r)
  {
    hide CohortTally, CohortCount;
    forall key: CohortKey ensures CohortTally(r)[key] == CohortCount(r, key) {
      CohortTallyCount(r, key);
    }
  }

  lemma BalanceOf(m: multiset<CohortKey>, r: Record, s: Source)
    requires CohortHolds(m, r)
    ensures FrozenBalanced(m, s)
  {
    ConnectionBalance(m, r, s);
    LifecycleBalance(m, r, s);
  }

  lemma ConnectionBalance(m: multiset<CohortKey>, r: Record, s: Source)
    requires CohortHolds(m, r)
    ensures m[ConnectionOf(s, UnboundName)] + m[ConnectionOf(s, StartedName)] + m[ConnectionOf(s, InitFailedName)]
            == m[Invocations(s)]
  {
  }

  lemma LifecycleBalance(m: multiset<CohortKey>, r: Record, s: Source)
    requires CohortHolds(m, r)
    ensures m[LifecycleOf(s, AwaitingReport)] + m[LifecycleOf(s, InFlight)] + m[LifecycleOf(s, Overdue)]
            + m[LifecycleOf(s, ReportUnavailable)] + m[LifecycleOf(s, Finalized)]
            + m[LifecycleOf(s, Conflicting)] + m[LifecycleOf(s, ContractMixed)] == m[Invocations(s)]
  {
  }

  lemma Balance(r: Record)
    requires r.source != Unsupported
    ensures forall s: Source :: FrozenBalanced(CohortTally(r), s)
    ensures FrozenInvocations(CohortTally(r)) == 1
  {
    CohortTallyHolds(r);
    hide CohortTally, FrozenBalanced;
    forall s: Source ensures FrozenBalanced(CohortTally(r), s) {
      BalanceOf(CohortTally(r), r, s);
    }
  }

  lemma BalancesAdd(x: multiset<CohortKey>, y: multiset<CohortKey>, s: Source)
    requires FrozenBalanced(x, s) && FrozenBalanced(y, s)
    ensures FrozenBalanced(x + y, s)
  {
  }

  lemma {:induction false} TotalBalances(dead: map<nat, Record>)
    requires forall k :: k in dead ==> dead[k].source != Unsupported
    ensures forall s: Source :: FrozenBalanced(Total(CohortTallies(dead)), s)
    ensures FrozenInvocations(Total(CohortTallies(dead))) == |dead|
    decreases |dead|
  {
    hide CohortTally, FrozenBalanced;
    if dead == map[] {
      assert CohortTallies(dead) == map[];
      EmptyBalances();
    } else {
      var k :| k in dead;
      TotalBalances(dead - {k});
      TotalTakesAnyKey(CohortTallies(dead), k);
      assert CohortTallies(dead) - {k} == CohortTallies(dead - {k});
      Balance(dead[k]);
      hide CohortTallies, Total;
      AllBalancesAdd(CohortTally(dead[k]), Total(CohortTallies(dead - {k})));
      SizeWithout(dead, k);
    }
  }

  lemma AllBalancesAdd(x: multiset<CohortKey>, y: multiset<CohortKey>)
    requires forall s: Source :: FrozenBalanced(x, s)
    requires forall s: Source :: FrozenBalanced(y, s)
    ensures forall s: Source :: FrozenBalanced(x + y, s)
    ensures FrozenInvocations(x + y) == FrozenInvocations(x) + FrozenInvocations(y)
  {
    forall s: Source ensures FrozenBalanced(x + y, s) {
      BalancesAdd(x, y, s);
    }
    hide FrozenBalanced;
  }

  lemma EmptyBalances()
    ensures forall s: Source :: FrozenBalanced(multiset{}, s)
  {
  }

  lemma SizeWithout<K, V>(m: map<K, V>, k: K)
    requires k in m
    ensures |m - {k}| == |m| - 1
  {
    assert (m - {k}).Keys == m.Keys - {k};
    SizeOfKeys(m - {k});
    SizeOfKeys(m);
  }

  // ---- Closing buckets ----

  lemma ClosingSettled(start: int, frontier: Option<int>, records: map<nat, Record>, target: int)
    requires RecordsOk(start, frontier, records)
    ensures Retirable(records, Closing(records, target))
    ensures Settled(records, Closing(records, target))
  {
    assert forall k :: k in records ==> RecordOk(start, frontier, records[k]);
  }

  /** What stays open lies beyond the new frontier. */
  lemma ClosingLeavesLater(start: int, frontier: Option<int>, records: map<nat, Record>, target: int)
    requires RecordsOk(start, frontier, records)
    ensures RecordsOk(start, Some(target), records - Closing(records, target).Keys)
  {
    assert forall k :: k in records ==> RecordOk(start, frontier, records[k]);
  }

  lemma TargetIsWholeMinute(records: map<nat, Record>, wall: int, mono: int)
    ensures CloseTarget(records, wall, mono) % MINUTE == 0
    ensures CloseTarget(records, wall, mono) <= FloorMinute(wall - GRACE)
    ensures forall k :: k in records && HeldBack(records[k], FloorMinute(wall - GRACE), mono) ==>
              CloseTarget(records, wall, mono) <= BucketEnd(records[k].finish.value.wall) - MINUTE
  {
    var limit := FloorMinute(wall - GRACE);
    var ends := set k | k in records && HeldBack(records[k], limit, mono) ::
                  BucketEnd(records[k].finish.value.wall) - MINUTE;
    forall x | x in ends ensures x % MINUTE == 0 {
    }
    forall k | k in records && HeldBack(records[k], limit, mono)
      ensures BucketEnd(records[k].finish.value.wall) - MINUTE in ends
    {
    }
  }

  lemma CloseBucketsKeeps(st: Ledger, wall: int, mono: int)
    requires Inv(st)
    ensures Inv(CloseBuckets(st, wall, mono))
  {
    var target := CloseTarget(st.records, wall, mono);
    if target > PreviousEnd(st.start, st.frontier) {
      var closing := Closing(st.records, target);
      ClosingSettled(st.start, st.frontier, st.records, target);
      RetireKeeps(st, closing, wall, mono);
      ClosingLeavesLater(st.start, st.frontier, st.records, target);
      TargetIsWholeMinute(st.records, wall, mono);
      MoveFrontier(Retire(Count(st, closing), closing, wall, mono), target);
    }
  }

  lemma MoveFrontier(st: Ledger, target: int)
    requires Inv(st) && RecordsOk(st.start, Some(target), st.records) && FrontierOk(st.start, Some(target))
    ensures Inv(st.(frontier := Some(target)))
  {
    hide IdsOk, OwnersOk, OwnedIdsOk, RecordsOk, FrontierOk, RetiredRecordsOk, CumulativeOk, RegisteredOk, TombsOk,
         ChangesOk, FrozenOk, LineOk;
  }

  // ---- The rest of an advance ----

  lemma MarkOverduesKeeps(st: Ledger, mono: int)
    requires Inv(st)
    ensures Inv(MarkOverdues(st, mono))
  {
    MarkingIsOk(st.start, st.frontier, st.records, mono);
    ReplaceKeeps(st, MarkOverdues(st, mono).records);
  }

  lemma MarkingIsOk(start: int, frontier: Option<int>, records: map<nat, Record>, mono: int)
    requires RecordsOk(start, frontier, records)
    ensures var now := map k | k in records :: MarkOverdue(records[k], mono);
            Replaces(records, now) && RecordsOk(start, frontier, now)
  {
    forall k | k in records ensures RecordOk(start, frontier, MarkOverdue(records[k], mono)) {
      assert RecordOk(start, frontier, records[k]);
    }
  }

  lemma StampKeeps(st: Ledger, wall: int, mono: int)
    requires Inv(st)
    ensures Inv(Stamp(st, wall, mono))
  {
    hide IdsOk, OwnersOk, OwnedIdsOk, RecordsOk, FrontierOk, RetiredRecordsOk, CumulativeOk, RegisteredOk, TombsOk,
         ChangesOk, FrozenOk, LineOk;
  }

  ghost function Expiring(records: map<nat, Record>, wall: int, mono: int): map<nat, Record> {
    map k | k in records && Expirable(records[k], wall, mono) :: Expired(records[k])
  }

  lemma ExpiringSettled(start: int, frontier: Option<int>, records: map<nat, Record>, wall: int, mono: int)
    requires RecordsOk(start, frontier, records)
    ensures Retirable(records, Expiring(records, wall, mono))
    ensures Settled(records, Expiring(records, wall, mono)) && IncludedOf(Expiring(records, wall, mono)) == map[]
  {
    assert forall k :: k in records ==> RecordOk(start, frontier, records[k]);
  }

  lemma CountNothing(st: Ledger, dead: map<nat, Record>)
    requires IncludedOf(dead) == map[]
    ensures Count(st, dead) == st
  {
    assert Contributions(map[]) == map[];
  }

  lemma ExpireUnfinishedKeeps(st: Ledger, wall: int, mono: int)
    requires Inv(st)
    ensures Inv(ExpireUnfinished(st, wall, mono))
  {
    var expiring := Expiring(st.records, wall, mono);
    ExpiringSettled(st.start, st.frontier, st.records, wall, mono);
    CountNothing(st, expiring);
    RetireKeeps(st, expiring, wall, mono);
  }

  lemma PruneKeepsIdentities(st: Ledger, gone: set<nat>)
    requires IdsOk(st.ids, st.records, st.tombs) && gone <= st.tombs.Keys
    ensures IdsOk(Prune(st, gone).ids, st.records, st.tombs - gone)
  {
  }

  lemma PruneKeepsOwners(st: Ledger, gone: set<nat>)
    requires OwnersOk(st.records, st.tombs, st.owners) && gone <= st.tombs.Keys && st.records.Keys !! st.tombs.Keys
    ensures OwnersOk(st.records, st.tombs - gone, Prune(st, gone).owners)
  {
  }

  lemma PruneKeepsOwnedIds(st: Ledger, gone: set<nat>)
    requires IdsOk(st.ids, st.records, st.tombs) && OwnedIdsOk(st.ids, st.records, st.tombs, st.ownedIds)
    requires gone <= st.tombs.Keys
    ensures OwnedIdsOk(Prune(st, gone).ids, st.records, st.tombs - gone, Prune(st, gone).ownedIds)
  {
  }

  lemma PruneKeepsTombs(st: Ledger, gone: set<nat>)
    requires TombsOk(st.tombs, st.retired, st.identityPruned) && gone <= st.tombs.Keys
    ensures TombsOk(st.tombs - gone, st.retired, Prune(st, gone).identityPruned)
    ensures |st.tombs - gone| <= |st.tombs|
  {
    SizeOfKeys(st.tombs);
    SizeOfKeys(st.tombs - gone);
    assert (st.tombs - gone).Keys == st.tombs.Keys - gone;
    if gone != {} {
      var k :| k in gone;
      assert k in st.retired && k !in st.tombs - gone;
    }
  }

  lemma PruneKeeps(st: Ledger, gone: set<nat>)
    requires Inv(st) && gone <= st.tombs.Keys
    ensures Inv(Prune(st, gone))
  {
    Disjoint(st, map[]);
    hide IdsOk, OwnersOk, OwnedIdsOk, RecordsOk, FrontierOk, RetiredRecordsOk, CumulativeOk, RegisteredOk, TombsOk,
         ChangesOk, FrozenOk, LineOk;
    PruneKeepsIdentities(st, gone);
    PruneKeepsOwners(st, gone);
    PruneKeepsOwnedIds(st, gone);
    PruneKeepsTombs(st, gone);
  }

  lemma PruneTombsKeeps(st: Ledger, wall: int, mono: int)
    requires Inv(st)
    ensures Inv(PruneTombs(st, wall, mono))
  {
    PruneKeeps(st, Prunables(st.tombs, wall, mono));
  }

  lemma AdvanceKeeps(st: Ledger, wall: int, mono: int)
    requires Inv(st)
    ensures Inv(Advance(st, wall, mono))
  {
    hide Inv;
    CloseBucketsKeeps(st, wall, mono);
    var a := CloseBuckets(st, wall, mono);
    StampKeeps(a, wall, mono);
    var b := Stamp(a, wall, mono);
    MarkOverduesKeeps(b, mono);
    var c := MarkOverdues(b, mono);
    ExpireUnfinishedKeeps(c, wall, mono);
    PruneTombsKeeps(ExpireUnfinished(c, wall, mono), wall, mono);
  }
}
