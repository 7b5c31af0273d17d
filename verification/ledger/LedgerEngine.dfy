/** The loops of the round ledger over its indexes: each visits the entries that its index says are due, in whatever
    order, and is proved to do what the plain scan in LedgerSpec.dfy does. */
module LedgerEngine {
  import opened Wrappers
  import opened Totals
  import opened Axes
  import opened LedgerState
  import opened LedgerSpec
  import opened LedgerInvariant
  import opened LedgerAdvance
  import opened LedgerSafety
  import opened LedgerIndexes
  import LedgerTime

  // ---- Retiring one record ----

  method DropOpen(ix: Indexes, k: nat, b: int, ghost open: map<nat, int>) returns (now: Indexes)
    requires OpenOk(open, ix.openSeq, ix.buckets) && k in open && open[k] == b
    ensures OpenOk(open - {k}, now.openSeq, now.buckets)
    ensures now == ix.(openSeq := now.openSeq, buckets := now.buckets)
  {
    var openSeq := RemoveSorted(ix.openSeq, k);
    var buckets := DropFromBucket(ix.buckets, b, k, open);
    now := ix.(openSeq := openSeq, buckets := buckets);
  }

  /** Takes a record out of every index of the live records. */
  method Unlist(records: map<nat, Record>, ix: Indexes, k: nat) returns (now: Indexes)
    requires DeadlinesOk(records, ix.close, ix.overdue, ix.expiry) && k in records
    requires OpenOk(Open(records), ix.openSeq, ix.buckets) && CohortsOk(records, ix.cohorts)
    ensures DeadlinesOk(records - {k}, now.close, now.overdue, now.expiry)
    ensures OpenOk(Open(records - {k}), now.openSeq, now.buckets) && CohortsOk(records - {k}, now.cohorts)
    ensures now.prune == ix.prune && now.nLive == ix.nLive && now.nTomb == ix.nTomb && now.nRes == ix.nRes
  {
    hide DeadlinesOk, OpenOk, CohortsOk;
    DeadlinesDrop(records, k, ix.close, ix.overdue, ix.expiry);
    RetireOneCohorts(records, ix.cohorts, k);
    ScanDrop(records, k, BucketKey);
    var r := records[k];
    now := ix;
    if r.inclusion == OpenIncluded && r.finish.Some? {
      now := DropOpen(now, k, FloorMinute(r.finish.value.wall), Open(records));
    } else {
      NotOpen(records, k);
    }
    now := now.(close := ix.close - {k}, overdue := ix.overdue - {k}, expiry := ix.expiry - {k},
                cohorts := ix.cohorts - {(r.source, r.startedWall, k)});
  }

  /** A live record leaves as `last`. */
  method RetireOne(st: Ledger, ix: Indexes, k: nat, last: Record, wall: int, mono: int)
    returns (now: Ledger, nowIx: Indexes)
    requires Agree(st, ix) && k in st.records
    ensures now == Retire(st, map[k := last], wall, mono) && Agree(now, nowIx)
  {
    hide DeadlinesOk, OpenOk, CohortsOk, PruneOk, CountsOk, Bury, CohortTally, Open, Retire;
    RetireOneForm(st, k, last, wall, mono);
    var tomb := Bury(last, wall, mono);
    PrunePut(st.tombs, ix.prune, k, tomb);
    MoveOne(st.records, st.tombs, ix.nLive, ix.nTomb, ix.nRes, k, tomb);
    nowIx := Unlist(st.records, ix, k);
    nowIx := nowIx.(nLive := ix.nLive - 1, nTomb := ix.nTomb + 1, prune := ix.prune[k := tomb.retireAt + LATE_WINDOW]);
    now := st.(records := st.records - {k}, tombs := st.tombs[k := tomb], retired := st.retired[k := last],
               frozen := st.frozen + CohortTally(last),
               frozenThrough := if st.frozenThrough.Some? && last.startedWall <= st.frozenThrough.value
                                then st.frozenThrough else Some(last.startedWall));
  }

  // ---- Retiring a list ----

  predicate Distinct(s: seq<nat>) { forall i, j :: 0 <= i < j < |s| ==> s[i] != s[j] }

  /** What the records of a list are at their retirement. */
  ghost function Among(records: map<nat, Record>, list: seq<nat>, last: Record -> Record): map<nat, Record> {
    map k | k in list && k in records :: last(records[k])
  }

  lemma AmongOneMore(records: map<nat, Record>, list: seq<nat>, i: nat, last: Record -> Record)
    requires i < |list| && list[i] in records && Distinct(list)
    ensures list[i] !in Among(records, list[..i], last)
    ensures Among(records, list[..i + 1], last) == Among(records, list[..i], last)[list[i] := last(records[list[i]])]
  {
    assert forall k :: k in list[..i + 1] <==> k in list[..i] || k == list[i];
    assert forall j :: 0 <= j < i ==> list[..i][j] == list[j];
  }

  method RetireAll(st: Ledger, ix: Indexes, list: seq<nat>, last: Record -> Record, wall: int, mono: int)
    returns (now: Ledger, nowIx: Indexes)
    requires Agree(st, ix) && Distinct(list) && forall k :: k in list ==> k in st.records
    ensures now == Retire(st, Among(st.records, list, last), wall, mono) && Agree(now, nowIx)
  {
    hide Agree, Retire, Bury;
    now, nowIx := st, ix;
    RetireNothing(st, wall, mono);
    assert Among(st.records, list[..0], last) == map[];
    for i := 0 to |list|
      invariant now == Retire(st, Among(st.records, list[..i], last), wall, mono) && Agree(now, nowIx)
    {
      var k := list[i];
      AmongOneMore(st.records, list, i, last);
      RetireLeaves(st, Among(st.records, list[..i], last), wall, mono);
      assert now.records[k] == st.records[k];
      RetireOneMore(st, Among(st.records, list[..i], last), k, last(st.records[k]), wall, mono);
      now, nowIx := RetireOne(now, nowIx, k, last(now.records[k]), wall, mono);
    }
    assert list[..|list|] == list;
  }

  // ---- Closing ----

  /** The least member is unique. */
  lemma LeastIs(s: set<int>, d: int, m: int)
    requires m <= d && (forall x :: x in s ==> m <= x) && (m == d || m in s)
    ensures Least(s, d) == m
  {
  }

  ghost function Ends(records: map<nat, Record>, limit: int, mono: int): set<int> {
    set k | k in records && HeldBack(records[k], limit, mono) :: BucketEnd(records[k].finish.value.wall) - MINUTE
  }

  method FindTarget(records: map<nat, Record>, close: map<nat, int>, wall: int, mono: int) returns (target: int)
    requires close == Scan(records, CloseKey)
    ensures target == CloseTarget(records, wall, mono)
    ensures forall k :: k in records && records[k].finish.Some? ==>
              (LedgerTime.NextMinute(records[k].finish.value) <= target
               <==> LedgerTime.MayClose(records, records[k].finish.value, wall, mono))
  {
    var limit := FloorMinute(wall - GRACE);
    target := limit;
    var due := DueList(close, limit);
    assert forall k :: k in due ==> k in records && records[k].finish.Some?
                                    && close[k] == BucketEnd(records[k].finish.value.wall);
    assert forall j :: 0 <= j < |due| ==> due[j] in due;
    for i := 0 to |due|
      invariant target <= limit && (target == limit || target in Ends(records, limit, mono))
      invariant forall j :: 0 <= j < i && mono < RetireMono(records[due[j]]) ==> target <= close[due[j]] - MINUTE
    {
      var k := due[i];
      if mono < RetireMono(records[k]) && close[k] - MINUTE < target {
        target := close[k] - MINUTE;
        assert HeldBack(records[k], limit, mono);
      }
    }
    forall x | x in Ends(records, limit, mono) ensures target <= x {
      var k :| k in records && HeldBack(records[k], limit, mono)
               && x == BucketEnd(records[k].finish.value.wall) - MINUTE;
      assert k in due;
    }
    LeastIs(Ends(records, limit, mono), limit, target);
    forall k | k in records && records[k].finish.Some?
      ensures LedgerTime.NextMinute(records[k].finish.value) <= target
              <==> LedgerTime.MayClose(records, records[k].finish.value, wall, mono)
    {
      TargetSaysWhen(records, k, wall, mono);
    }
  }

  lemma TargetSaysWhen(records: map<nat, Record>, k: nat, wall: int, mono: int)
    requires k in records && records[k].finish.Some?
    ensures LedgerTime.NextMinute(records[k].finish.value) <= CloseTarget(records, wall, mono)
            <==> LedgerTime.MayClose(records, records[k].finish.value, wall, mono)
  {
    hide CloseTarget, LedgerTime.MayClose, BucketEnd, LedgerTime.NextMinute, LedgerTime.ClosingWall;
    LedgerTime.TargetReaches(records, records[k].finish.value, wall, mono);
    LedgerTime.SameMinute(records[k].finish.value);
  }

  method SumIncluded(records: map<nat, Record>, list: seq<nat>) returns (sum: multiset<Tally>)
    requires Distinct(list) && forall k :: k in list ==> k in records
    ensures sum == Total(Contributions(IncludedOf(Among(records, list, r => r))))
  {
    hide Contribution;
    sum := multiset{};
    assert Contributions(IncludedOf(Among(records, list[..0], r => r))) == map[];
    for i := 0 to |list|
      invariant sum == Total(Contributions(IncludedOf(Among(records, list[..i], r => r))))
    {
      var r := records[list[i]];
      OneMoreIncluded(records, list, i);
      if r.inclusion == OpenIncluded && r.detail.Some? {
        sum := AddRound(sum, r.source, r.detail.value);
      }
    }
    assert list[..|list|] == list;
  }

  lemma OneMoreIncluded(records: map<nat, Record>, list: seq<nat>, i: nat)
    requires i < |list| && list[i] in records && Distinct(list)
    ensures var r := records[list[i]];
            Total(Contributions(IncludedOf(Among(records, list[..i + 1], r => r))))
            == Total(Contributions(IncludedOf(Among(records, list[..i], r => r))))
               + (if r.inclusion == OpenIncluded && r.detail.Some? then Contribution(r.source, r.detail.value)
                  else multiset{})
  {
    var r := records[list[i]];
    var before := Among(records, list[..i], r => r);
    AmongOneMore(records, list, i, r => r);
    IncludedPut(before, list[i], r);
    if r.inclusion == OpenIncluded && r.detail.Some? {
      ContributionsPut(IncludedOf(before), list[i], Included(r.source, r.detail.value));
      TotalAdds(Contributions(IncludedOf(before)), list[i], Contribution(r.source, r.detail.value));
    }
    hide Contributions, IncludedOf, Among;
  }

  lemma IncludedPut(records: map<nat, Record>, k: nat, r: Record)
    requires k !in records
    ensures IncludedOf(records[k := r]) ==
            if r.inclusion == OpenIncluded && r.detail.Some?
            then IncludedOf(records)[k := Included(r.source, r.detail.value)]
            else IncludedOf(records)
    ensures k !in IncludedOf(records)
  {
  }

  lemma ContributionsPut(m: map<nat, Included>, k: nat, v: Included)
    requires k !in m
    ensures Contributions(m[k := v]) == Contributions(m)[k := Contribution(v.source, v.detail)]
    ensures k !in Contributions(m)
  {
    hide Contribution;
  }

  lemma DueIsClosing(records: map<nat, Record>, close: map<nat, int>, due: seq<nat>, target: int)
    requires close == Scan(records, CloseKey) && forall k :: k in due <==> k in close && close[k] <= target
    ensures Among(records, due, r => r) == Closing(records, target)
    ensures forall k :: k in due ==> k in records
  {
  }

  method CloseDue(st: Ledger, ix: Indexes, wall: int, mono: int) returns (now: Ledger, nowIx: Indexes)
    requires Agree(st, ix)
    ensures now == CloseBuckets(st, wall, mono) && Agree(now, nowIx)
  {
    hide CloseTarget, Retire, Closing, IncludedOf, Contributions, Total, Open, OpenOk, CohortsOk, CountsOk, PruneOk,
         Among;
    now, nowIx := st, ix;
    var target := FindTarget(st.records, ix.close, wall, mono);
    if target > PreviousEnd(st.start, st.frontier) {
      var due := DueList(ix.close, target);
      DueIsClosing(st.records, ix.close, due, target);
      var sum := SumIncluded(st.records, due);
      now := st.(cumulative := st.cumulative + sum, frontier := Some(target));
      now, nowIx := RetireAll(now, nowIx, due, r => r, wall, mono);
    }
  }

  // ---- Marking overdue ----

  ghost function MarkedAmong(records: map<nat, Record>, list: seq<nat>, mono: int): map<nat, Record> {
    map k | k in records :: if k in list then MarkOverdue(records[k], mono) else records[k]
  }

  lemma MarkedOneMore(records: map<nat, Record>, list: seq<nat>, i: nat, mono: int)
    requires i < |list| && list[i] in records && Distinct(list)
    ensures var k := list[i];
            && MarkedAmong(records, list[..i], mono)[k] == records[k]
            && MarkedAmong(records, list[..i + 1], mono)
               == MarkedAmong(records, list[..i], mono)[k := MarkOverdue(records[k], mono)]
  {
    assert forall k :: k in list[..i + 1] <==> k in list[..i] || k == list[i];
    assert forall j :: 0 <= j < i ==> list[..i][j] == list[j];
  }

  /** Whoever is not on the list is not overdue. */
  lemma MarkedAll(records: map<nat, Record>, overdue: map<nat, int>, due: seq<nat>, mono: int)
    requires overdue == Scan(records, OverdueKey) && forall k :: k in due <==> k in overdue && overdue[k] <= mono
    ensures MarkedAmong(records, due, mono) == map k | k in records :: MarkOverdue(records[k], mono)
    ensures forall k :: k in due ==> k in records && OverdueBy(records[k], mono)
  {
  }

  lemma MarkKeepsKeys(r: Record, mono: int)
    requires OverdueBy(r, mono)
    ensures var s := MarkOverdue(r, mono);
            && OverdueKey(s).None? && CloseKey(s) == CloseKey(r) && ExpiryKey(s) == ExpiryKey(r)
            && BucketKey(s) == BucketKey(r) && s.source == r.source && s.startedWall == r.startedWall
  {
  }

  /** Replacing a record whose index entries stay as they are, except perhaps its overdue deadline. */
  method StoreQuiet(st: Ledger, ix: Indexes, k: nat, r: Record) returns (now: Ledger, nowIx: Indexes)
    requires Agree(st, ix) && k in st.records
    requires var q := st.records[k];
             && CloseKey(r) == CloseKey(q) && ExpiryKey(r) == ExpiryKey(q) && BucketKey(r) == BucketKey(q)
             && (OverdueKey(r) == OverdueKey(q) || OverdueKey(r).None?)
             && r.source == q.source && r.startedWall == q.startedWall
    ensures now == st.(records := st.records[k := r]) && Agree(now, nowIx)
  {
    hide CloseKey, ExpiryKey, BucketKey, OverdueKey, OpenOk, PruneOk;
    ScanSame(st.records, k, r, CloseKey);
    ScanSame(st.records, k, r, ExpiryKey);
    ScanSame(st.records, k, r, BucketKey);
    ScanPut(st.records, k, r, OverdueKey);
    CohortsPut(st.records, ix.cohorts, k, r);
    CountsPut(st.records, st.tombs, ix, k, r);
    hide CohortsOk, CountsOk;
    now := st.(records := st.records[k := r]);
    nowIx := ix;
    if OverdueKey(r).None? {
      nowIx := ix.(overdue := ix.overdue - {k});
    } else {
      ScanSame(st.records, k, r, OverdueKey);
    }
  }

  method MarkDue(st: Ledger, ix: Indexes, mono: int) returns (now: Ledger, nowIx: Indexes)
    requires Agree(st, ix)
    ensures now == MarkOverdues(st, mono) && Agree(now, nowIx)
  {
    hide OverdueBy, MarkOverdue, CloseKey, ExpiryKey, BucketKey, OverdueKey, PruneOk, OpenOk, CohortsOk, CountsOk;
    var due := DueList(ix.overdue, mono);
    MarkedAll(st.records, ix.overdue, due, mono);
    hide DeadlinesOk, Agree;
    now, nowIx := st, ix;
    assert MarkedAmong(st.records, due[..0], mono) == st.records;
    for i := 0 to |due|
      invariant now == st.(records := MarkedAmong(st.records, due[..i], mono)) && Agree(now, nowIx)
    {
      var k := due[i];
      MarkedOneMore(st.records, due, i, mono);
      MarkKeepsKeys(st.records[k], mono);
      now, nowIx := StoreQuiet(now, nowIx, k, MarkOverdue(now.records[k], mono));
    }
    assert due[..|due|] == due;
  }

  // ---- Expiring ----

  method ExpireDue(st: Ledger, ix: Indexes, wall: int, mono: int) returns (now: Ledger, nowIx: Indexes)
    requires Agree(st, ix)
    ensures now == ExpireUnfinished(st, wall, mono) && Agree(now, nowIx)
  {
    hide Retire, PruneOk, OpenOk, CohortsOk, CountsOk, Expired, Among, Expirable;
    var due := DueList(ix.expiry, wall);
    ExpiryIsDue(st.records, ix.expiry, due, wall);
    var list := [];
    for i := 0 to |due|
      invariant Distinct(list) && forall k ::
                  k in list <==> k in due[..i] && mono >= st.records[k].startedMono + UNFINISHED_EXPIRY
    {
      var k := due[i];
      assert due[..i + 1] == due[..i] + [k];
      if mono >= st.records[k].startedMono + UNFINISHED_EXPIRY {
        assert forall j :: 0 <= j < i ==> due[..i][j] == due[j];
        list := list + [k];
      }
    }
    assert due[..|due|] == due;
    ListIsExpiring(st.records, due, list, wall, mono);
    now, nowIx := RetireAll(st, ix, list, Expired, wall, mono);
  }

  lemma ExpiryIsDue(records: map<nat, Record>, expiry: map<nat, int>, due: seq<nat>, wall: int)
    requires expiry == Scan(records, ExpiryKey) && forall k :: k in due <==> k in expiry && expiry[k] <= wall
    ensures forall k :: k in due <==>
              k in records && records[k].finish.None? && wall >= records[k].startedWall + UNFINISHED_EXPIRY
  {
  }

  lemma ListIsExpiring(records: map<nat, Record>, due: seq<nat>, list: seq<nat>, wall: int, mono: int)
    requires forall k :: k in due <==>
               k in records && records[k].finish.None? && wall >= records[k].startedWall + UNFINISHED_EXPIRY
    requires forall k :: k in list <==> k in due && mono >= records[k].startedMono + UNFINISHED_EXPIRY
    ensures Among(records, list, Expired) == Expiring(records, wall, mono)
    ensures forall k :: k in list ==> k in records
  {
    hide Expired;
  }

  // ---- Pruning ----

  method PruneOne(st: Ledger, ix: Indexes, k: nat) returns (now: Ledger, nowIx: Indexes)
    requires Inv(st) && Agree(st, ix) && k in st.tombs
    ensures now == Prune(st, {k}) && Agree(now, nowIx)
  {
    hide Inv, Prune, Agree;
    PruneOneOf(st, k);
    PruneOneAgrees(st, ix, k);
    var t := st.tombs[k];
    nowIx := ix.(prune := ix.prune - {k}, nTomb := ix.nTomb - 1, nRes := ix.nRes - 1);
    now := st.(tombs := st.tombs - {k}, ids := st.ids - {t.id}, identityPruned := true,
               owners := if t.connection.Started? then st.owners - {(t.source, t.connection.round)} else st.owners,
               ownedIds := if t.connection.Started? then st.ownedIds - {t.id} else st.ownedIds);
  }

  lemma PruneOneAgrees(st: Ledger, ix: Indexes, k: nat)
    requires Agree(st, ix) && k in st.tombs
    ensures ix.nTomb > 0 && ix.nRes > 0
    ensures Agree(Prune(st, {k}), ix.(prune := ix.prune - {k}, nTomb := ix.nTomb - 1, nRes := ix.nRes - 1))
  {
    hide DeadlinesOk, OpenOk, CohortsOk, CountsOk, PruneOk;
    UncountTomb(st.records, st.tombs, ix, k);
    PruneFields(st, k);
    hide Prune;
  }

  lemma PruneFields(st: Ledger, k: nat)
    ensures Prune(st, {k}).tombs == st.tombs - {k} && Prune(st, {k}).records == st.records
  {
  }

  lemma PruneOneOf(st: Ledger, k: nat)
    requires Inv(st) && k in st.tombs
    ensures var t := st.tombs[k];
            Prune(st, {k}) ==
            st.(tombs := st.tombs - {k}, ids := st.ids - {t.id},
                owners := if t.connection.Started? then st.owners - {(t.source, t.connection.round)} else st.owners,
                ownedIds := if t.connection.Started? then st.ownedIds - {t.id} else st.ownedIds,
                identityPruned := true)
  {
    hide IdsOk, OwnersOk, OwnedIdsOk, RecordsOk, CumulativeOk, RegisteredOk, TombsOk, ChangesOk, FrozenOk, LineOk,
         Prune;
    PruneOneForm(st, k);
  }

  lemma UncountTomb(records: map<nat, Record>, tombs: map<nat, Tomb>, ix: Indexes, k: nat)
    requires CountsOk(records, tombs, ix.nLive, ix.nTomb, ix.nRes) && PruneOk(tombs, ix.prune) && k in tombs
    ensures ix.nTomb > 0 && ix.nRes > 0 && CountsOk(records, tombs - {k}, ix.nLive, ix.nTomb - 1, ix.nRes - 1)
    ensures PruneOk(tombs - {k}, ix.prune - {k})
  {
    ScanDrop(tombs, k, PruneKey);
    SizeWithout(tombs, k);
  }

  ghost function Gone(tombs: map<nat, Tomb>, list: seq<nat>, wall: int, mono: int): set<nat> {
    set k | k in list && k in tombs && Prunable(tombs[k], wall, mono)
  }

  lemma GoneOneMore(tombs: map<nat, Tomb>, list: seq<nat>, i: nat, wall: int, mono: int)
    requires i < |list| && list[i] in tombs && Distinct(list)
    ensures list[i] !in Gone(tombs, list[..i], wall, mono)
    ensures Gone(tombs, list[..i + 1], wall, mono)
            == if Prunable(tombs[list[i]], wall, mono) then Gone(tombs, list[..i], wall, mono) + {list[i]}
               else Gone(tombs, list[..i], wall, mono)
  {
    hide Prunable;
    assert forall k :: k in list[..i + 1] <==> k in list[..i] || k == list[i];
    assert forall j :: 0 <= j < i ==> list[..i][j] == list[j];
  }

  lemma DueIsPrunable(st: Ledger, prune: map<nat, int>, due: seq<nat>, wall: int, mono: int)
    requires PruneOk(st.tombs, prune) && forall k :: k in due <==> k in prune && prune[k] <= wall
    ensures Prune(st, Gone(st.tombs, due, wall, mono)) == PruneTombs(st, wall, mono)
    ensures forall k :: k in due ==>
              k in st.tombs && (Prunable(st.tombs[k], wall, mono) <==> mono >= st.tombs[k].retireMono + LATE_WINDOW)
  {
    hide Prune;
    assert Gone(st.tombs, due, wall, mono) == Prunables(st.tombs, wall, mono);
  }

  method PruneDue(st: Ledger, ix: Indexes, wall: int, mono: int) returns (now: Ledger, nowIx: Indexes)
    requires Inv(st) && Agree(st, ix)
    ensures now == PruneTombs(st, wall, mono) && Agree(now, nowIx)
  {
    hide Inv, Prune, DeadlinesOk, OpenOk, CohortsOk, CountsOk, Gone, PruneOk, Prunable;
    var due := DueList(ix.prune, wall);
    DueIsPrunable(st, ix.prune, due, wall, mono);
    hide Agree, PruneTombs;
    now, nowIx := st, ix;
    PruneNothing(st);
    NobodyGone(st.tombs, due, wall, mono);
    for i := 0 to |due|
      invariant now == Prune(st, Gone(st.tombs, due[..i], wall, mono)) && Agree(now, nowIx) && Inv(now)
    {
      var k := due[i];
      GoneOneMore(st.tombs, due, i, wall, mono);
      StillThere(st, Gone(st.tombs, due[..i], wall, mono), k);
      if mono >= now.tombs[k].retireMono + LATE_WINDOW {
        PruneOneMore(st, Gone(st.tombs, due[..i], wall, mono), k);
        PruneKeeps(now, {k});
        now, nowIx := PruneOne(now, nowIx, k);
      }
    }
    assert due[..|due|] == due;
  }

  lemma NobodyGone(tombs: map<nat, Tomb>, list: seq<nat>, wall: int, mono: int)
    ensures Gone(tombs, list[..0], wall, mono) == {}
  {
  }

  lemma StillThere(st: Ledger, gone: set<nat>, k: nat)
    requires k in st.tombs && k !in gone
    ensures k in Prune(st, gone).tombs && Prune(st, gone).tombs[k] == st.tombs[k]
  {
  }

  // ---- The advance ----

  lemma ClockKeepsAgreement(st: Ledger, ix: Indexes, wall: int, mono: int)
    requires Agree(st, ix)
    ensures Agree(Stamp(st, wall, mono), ix)
  {
  }

  method AdvanceAndClose(st: Ledger, ix: Indexes, wall: int, mono: int) returns (now: Ledger, nowIx: Indexes)
    requires Inv(st) && Agree(st, ix)
    ensures now == Advance(st, wall, mono) && Agree(now, nowIx) && Inv(now)
  {
    hide Inv, Agree, CloseBuckets, MarkOverdues, ExpireUnfinished, PruneTombs;
    now, nowIx := CloseDue(st, ix, wall, mono);
    CloseBucketsKeeps(st, wall, mono);
    StampKeeps(now, wall, mono);
    ClockKeepsAgreement(now, nowIx, wall, mono);
    now := Stamp(now, wall, mono);
    MarkOverduesKeeps(now, mono);
    now, nowIx := MarkDue(now, nowIx, mono);
    ExpireUnfinishedKeeps(now, wall, mono);
    now, nowIx := ExpireDue(now, nowIx, wall, mono);
    PruneTombsKeeps(now, wall, mono);
    now, nowIx := PruneDue(now, nowIx, wall, mono);
  }
}
