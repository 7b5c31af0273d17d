/** The hand-kept indexes of the ledger, each stated as a plain scan over the records, and what one update does to it.
    A deadline index is used here by the contract that DeadlineIndex.dfy proves of the tree. */
module LedgerIndexes {
  import opened Wrappers
  import opened Totals
  import opened Axes
  import opened LedgerState
  import opened LedgerSpec
  import opened LedgerInvariant
  import opened LedgerAdvance
  import opened LedgerSafety
  import DeadlineIndexes

  // ---- Scans ----

  /** The keys that a scan finds, for those entries that have one. */
  ghost function Scan<T>(m: map<nat, T>, key: T -> Option<int>): map<nat, int> {
    map k | k in m && key(m[k]).Some? :: key(m[k]).value
  }

  function CloseKey(r: Record): Option<int> {
    if r.finish.Some? then Some(BucketEnd(r.finish.value.wall)) else None
  }

  function OverdueKey(r: Record): Option<int> {
    if r.finish.None? && Pending(r) then Some(r.startedMono + OVERDUE_AFTER) else None
  }

  function ExpiryKey(r: Record): Option<int> {
    if r.finish.None? then Some(r.startedWall + UNFINISHED_EXPIRY) else None
  }

  function PruneKey(t: Tomb): Option<int> { Some(t.retireAt + LATE_WINDOW) }

  /** The bucket in which an openly included report is listed. */
  function BucketKey(r: Record): Option<int> {
    if r.inclusion == OpenIncluded && r.finish.Some? then Some(FloorMinute(r.finish.value.wall)) else None
  }

  lemma ScanPut<T>(m: map<nat, T>, k: nat, v: T, key: T -> Option<int>)
    ensures Scan(m[k := v], key) == if key(v).Some? then Scan(m, key)[k := key(v).value] else Scan(m, key) - {k}
  {
  }

  lemma ScanSame<T>(m: map<nat, T>, k: nat, v: T, key: T -> Option<int>)
    requires k in m && key(m[k]) == key(v)
    ensures Scan(m[k := v], key) == Scan(m, key)
  {
  }

  lemma ScanDrop<T>(m: map<nat, T>, k: nat, key: T -> Option<int>)
    ensures Scan(m - {k}, key) == Scan(m, key) - {k}
  {
  }

  // ---- The open lists ----

  predicate Increasing(s: seq<nat>) { forall i, j :: 0 <= i < j < |s| ==> s[i] < s[j] }

  ghost predicate Lists(s: seq<nat>, members: set<nat>) {
    Increasing(s) && forall k :: k in s <==> k in members
  }

  /** The bucket lists hold every open number, in the list of its own bucket; no list is empty. */
  ghost predicate BucketsOk(open: map<nat, int>, buckets: map<int, seq<nat>>) {
    && (forall b :: b in buckets ==> Increasing(buckets[b]) && buckets[b] != [])
    && (forall b, k :: b in buckets && k in buckets[b] ==> k in open && open[k] == b)
    && (forall k :: k in open ==> open[k] in buckets && k in buckets[open[k]])
  }

  method Insort(s: seq<nat>, x: nat) returns (t: seq<nat>)
    requires Increasing(s) && x !in s
    ensures Increasing(t) && t != [] && forall k :: k in t <==> k in s || k == x
  {
    var i := 0;
    while i < |s| && s[i] < x
      invariant 0 <= i <= |s| && forall j :: 0 <= j < i ==> s[j] < x
    {
      i := i + 1;
    }
    t := s[..i] + [x] + s[i..];
    Inserted(s, x, i);
  }

  lemma Inserted(s: seq<nat>, x: nat, i: nat)
    requires Increasing(s) && x !in s && i <= |s|
    requires (forall j :: 0 <= j < i ==> s[j] < x) && (i < |s| ==> x <= s[i])
    ensures var t := s[..i] + [x] + s[i..]; Increasing(t) && forall k :: k in t <==> k in s || k == x
  {
    assert s == s[..i] + s[i..];
    assert i < |s| ==> s[i] in s;
  }

  method RemoveSorted(s: seq<nat>, x: nat) returns (t: seq<nat>)
    requires Increasing(s)
    ensures Increasing(t) && forall k :: k in t <==> k in s && k != x
  {
    var i := 0;
    while i < |s| && s[i] < x
      invariant 0 <= i <= |s| && forall j :: 0 <= j < i ==> s[j] < x
    {
      i := i + 1;
    }
    if i < |s| && s[i] == x {
      t := s[..i] + s[i + 1..];
      assert forall k :: k in t <==> k in s && k != x by {
        assert s == s[..i] + [x] + s[i + 1..];
      }
    } else {
      t := s;
    }
  }

  method AddToBucket(buckets: map<int, seq<nat>>, b: int, k: nat, ghost open: map<nat, int>)
    returns (now: map<int, seq<nat>>)
    requires BucketsOk(open, buckets) && k !in open
    ensures BucketsOk(open[k := b], now)
  {
    var list := if b in buckets then buckets[b] else [];
    var longer := Insort(list, k);
    now := buckets[b := longer];
  }

  method DropFromBucket(buckets: map<int, seq<nat>>, b: int, k: nat, ghost open: map<nat, int>)
    returns (now: map<int, seq<nat>>)
    requires BucketsOk(open, buckets) && k in open && open[k] == b
    ensures BucketsOk(open - {k}, now)
  {
    var shorter := RemoveSorted(buckets[b], k);
    if shorter == [] {
      now := buckets - {b};
      assert forall j :: j in buckets[b] ==> j == k;
    } else {
      now := buckets[b := shorter];
    }
  }

  /** The numbers that are due, in some order, each once. */
  method DueList(index: map<nat, int>, limit: int) returns (due: seq<nat>)
    ensures forall k :: k in due <==> k in index && index[k] <= limit
    ensures forall i, j :: 0 <= i < j < |due| ==> due[i] != due[j]
  {
    var rest := index.Keys;
    due := [];
    while rest != {}
      invariant rest <= index.Keys
      invariant forall k :: k in due <==> k in index && index[k] <= limit && k !in rest
      invariant forall i, j :: 0 <= i < j < |due| ==> due[i] != due[j]
      decreases |rest|
    {
      var k :| k in rest;
      rest := rest - {k};
      if index[k] <= limit {
        due := due + [k];
      }
    }
  }

  // ---- Cohorts ----

  ghost predicate CohortsOk(records: map<nat, Record>, cohorts: set<(Source, int, nat)>) {
    && (forall c :: c in cohorts ==> c.2 in records && records[c.2].source == c.0 && records[c.2].startedWall == c.1)
    && (forall k :: k in records ==> (records[k].source, records[k].startedWall, k) in cohorts)
  }

  // ---- Retiring one record after another ----

  lemma LatestOfOne(k: nat, r: Record, base: Option<int>)
    ensures LatestStart(map[k := r], base) ==
            if base.Some? && r.startedWall <= base.value then base else Some(r.startedWall)
  {
    var d := map[k := r];
    assert k in d && d[k] == r;
  }

  lemma LatestOfMore(d: map<nat, Record>, k: nat, r: Record, base: Option<int>)
    requires k !in d
    ensures LatestStart(d[k := r], base) == LatestStart(map[k := r], LatestStart(d, base))
  {
    var rest := LatestStart(d, base);
    LatestOfOne(k, r, rest);
    assert d[k := r][k] == r;
    if rest != base {
      var j :| j in d && rest == Some(d[j].startedWall);
      assert j in d[k := r] && d[k := r][j] == d[j];
    }
    LatestIs(d[k := r], base,
      if rest.Some? && r.startedWall <= rest.value then rest else Some(r.startedWall));
  }

  /** The latest start is the only bound that is attained. */
  lemma LatestIs(d: map<nat, Record>, base: Option<int>, w: Option<int>)
    requires forall k :: k in d ==> w.Some? && d[k].startedWall <= w.value
    requires base.Some? ==> w.Some? && base.value <= w.value
    requires w == base || exists k :: k in d && w == Some(d[k].startedWall)
    ensures LatestStart(d, base) == w
  {
  }

  lemma TalliesOfOne(k: nat, r: Record)
    ensures Total(CohortTallies(map[k := r])) == CohortTally(r)
  {
    hide CohortTally;
    TotalTakesAnyKey(CohortTallies(map[k := r]), k);
    assert CohortTallies(map[k := r]) - {k} == map[];
  }

  lemma TalliesOfMore(d: map<nat, Record>, k: nat, r: Record)
    requires k !in d
    ensures Total(CohortTallies(d[k := r])) == Total(CohortTallies(d)) + CohortTally(r)
  {
    hide CohortTally;
    TotalAdds(CohortTallies(d), k, CohortTally(r));
    assert CohortTallies(d[k := r]) == CohortTallies(d)[k := CohortTally(r)];
  }

  lemma RetireOneMore(st: Ledger, d: map<nat, Record>, k: nat, r: Record, wall: int, mono: int)
    requires k !in d
    ensures Retire(Retire(st, d, wall, mono), map[k := r], wall, mono) == Retire(st, d[k := r], wall, mono)
  {
    hide CohortTallies, Buried, CohortTally, LatestStart, Total;
    LatestOfMore(d, k, r, st.frozenThrough);
    TalliesOfMore(d, k, r);
    TalliesOfOne(k, r);
    RecordsAndTombsOfMore(st, d, k, r, wall, mono);
    SumsAssociate(st.frozen, Total(CohortTallies(d)), CohortTally(r));
  }

  lemma SumsAssociate<V>(x: multiset<V>, y: multiset<V>, z: multiset<V>)
    ensures x + y + z == x + (y + z)
  {
  }

  lemma RecordsAndTombsOfMore(st: Ledger, d: map<nat, Record>, k: nat, r: Record, wall: int, mono: int)
    requires k !in d
    ensures st.records - d.Keys - map[k := r].Keys == st.records - d[k := r].Keys
    ensures st.tombs + Buried(d, wall, mono) + Buried(map[k := r], wall, mono)
            == st.tombs + Buried(d[k := r], wall, mono)
    ensures st.retired + d + map[k := r] == st.retired + d[k := r]
  {
    hide Buried, Bury;
    BuriedOfMore(d, k, r, wall, mono);
    assert map[k := r].Keys == {k} && d[k := r].Keys == d.Keys + {k};
    JoinOne(st.tombs, Buried(d, wall, mono), k, Bury(r, wall, mono));
    JoinOne(st.retired, d, k, r);
    assert st.records - d.Keys - {k} == st.records - (d.Keys + {k});
  }

  lemma JoinOne<V>(m: map<nat, V>, d: map<nat, V>, k: nat, v: V)
    ensures m + d + map[k := v] == m + d[k := v]
  {
  }

  lemma BuriedOfMore(d: map<nat, Record>, k: nat, r: Record, wall: int, mono: int)
    ensures Buried(map[k := r], wall, mono) == map[k := Bury(r, wall, mono)]
    ensures Buried(d[k := r], wall, mono) == Buried(d, wall, mono)[k := Bury(r, wall, mono)]
  {
    hide Bury;
  }

  lemma RetireNothing(st: Ledger, wall: int, mono: int)
    ensures Retire(st, map[], wall, mono) == st
  {
    assert CohortTallies(map[]) == map[];
    assert st.tombs + Buried(map[], wall, mono) == st.tombs;
    assert st.records - {} == st.records;
    assert st.retired + map[] == st.retired;
    var none: map<nat, Record> := map[];
    assert none.Keys == {};
  }

  // ---- Pruning one tombstone after another ----

  lemma PruneOneMore(st: Ledger, gone: set<nat>, k: nat)
    ensures Prune(Prune(st, gone), {k}) == Prune(st, gone + {k})
  {
    var a, b := Prune(Prune(st, gone), {k}), Prune(st, gone + {k});
    assert a.tombs == b.tombs;
    assert a.ids == b.ids;
    assert a.owners == b.owners;
    assert a.ownedIds == b.ownedIds;
  }

  lemma PruneNothing(st: Ledger)
    ensures Prune(st, {}) == st
  {
    var a := Prune(st, {});
    assert a.tombs == st.tombs;
    assert a.ids == st.ids;
    assert a.owners == st.owners;
    assert a.ownedIds == st.ownedIds;
  }

  // ---- The indexes as wholes ----

  datatype Indexes = Indexes(
    close: map<nat, int>, overdue: map<nat, int>, expiry: map<nat, int>, prune: map<nat, int>,
    openSeq: seq<nat>, buckets: map<int, seq<nat>>, cohorts: set<(Source, int, nat)>,
    nLive: nat, nTomb: nat, nRes: nat)

  const NO_INDEXES := Indexes(map[], map[], map[], map[], [], map[], {}, 0, 0, 0)

  ghost predicate DeadlinesOk(records: map<nat, Record>, close: map<nat, int>, overdue: map<nat, int>,
                              expiry: map<nat, int>) {
    close == Scan(records, CloseKey) && overdue == Scan(records, OverdueKey) && expiry == Scan(records, ExpiryKey)
  }

  ghost predicate PruneOk(tombs: map<nat, Tomb>, prune: map<nat, int>) { prune == Scan(tombs, PruneKey) }

  ghost function Open(records: map<nat, Record>): map<nat, int> { Scan(records, BucketKey) }

  ghost predicate OpenOk(open: map<nat, int>, openSeq: seq<nat>, buckets: map<int, seq<nat>>) {
    Lists(openSeq, open.Keys) && BucketsOk(open, buckets)
  }

  ghost predicate CountsOk(records: map<nat, Record>, tombs: map<nat, Tomb>, nLive: nat, nTomb: nat, nRes: nat) {
    nLive == |records| && nTomb == |tombs| && nRes == nLive + nTomb && records.Keys !! tombs.Keys
  }

  /** Every index agrees with a plain scan of the records and tombstones. */
  ghost predicate Agree(st: Ledger, ix: Indexes) {
    && DeadlinesOk(st.records, ix.close, ix.overdue, ix.expiry) && PruneOk(st.tombs, ix.prune)
    && OpenOk(Open(st.records), ix.openSeq, ix.buckets) && CohortsOk(st.records, ix.cohorts)
    && CountsOk(st.records, st.tombs, ix.nLive, ix.nTomb, ix.nRes)
  }

  lemma DeadlinesPut(records: map<nat, Record>, k: nat, r: Record,
                     close: map<nat, int>, overdue: map<nat, int>, expiry: map<nat, int>)
    requires DeadlinesOk(records, close, overdue, expiry)
    ensures DeadlinesOk(records[k := r],
              if CloseKey(r).Some? then close[k := CloseKey(r).value] else close - {k},
              if OverdueKey(r).Some? then overdue[k := OverdueKey(r).value] else overdue - {k},
              if ExpiryKey(r).Some? then expiry[k := ExpiryKey(r).value] else expiry - {k})
  {
    hide CloseKey, OverdueKey, ExpiryKey;
    ScanPut(records, k, r, CloseKey);
    ScanPut(records, k, r, OverdueKey);
    ScanPut(records, k, r, ExpiryKey);
  }

  lemma DeadlinesDrop(records: map<nat, Record>, k: nat,
                      close: map<nat, int>, overdue: map<nat, int>, expiry: map<nat, int>)
    requires DeadlinesOk(records, close, overdue, expiry)
    ensures DeadlinesOk(records - {k}, close - {k}, overdue - {k}, expiry - {k})
  {
    ScanDrop(records, k, CloseKey);
    ScanDrop(records, k, OverdueKey);
    ScanDrop(records, k, ExpiryKey);
  }

  /** Retiring a single record, field by field. */
  lemma RetireOneForm(st: Ledger, k: nat, last: Record, wall: int, mono: int)
    ensures Retire(st, map[k := last], wall, mono) ==
            st.(records := st.records - {k},
                tombs := st.tombs[k := Bury(last, wall, mono)],
                retired := st.retired[k := last],
                frozen := st.frozen + CohortTally(last),
                frozenThrough := if st.frozenThrough.Some? && last.startedWall <= st.frozenThrough.value
                                 then st.frozenThrough else Some(last.startedWall))
  {
    TalliesOfOne(k, last);
    LatestOfOne(k, last, st.frozenThrough);
    OneKey(st, k, last, wall, mono);
    hide CohortTallies, CohortTally, Buried, Bury, LatestStart, Total;
  }

  lemma OneKey(st: Ledger, k: nat, last: Record, wall: int, mono: int)
    ensures st.records - map[k := last].Keys == st.records - {k}
    ensures st.tombs + Buried(map[k := last], wall, mono) == st.tombs[k := Bury(last, wall, mono)]
    ensures st.retired + map[k := last] == st.retired[k := last]
  {
    hide Bury;
    assert map[k := last].Keys == {k};
  }

  /** Pruning a single tombstone, entry by entry. */
  lemma PruneOneForm(st: Ledger, k: nat)
    requires IdsOk(st.ids, st.records, st.tombs) && OwnersOk(st.records, st.tombs, st.owners) && k in st.tombs
    requires OwnedIdsOk(st.ids, st.records, st.tombs, st.ownedIds)
    ensures var t := st.tombs[k];
            Prune(st, {k}) ==
            st.(tombs := st.tombs - {k}, ids := st.ids - {t.id},
                owners := if t.connection.Started? then st.owners - {(t.source, t.connection.round)} else st.owners,
                ownedIds := if t.connection.Started? then st.ownedIds - {t.id} else st.ownedIds,
                identityPruned := true)
  {
    PruneIdsForm(st, k);
    PruneOwnersForm(st, k);
    hide IdsOk, OwnersOk, OwnedIdsOk;
  }

  lemma PruneIdsForm(st: Ledger, k: nat)
    requires IdsOk(st.ids, st.records, st.tombs) && k in st.tombs
    requires OwnedIdsOk(st.ids, st.records, st.tombs, st.ownedIds)
    ensures var t := st.tombs[k];
            && Prune(st, {k}).ids == st.ids - {t.id}
            && Prune(st, {k}).ownedIds == if t.connection.Started? then st.ownedIds - {t.id} else st.ownedIds
  {
    assert st.ids[st.tombs[k].id] == k;
    assert forall i :: i in st.ids && st.ids[i] == k ==> i == st.tombs[k].id;
  }

  lemma PruneOwnersForm(st: Ledger, k: nat)
    requires IdsOk(st.ids, st.records, st.tombs) && OwnersOk(st.records, st.tombs, st.owners) && k in st.tombs
    ensures var t := st.tombs[k];
            Prune(st, {k}).owners
            == if t.connection.Started? then st.owners - {(t.source, t.connection.round)} else st.owners
  {
    var t := st.tombs[k];
    assert OwnerIs(st.owners, t.source, t.connection, k);
    forall key | key in st.owners && st.owners[key] == k
      ensures t.connection.Started? && key == (t.source, t.connection.round)
    {
      assert Owns(st.records, st.tombs, k, key);
    }
  }

  lemma PrunePut(tombs: map<nat, Tomb>, prune: map<nat, int>, k: nat, t: Tomb)
    requires PruneOk(tombs, prune)
    ensures PruneOk(tombs[k := t], prune[k := t.retireAt + LATE_WINDOW])
  {
    ScanPut(tombs, k, t, PruneKey);
  }

  lemma MoveOne(records: map<nat, Record>, tombs: map<nat, Tomb>, nLive: nat, nTomb: nat, nRes: nat, k: nat, t: Tomb)
    requires k in records && CountsOk(records, tombs, nLive, nTomb, nRes)
    ensures nLive > 0 && CountsOk(records - {k}, tombs[k := t], nLive - 1, nTomb + 1, nRes)
  {
    SizeWithout(records, k);
  }

  lemma RetireOneCohorts(records: map<nat, Record>, cohorts: set<(Source, int, nat)>, k: nat)
    requires CohortsOk(records, cohorts) && k in records
    ensures CohortsOk(records - {k}, cohorts - {(records[k].source, records[k].startedWall, k)})
  {
  }

  /** Without an entry of its own a record is not in the open lists. */
  lemma NotOpen(records: map<nat, Record>, k: nat)
    requires k !in records || BucketKey(records[k]).None?
    ensures k !in Open(records) && Open(records) - {k} == Open(records)
  {
  }

  lemma CohortsPut(records: map<nat, Record>, cohorts: set<(Source, int, nat)>, k: nat, r: Record)
    requires CohortsOk(records, cohorts) && k in records
    requires r.source == records[k].source && r.startedWall == records[k].startedWall
    ensures CohortsOk(records[k := r], cohorts)
  {
  }

  lemma CountsPut(records: map<nat, Record>, tombs: map<nat, Tomb>, ix: Indexes, k: nat, r: Record)
    requires CountsOk(records, tombs, ix.nLive, ix.nTomb, ix.nRes) && k in records
    ensures CountsOk(records[k := r], tombs, ix.nLive, ix.nTomb, ix.nRes)
  {
    SizeOfKeys(records);
    SizeOfKeys(records[k := r]);
    assert records[k := r].Keys == records.Keys;
  }

  // ---- Capacity ----

  lemma ScanSize<T>(m: map<nat, T>, key: T -> Option<int>)
    ensures |Scan(m, key)| <= |m|
  {
    var scan := Scan(m, key);
    assert scan.Keys <= m.Keys;
    SizeOfKeys(m);
    SizeOfKeys(scan);
    SubsetSize(scan.Keys, m.Keys);
  }

  lemma SubsetSize<T>(a: set<T>, b: set<T>)
    requires a <= b
    ensures |a| <= |b|
  {
    assert b == a + (b - a);
  }

  /** In a reachable state there is room in every index for a live record that has no entry yet, since the indexes are
      built for `maxRecords` numbers: the deadline indexes hold live records only, and the prune index keeps one slot
      for each resident number. */
  lemma IndexesNeverFull(st: Ledger, k: nat, key: Record -> Option<int>)
    requires Inv(st) && k in st.records
    ensures |Scan(st.records - {k}, key)| < st.maxRecords
    ensures |st.records.Keys + st.tombs.Keys - {k}| < st.maxRecords
  {
    Disjoint(st, map[]);
    hide IdsOk, OwnersOk, OwnedIdsOk, RecordsOk, CumulativeOk, RegisteredOk, TombsOk, ChangesOk, FrozenOk, LineOk, Scan;
    ScanSize(st.records - {k}, key);
    SizeWithout(st.records, k);
    SizeOfKeys(st.records);
    SizeOfKeys(st.tombs);
    assert |st.records.Keys + st.tombs.Keys| == |st.records.Keys| + |st.tombs.Keys|;
  }

  /** So a deadline tree built for `maxRecords` numbers whose slots are those of the other numbers hands out a slot:
      neither `set` nor `reserve` raises its capacity error. */
  lemma TreesHaveRoom(st: Ledger, k: nat, key: Record -> Option<int>, b: DeadlineIndexes.Book, seqs: seq<Option<nat>>)
    requires Inv(st) && k in st.records && st.maxRecords >= 1 && |seqs| == DeadlineIndexes.SizeFor(st.maxRecords)
    requires DeadlineIndexes.SlotsOk(b.held, seqs, b.free, b.next)
    requires b.held.Keys == Scan(st.records - {k}, key).Keys || b.held.Keys == st.records.Keys + st.tombs.Keys - {k}
    ensures DeadlineIndexes.SlotFor(b) < |seqs|
    ensures k in DeadlineIndexes.Apply(b, DeadlineIndexes.ScheduleOp(k), |seqs|).held
    ensures k in DeadlineIndexes.Apply(b, DeadlineIndexes.ReserveOp(k), |seqs|).held
  {
    hide Inv, Scan;
    IndexesNeverFull(st, k, key);
    SizeOfKeys(b.held);
    SizeOfKeys(Scan(st.records - {k}, key));
    SlotLeft(b, seqs);
    hide DeadlineIndexes.SlotsOk, DeadlineIndexes.SlotFor;
  }

  lemma SlotLeft(b: DeadlineIndexes.Book, seqs: seq<Option<nat>>)
    requires DeadlineIndexes.SlotsOk(b.held, seqs, b.free, b.next) && |b.held| < |seqs|
    ensures DeadlineIndexes.SlotFor(b) < |seqs|
  {
    if b.free != [] {
      assert b.free[|b.free| - 1] in b.free;
    }
  }
}
