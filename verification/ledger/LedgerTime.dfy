/** Advancing in time: it does everything that is due, nothing before both clocks allow it, and it does not matter in
    how many steps it is done. */
module LedgerTime {
  import opened Wrappers
  import opened Totals
  import opened Axes
  import opened LedgerState
  import opened LedgerSpec
  import opened LedgerInvariant
  import opened LedgerAdvance
  import opened LedgerSafety
  import opened LedgerHistory
  import opened LedgerTheorems

  // ---- An advance in one formula ----

  ghost function FrontierAfter(st: Ledger, wall: int, mono: int): Option<int> {
    var target := CloseTarget(st.records, wall, mono);
    if target <= PreviousEnd(st.start, st.frontier) then st.frontier else Some(target)
  }

  predicate Due(r: Record, frontier: Option<int>, wall: int, mono: int) {
    ClosedBy(r, frontier) || Expirable(r, wall, mono)
  }

  /** The state in which a record is counted for the last time. */
  function Last(r: Record, mono: int): Record {
    if r.finish.Some? then r else Expired(MarkOverdue(r, mono))
  }

  ghost function Dying(records: map<nat, Record>, frontier: Option<int>, wall: int, mono: int): map<nat, Record> {
    map k | k in records && Due(records[k], frontier, wall, mono) :: Last(records[k], mono)
  }

  ghost function Surviving(records: map<nat, Record>, frontier: Option<int>, wall: int, mono: int): map<nat, Record> {
    map k | k in records && !Due(records[k], frontier, wall, mono) :: MarkOverdue(records[k], mono)
  }

  ghost function Unpruned(tombs: map<nat, Tomb>, wall: int, mono: int): map<nat, Tomb> {
    map k | k in tombs && !Prunable(tombs[k], wall, mono) :: tombs[k]
  }

  ghost function Closed(records: map<nat, Record>, frontier: Option<int>): map<nat, Record> {
    map k | k in records && ClosedBy(records[k], frontier) :: records[k]
  }

  lemma CloseForm(st: Ledger, wall: int, mono: int)
    requires Inv(st)
    ensures var a, f := CloseBuckets(st, wall, mono), FrontierAfter(st, wall, mono);
            && a.frontier == f && a.records == st.records - Closed(st.records, f).Keys
            && a.retired == st.retired + Closed(st.records, f)
            && a.tombs == st.tombs + Buried(Closed(st.records, f), wall, mono)
  {
    NotClosedYet(st);
    hide Inv, CloseBuckets, Retire, CloseTarget, Closing, IncludedOf, Contributions, Bury;
    var target := CloseTarget(st.records, wall, mono);
    if target <= PreviousEnd(st.start, st.frontier) {
      NoBucketCloses(st, wall, mono);
    } else {
      ClosingIsClosed(st.records, target);
      ClosesByRetiring(st, wall, mono);
      RetireForm(Count(st, Closing(st.records, target)).(frontier := Some(target)), Closing(st.records, target), wall,
                 mono);
    }
  }

  lemma NoBucketCloses(st: Ledger, wall: int, mono: int)
    requires CloseTarget(st.records, wall, mono) <= PreviousEnd(st.start, st.frontier)
    requires forall k :: k in st.records ==> !ClosedBy(st.records[k], st.frontier)
    ensures CloseBuckets(st, wall, mono) == st
    ensures st.records == st.records - Closed(st.records, st.frontier).Keys
    ensures st.retired == st.retired + Closed(st.records, st.frontier)
    ensures st.tombs == st.tombs + Buried(Closed(st.records, st.frontier), wall, mono)
  {
    assert Closed(st.records, st.frontier) == map[];
    assert Buried(map[], wall, mono) == map[];
  }

  lemma ClosesByRetiring(st: Ledger, wall: int, mono: int)
    requires CloseTarget(st.records, wall, mono) > PreviousEnd(st.start, st.frontier)
    ensures var target := CloseTarget(st.records, wall, mono);
            var closing := Closing(st.records, target);
            CloseBuckets(st, wall, mono) == Retire(Count(st, closing).(frontier := Some(target)), closing, wall, mono)
  {
    hide Retire, CloseTarget, Closing, IncludedOf, Contributions;
  }

  lemma RetireForm(st: Ledger, dead: map<nat, Record>, wall: int, mono: int)
    ensures var a := Retire(st, dead, wall, mono);
            && a.records == st.records - dead.Keys && a.retired == st.retired + dead
            && a.tombs == st.tombs + Buried(dead, wall, mono) && a.frontier == st.frontier
  {
    hide CohortTallies, LatestStart, Bury, Total;
  }

  lemma ClosingIsClosed(records: map<nat, Record>, target: int)
    ensures Closing(records, target) == Closed(records, Some(target))
  {
  }

  /** The state of one record after closing and marking, and whether it then expires. */
  lemma DyingOne(r: Record, frontier: Option<int>, wall: int, mono: int)
    ensures ClosedBy(r, frontier) ==> Due(r, frontier, wall, mono) && Last(r, mono) == r
    ensures !ClosedBy(r, frontier) ==>
              (Due(r, frontier, wall, mono) <==> Expirable(MarkOverdue(r, mono), wall, mono))
    ensures !ClosedBy(r, frontier) && Due(r, frontier, wall, mono) ==> Last(r, mono) == Expired(MarkOverdue(r, mono))
  {
  }

  /** What expires is what is left unfinished; finished and unfinished records do not meet. */
  lemma DyingSplits(records: map<nat, Record>, frontier: Option<int>, wall: int, mono: int)
    ensures var left := map k | k in records - Closed(records, frontier).Keys :: MarkOverdue(records[k], mono);
            && Dying(records, frontier, wall, mono) == Closed(records, frontier) + Expiring(left, wall, mono)
            && Surviving(records, frontier, wall, mono) == left - Expiring(left, wall, mono).Keys
  {
    hide ClosedBy, Due, Last, Expirable, Expired, MarkOverdue;
    forall k | k in records
      ensures ClosedBy(records[k], frontier) ==>
                Due(records[k], frontier, wall, mono) && Last(records[k], mono) == records[k]
      ensures !ClosedBy(records[k], frontier) ==>
                (Due(records[k], frontier, wall, mono) <==> Expirable(MarkOverdue(records[k], mono), wall, mono))
      ensures !ClosedBy(records[k], frontier) && Due(records[k], frontier, wall, mono) ==>
                Last(records[k], mono) == Expired(MarkOverdue(records[k], mono))
    {
      DyingOne(records[k], frontier, wall, mono);
    }
  }

  lemma BuriedOfUnion(a: map<nat, Record>, b: map<nat, Record>, wall: int, mono: int)
    ensures Buried(a + b, wall, mono) == Buried(a, wall, mono) + Buried(b, wall, mono)
  {
    hide Bury;
  }

  lemma PruneForm(st: Ledger, wall: int, mono: int)
    ensures PruneTombs(st, wall, mono).tombs == Unpruned(st.tombs, wall, mono)
    ensures PruneTombs(st, wall, mono).records == st.records && PruneTombs(st, wall, mono).retired == st.retired
  {
    hide Prunable;
  }

  /** Which records die, which survive and which tombstones remain. */
  lemma AdvanceForm(st: Ledger, wall: int, mono: int)
    requires Inv(st)
    ensures var a, f := Advance(st, wall, mono), FrontierAfter(st, wall, mono);
            && a.frontier == f && a.records == Surviving(st.records, f, wall, mono)
            && a.retired == st.retired + Dying(st.records, f, wall, mono)
            && a.tombs == Unpruned(st.tombs + Buried(Dying(st.records, f, wall, mono), wall, mono), wall, mono)
  {
    hide Inv, CloseBuckets, ExpireUnfinished, PruneTombs, FrontierAfter, Closed, Dying, Surviving, Unpruned, Expiring,
         Buried, MarkOverdue;
    var f := FrontierAfter(st, wall, mono);
    CloseForm(st, wall, mono);
    var a := Stamp(CloseBuckets(st, wall, mono), wall, mono);
    var b := MarkOverdues(a, mono);
    DyingSplits(st.records, f, wall, mono);
    assert b.records == map k | k in st.records - Closed(st.records, f).Keys :: MarkOverdue(st.records[k], mono);
    ExpireForm(b, wall, mono);
    PruneForm(ExpireUnfinished(b, wall, mono), wall, mono);
    BuriedOfUnion(Closed(st.records, f), Expiring(b.records, wall, mono), wall, mono);
    UnionAssociates(st.tombs, Buried(Closed(st.records, f), wall, mono),
                    Buried(Expiring(b.records, wall, mono), wall, mono));
    UnionAssociates(st.retired, Closed(st.records, f), Expiring(b.records, wall, mono));
    AdvanceFields(st, wall, mono);
  }

  lemma UnionAssociates<V>(a: map<nat, V>, b: map<nat, V>, c: map<nat, V>)
    ensures a + b + c == a + (b + c)
  {
  }

  lemma ExpireForm(st: Ledger, wall: int, mono: int)
    ensures var a, dead := ExpireUnfinished(st, wall, mono), Expiring(st.records, wall, mono);
            && a.records == st.records - dead.Keys && a.retired == st.retired + dead
            && a.tombs == st.tombs + Buried(dead, wall, mono)
  {
    ExpireIsRetire(st, wall, mono);
    RetireForm(st, Expiring(st.records, wall, mono), wall, mono);
    hide ExpireUnfinished, Expiring, Retire, Buried;
  }

  // ---- Due, and not before ----

  /** A record leaves only when both of its clocks have passed. */
  lemma RetiredOnlyWhenDue(st: Ledger, wall: int, mono: int, k: nat)
    requires Inv(st) && k in st.records && k !in Advance(st, wall, mono).records
    ensures wall >= RetireAt(st.records[k]) && mono >= RetireMono(st.records[k])
  {
    hide Inv, Advance, CloseTarget;
    AdvanceForm(st, wall, mono);
    NotClosedYet(st);
    TargetIsWholeMinute(st.records, wall, mono);
  }

  /** An unfinished record leaves as soon as both have. */
  lemma ExpiresExactlyWhenDue(st: Ledger, wall: int, mono: int, k: nat)
    requires Inv(st) && k in st.records && st.records[k].finish.None?
    ensures k in Advance(st, wall, mono).records <==>
              wall < RetireAt(st.records[k]) || mono < RetireMono(st.records[k])
  {
    hide Inv, Advance, FrontierAfter;
    AdvanceForm(st, wall, mono);
  }

  /** A tombstone is forgotten exactly when both of its clocks have passed by the late window. */
  lemma PrunedExactlyWhenDue(st: Ledger, wall: int, mono: int, k: nat)
    requires Inv(st) && k in st.tombs
    ensures k !in Advance(st, wall, mono).tombs <==> Prunable(st.tombs[k], wall, mono)
  {
    DisjointTombs(st, k);
    hide Inv, Advance, FrontierAfter, Due, Last, Bury, Prunable;
    AdvanceForm(st, wall, mono);
  }

  lemma DisjointTombs(st: Ledger, k: nat)
    requires Inv(st) && k in st.tombs
    ensures k !in st.records
  {
  }

  /** After an advance nobody still awaited has passed the overdue deadline. */
  lemma NobodyAwaitedIsOverdue(st: Ledger, wall: int, mono: int, k: nat)
    requires k in Advance(st, wall, mono).records
    ensures var r := Advance(st, wall, mono).records[k];
            Pending(r) && r.finish.None? ==> mono < r.startedMono + OVERDUE_AFTER
  {
    AdvanceRecord(st, wall, mono, k);
    hide Advance;
  }

  /** A record still awaited is overdue after an advance exactly if a quarter of an hour has passed; nothing else is
      marked, and what was marked before stays. */
  lemma OverdueExactlyWhenDue(st: Ledger, wall: int, mono: int, k: nat)
    requires Inv(st) && k in Advance(st, wall, mono).records
    ensures k in st.records
    ensures var r, s := st.records[k], Advance(st, wall, mono).records[k];
            if (r.lifecycle == AwaitingReport || r.lifecycle == InFlight) && mono - r.startedMono >= Minutes(15)
            then s == r.(lifecycle := Overdue, everOverdue := true)
            else s == r
  {
    hide Inv, Advance;
    AdvanceRecord(st, wall, mono, k);
    LiveRecordOk(st, k);
  }

  // ---- When a bucket closes ----

  function Minutes(n: int): int { n * 60_000_000 }

  /** The whole minute after a finish, when its bucket may close by wall time, and the same moment on its own clock. */
  function NextMinute(f: FinishInfo): int { (f.wall / Minutes(1) + 1) * Minutes(1) }

  function ClosingWall(f: FinishInfo): int { NextMinute(f) + Minutes(70) }

  function ClosingMono(f: FinishInfo): int { f.mono + (ClosingWall(f) - f.wall) }

  /** By wall time the bucket of `f` may close, and no report of this bucket or an earlier one is held back by its
      monotonic clock. */
  predicate MayClose(records: map<nat, Record>, f: FinishInfo, wall: int, mono: int) {
    && wall >= ClosingWall(f)
    && forall j :: j in records && records[j].finish.Some? && NextMinute(records[j].finish.value) <= NextMinute(f) ==>
         mono >= ClosingMono(records[j].finish.value)
  }

  lemma MinutesApart(a: int, b: int)
    requires a % MINUTE == 0 && b % MINUTE == 0
    ensures a < b <==> a <= b - MINUTE
  {
    if a < b {
      assert (b - a) % MINUTE == 0;
    }
  }

  lemma SameMinute(f: FinishInfo)
    ensures BucketEnd(f.wall) == NextMinute(f) && BucketEnd(f.wall) % MINUTE == 0
    ensures CloseAt(f.wall) == ClosingWall(f)
  {
    WholeMinute(f.wall);
  }

  lemma OneMayClose(r: Record, f: FinishInfo, wall: int, mono: int)
    requires r.finish.Some? && BucketEnd(f.wall) <= FloorMinute(wall - GRACE)
    ensures (HeldBack(r, FloorMinute(wall - GRACE), mono) ==>
              BucketEnd(f.wall) <= BucketEnd(r.finish.value.wall) - MINUTE)
            <==> (NextMinute(r.finish.value) <= NextMinute(f) ==> mono >= ClosingMono(r.finish.value))
  {
    SameMinute(f);
    SameMinute(r.finish.value);
    hide BucketEnd, FloorMinute, NextMinute, CloseAt, ClosingWall;
    MinutesApart(BucketEnd(f.wall), BucketEnd(r.finish.value.wall));
  }

  lemma WallMayClose(f: FinishInfo, wall: int)
    ensures BucketEnd(f.wall) <= FloorMinute(wall - GRACE) <==> wall >= ClosingWall(f)
  {
    SameMinute(f);
    WholeMinute(wall - GRACE);
    MinutesApart(FloorMinute(wall - GRACE), BucketEnd(f.wall));
  }

  lemma TargetReaches(records: map<nat, Record>, f: FinishInfo, wall: int, mono: int)
    ensures BucketEnd(f.wall) <= CloseTarget(records, wall, mono) <==> MayClose(records, f, wall, mono)
  {
    hide CloseTarget, HeldBack, FloorMinute, BucketEnd, NextMinute, ClosingWall, ClosingMono;
    var limit := FloorMinute(wall - GRACE);
    TargetIsWholeMinute(records, wall, mono);
    TargetIsLimitOrHeld(records, wall, mono);
    WallMayClose(f, wall);
    if BucketEnd(f.wall) <= limit {
      forall j | j in records && records[j].finish.Some?
        ensures (HeldBack(records[j], limit, mono) ==>
                  BucketEnd(f.wall) <= BucketEnd(records[j].finish.value.wall) - MINUTE)
                <==> (NextMinute(records[j].finish.value) <= NextMinute(f) ==>
                  mono >= ClosingMono(records[j].finish.value))
      {
        OneMayClose(records[j], f, wall, mono);
      }
      HeldHaveFinished(records, limit, mono);
    }
  }

  lemma HeldHaveFinished(records: map<nat, Record>, limit: int, mono: int)
    ensures forall j :: j in records && HeldBack(records[j], limit, mono) ==> records[j].finish.Some?
  {
  }

  lemma FrontierReaches(st: Ledger, wall: int, mono: int, k: nat)
    requires Inv(st) && k in st.records && st.records[k].finish.Some?
    ensures ClosedBy(st.records[k], FrontierAfter(st, wall, mono))
            <==> BucketEnd(st.records[k].finish.value.wall) <= CloseTarget(st.records, wall, mono)
  {
    NotClosedYet(st);
    LiveRecordOk(st, k);
    hide Inv, CloseTarget, BucketEnd;
  }

  lemma FinishedLeaves(st: Ledger, wall: int, mono: int, k: nat)
    requires Inv(st) && k in st.records && st.records[k].finish.Some?
    ensures var a := Advance(st, wall, mono);
            && (k !in a.records <==> ClosedBy(st.records[k], FrontierAfter(st, wall, mono)))
            && (k !in a.records ==> k in a.retired && a.retired[k] == st.records[k])
            && (k in a.records ==> k !in a.retired)
  {
    hide Inv, Advance, FrontierAfter, ClosedBy;
    AdvanceForm(st, wall, mono);
    NotClosedYet(st);
  }

  /** A finished record leaves the ledger exactly when its bucket may close, and then its round is included exactly if
      it was open for inclusion. */
  lemma ClosesExactlyWhenDue(st: Ledger, wall: int, mono: int, k: nat)
    requires Inv(st) && k in st.records && st.records[k].finish.Some?
    ensures var a := Advance(st, wall, mono);
            && (k !in a.records <==> MayClose(st.records, st.records[k].finish.value, wall, mono))
            && (k !in a.records ==> k in a.retired && a.retired[k] == st.records[k])
            && (k in IncludedRounds(a) <==> k !in a.records && st.records[k].inclusion == OpenIncluded)
            && (k in IncludedRounds(a) ==>
                  st.records[k].detail == Some(IncludedRounds(a)[k].detail)
                  && IncludedRounds(a)[k].source == st.records[k].source)
  {
    hide Inv, Advance, CloseTarget, MayClose, BucketEnd, FrontierAfter, ClosedBy, RecordOk;
    FinishedLeaves(st, wall, mono, k);
    FrontierReaches(st, wall, mono, k);
    TargetReaches(st.records, st.records[k].finish.value, wall, mono);
    NotClosedYet(st);
  }

  // ---- What is left of a record ----

  /** When a record may leave: a finished one when its bucket may close, any other four hours after its start. */
  function LeavesWall(r: Record): int {
    if r.finish.Some? then ClosingWall(r.finish.value) else r.startedWall + Minutes(240)
  }

  function LeavesMono(r: Record): int {
    if r.finish.Some? then ClosingMono(r.finish.value) else r.startedMono + Minutes(240)
  }

  /** The state in which it leaves: one without a report ends as unavailable. */
  function AtTheEnd(r: Record): Record {
    if r.finish.Some? then r
    else r.(lifecycle := ReportUnavailable, everUnavailable := true,
            everOverdue := r.everOverdue || r.lifecycle in {AwaitingReport, InFlight})
  }

  /** What is remembered of it for another two hours. */
  function Remains(r: Record): Tomb {
    Tomb(r.id, r.source, r.startedWall, r.startedMono, r.job, r.serial, r.connection, AtTheEnd(r).lifecycle, r.finish,
         LeavesWall(r), LeavesMono(r), r.finish.None?)
  }

  predicate Kept(t: Tomb, wall: int, mono: int) {
    wall < t.retireAt + Minutes(120) || mono < t.retireMono + Minutes(120)
  }

  lemma LeavesAre(r: Record)
    ensures RetireAt(r) == LeavesWall(r) && RetireMono(r) == LeavesMono(r)
  {
    if r.finish.Some? {
      SameMinute(r.finish.value);
    }
  }

  lemma LastIs(r: Record, wall: int, mono: int)
    requires r.inclusion != PostCloseExcluded && (Unreported(r) ==> r.finish.None?)
    requires r.finish.None? ==> mono >= r.startedMono + Minutes(240)
    ensures Last(r, mono) == AtTheEnd(r) && Bury(Last(r, mono), wall, mono) == Remains(r)
  {
    LeavesAre(r);
    LeavesAre(AtTheEnd(r));
    hide ClosingWall, ClosingMono, NextMinute, CloseAt, RetireAt, RetireMono;
  }

  /** A record that leaves is counted in its last state, and remembered until two hours after it might have left. */
  lemma LeavesATombstone(st: Ledger, wall: int, mono: int, k: nat)
    requires Inv(st) && k in st.records && k !in Advance(st, wall, mono).records
    ensures var r, a := st.records[k], Advance(st, wall, mono);
            && wall >= LeavesWall(r) && mono >= LeavesMono(r)
            && k in a.retired && a.retired[k] == AtTheEnd(r)
            && (k in a.tombs <==> Kept(Remains(r), wall, mono)) && (k in a.tombs ==> a.tombs[k] == Remains(r))
  {
    hide Inv, Advance, FrontierAfter, Due, Bury, Last, RetireAt, RetireMono, CloseAt, LeavesWall, LeavesMono, AtTheEnd,
         RecordOk;
    var r := st.records[k];
    RetiredOnlyWhenDue(st, wall, mono, k);
    LeavesAre(r);
    LiveRecord(st, k);
    LeavesUnfinished(r);
    LastIs(r, wall, mono);
    AdvanceForm(st, wall, mono);
    KeptIs(Remains(r), wall, mono);
  }

  lemma LeavesUnfinished(r: Record)
    ensures r.finish.None? ==> LeavesMono(r) == r.startedMono + Minutes(240)
  {
  }

  lemma KeptIs(t: Tomb, wall: int, mono: int)
    ensures Prunable(t, wall, mono) <==> !Kept(t, wall, mono)
  {
  }

  lemma LiveRecord(st: Ledger, k: nat)
    requires Inv(st) && k in st.records
    ensures var r := st.records[k]; r.inclusion != PostCloseExcluded && (Unreported(r) ==> r.finish.None?)
  {
    hide IdsOk, OwnersOk, OwnedIdsOk, CumulativeOk, RegisteredOk, TombsOk, ChangesOk, FrozenOk, LineOk;
    assert RecordOk(st.start, st.frontier, st.records[k]);
  }

  /** An unfinished record leaves exactly four hours after its start by both clocks, and a tombstone exactly two hours
      after its record might have left. */
  lemma ForgetsExactlyWhenDue(st: Ledger, wall: int, mono: int)
    requires Inv(st)
    ensures var a := Advance(st, wall, mono);
            && (forall k :: k in st.records && st.records[k].finish.None? ==>
                  (k in a.records <==> wall < st.records[k].startedWall + Minutes(240)
                                       || mono < st.records[k].startedMono + Minutes(240)))
            && (forall k :: k in st.tombs ==> (k in a.tombs <==> Kept(st.tombs[k], wall, mono)))
            && (forall k :: k in st.tombs && k in a.tombs ==> a.tombs[k] == st.tombs[k])
  {
    hide Inv, Advance, Kept;
    var a := Advance(st, wall, mono);
    forall k | k in st.records && st.records[k].finish.None?
      ensures k in a.records <==> wall < st.records[k].startedWall + Minutes(240)
                                  || mono < st.records[k].startedMono + Minutes(240)
    {
      ExpiresExactlyWhenDue(st, wall, mono, k);
    }
    forall k | k in st.tombs
      ensures (k in a.tombs <==> Kept(st.tombs[k], wall, mono)) && (k in a.tombs ==> a.tombs[k] == st.tombs[k])
    {
      PrunedExactlyWhenDue(st, wall, mono, k);
      KeptIs(st.tombs[k], wall, mono);
      TombStays(st, wall, mono, k);
    }
  }

  lemma TombStays(st: Ledger, wall: int, mono: int, k: nat)
    requires Inv(st) && k in st.tombs
    ensures k in Advance(st, wall, mono).tombs ==> Advance(st, wall, mono).tombs[k] == st.tombs[k]
  {
    DisjointTombs(st, k);
    hide Inv, Advance, FrontierAfter, Due, Last, Bury, Prunable;
    AdvanceForm(st, wall, mono);
  }

  /** What is expired before tombstones are forgotten. */
  ghost function BeforePruning(st: Ledger, wall: int, mono: int): Ledger {
    ExpireUnfinished(MarkOverdues(Stamp(CloseBuckets(st, wall, mono), wall, mono), mono), wall, mono)
  }

  lemma BeforePruningKeeps(st: Ledger, wall: int, mono: int)
    requires Inv(st)
    ensures Inv(BeforePruning(st, wall, mono))
  {
    hide Inv;
    CloseBucketsKeeps(st, wall, mono);
    var a := CloseBuckets(st, wall, mono);
    StampKeeps(a, wall, mono);
    MarkOverduesKeeps(Stamp(a, wall, mono), mono);
    ExpireUnfinishedKeeps(MarkOverdues(Stamp(a, wall, mono), mono), wall, mono);
  }

  lemma BeforePruningLeaves(st: Ledger, wall: int, mono: int)
    ensures var b := BeforePruning(st, wall, mono);
            b.ids == st.ids && b.owners == st.owners && b.ownedIds == st.ownedIds
            && b.identityPruned == st.identityPruned
  {
    CloseBucketsLeaves(st, wall, mono);
    hide CloseBuckets, CohortTallies, LatestStart, Bury, Total, MarkOverdue, Expirable;
  }

  lemma PruneForgets(b: Ledger, gone: set<nat>)
    requires IdsOk(b.ids, b.records, b.tombs) && gone <= b.tombs.Keys
    ensures var a := Prune(b, gone);
            && (forall i :: i in a.ids <==> i in b.ids && (b.ids[i] in a.records || b.ids[i] in a.tombs))
            && (a.identityPruned <==> b.identityPruned || exists i :: i in b.ids && i !in a.ids)
  {
    var a := Prune(b, gone);
    forall k | k in gone ensures b.tombs[k].id in b.ids && b.tombs[k].id !in a.ids {
    }
    if gone != {} {
      var k :| k in gone;
      assert b.tombs[k].id in b.ids && b.tombs[k].id !in a.ids;
    }
  }

  /** An identity is forgotten exactly together with its tombstone, and that this has happened is remembered. */
  lemma ForgottenIsRemembered(st: Ledger, wall: int, mono: int)
    requires Inv(st)
    ensures var a := Advance(st, wall, mono);
            && (forall i :: i in a.ids <==> i in st.ids && (st.ids[i] in a.records || st.ids[i] in a.tombs))
            && (a.identityPruned <==> st.identityPruned || exists i :: i in st.ids && i !in a.ids)
  {
    hide BeforePruning, Inv, Advance, Prune, IdsOk;
    var b := BeforePruning(st, wall, mono);
    BeforePruningKeeps(st, wall, mono);
    BeforePruningLeaves(st, wall, mono);
    PruningIsLast(st, wall, mono);
    InvIds(b);
    PruneForgets(b, Prunables(b.tombs, wall, mono));
  }

  lemma InvIds(st: Ledger)
    requires Inv(st)
    ensures IdsOk(st.ids, st.records, st.tombs)
  {
    hide IdsOk;
  }

  lemma PruningIsLast(st: Ledger, wall: int, mono: int)
    ensures Advance(st, wall, mono)
            == Prune(BeforePruning(st, wall, mono), Prunables(BeforePruning(st, wall, mono).tombs, wall, mono))
  {
    hide ExpireUnfinished, MarkOverdues, Stamp, CloseBuckets, Prune, Prunables;
  }

  // ---- Confluence ----

  /** The target only moves forward with the clocks. */
  lemma TargetMonotone(records: map<nat, Record>, wall1: int, mono1: int, wall2: int, mono2: int)
    requires wall1 <= wall2 && mono1 <= mono2
    ensures CloseTarget(records, wall1, mono1) <= CloseTarget(records, wall2, mono2)
  {
    TargetIsWholeMinute(records, wall1, mono1);
    LimitMonotone(wall1, wall2);
    TargetIsLimitOrHeld(records, wall2, mono2);
    hide CloseTarget, FloorMinute;
    var limit := FloorMinute(wall2 - GRACE);
    var target := CloseTarget(records, wall2, mono2);
    if target != limit {
      var k :| k in records && HeldBack(records[k], limit, mono2)
               && target == BucketEnd(records[k].finish.value.wall) - MINUTE;
      HeldAtBoth(records[k], wall1, mono1, wall2, mono2);
    }
  }

  lemma LimitMonotone(wall1: int, wall2: int)
    requires wall1 <= wall2
    ensures FloorMinute(wall1 - GRACE) <= FloorMinute(wall2 - GRACE)
  {
  }

  lemma TargetIsLimitOrHeld(records: map<nat, Record>, wall: int, mono: int)
    ensures var limit, target := FloorMinute(wall - GRACE), CloseTarget(records, wall, mono);
            target == limit || exists k :: k in records && HeldBack(records[k], limit, mono)
                                           && target == BucketEnd(records[k].finish.value.wall) - MINUTE
  {
    hide FloorMinute;
  }

  /** Who holds back the later target either held back the earlier one or lies beyond it. */
  lemma HeldAtBoth(r: Record, wall1: int, mono1: int, wall2: int, mono2: int)
    requires wall1 <= wall2 && mono1 <= mono2 && HeldBack(r, FloorMinute(wall2 - GRACE), mono2)
    ensures HeldBack(r, FloorMinute(wall1 - GRACE), mono1)
            || FloorMinute(wall1 - GRACE) <= BucketEnd(r.finish.value.wall) - MINUTE
  {
    var limit := FloorMinute(wall1 - GRACE);
    var end := BucketEnd(r.finish.value.wall);
    WholeMinute(wall1 - GRACE);
    WholeMinute(r.finish.value.wall);
    if end > limit {
      assert (end - limit) % MINUTE == 0;
    }
  }

  lemma WholeMinute(x: int)
    ensures FloorMinute(x) % MINUTE == 0
  {
  }

  /** Records that the first advance takes away do not hold the second one back. */
  lemma TargetIgnoresTheGone(st: Ledger, wall1: int, mono1: int, wall2: int, mono2: int)
    requires Inv(st) && wall1 <= wall2 && mono1 <= mono2
    ensures CloseTarget(Advance(st, wall1, mono1).records, wall2, mono2) == CloseTarget(st.records, wall2, mono2)
  {
    hide Inv, Advance;
    var a := Advance(st, wall1, mono1);
    var limit := FloorMinute(wall2 - GRACE);
    forall k ensures k in a.records && HeldBack(a.records[k], limit, mono2)
                     <==> k in st.records && HeldBack(st.records[k], limit, mono2)
             ensures k in a.records ==> k in st.records && a.records[k].finish == st.records[k].finish
    {
      if k in a.records {
        AdvanceRecord(st, wall1, mono1, k);
      } else if k in st.records {
        RetiredOnlyWhenDue(st, wall1, mono1, k);
      }
    }
    assert (set k | k in a.records && HeldBack(a.records[k], limit, mono2) ::
              BucketEnd(a.records[k].finish.value.wall) - MINUTE)
        == (set k | k in st.records && HeldBack(st.records[k], limit, mono2) ::
              BucketEnd(st.records[k].finish.value.wall) - MINUTE);
  }

  lemma FrontierConfluent(st: Ledger, wall1: int, mono1: int, wall2: int, mono2: int)
    requires Inv(st) && wall1 <= wall2 && mono1 <= mono2
    ensures FrontierAfter(Advance(st, wall1, mono1), wall2, mono2) == FrontierAfter(st, wall2, mono2)
    ensures AtMost(FrontierAfter(st, wall1, mono1), FrontierAfter(st, wall2, mono2))
  {
    hide Inv, Advance, CloseTarget;
    TargetMonotone(st.records, wall1, mono1, wall2, mono2);
    TargetIgnoresTheGone(st, wall1, mono1, wall2, mono2);
    AdvanceForm(st, wall1, mono1);
    AdvanceFields(st, wall1, mono1);
  }

  /** One record under two advances. */
  lemma DueTwice(r: Record, f1: Option<int>, wall1: int, mono1: int, f2: Option<int>, wall2: int, mono2: int)
    requires wall1 <= wall2 && mono1 <= mono2 && AtMost(f1, f2)
    ensures Due(r, f1, wall1, mono1) ==> Due(r, f2, wall2, mono2) && Last(r, mono1) == Last(r, mono2)
    ensures var s := MarkOverdue(r, mono1);
            && (Due(s, f2, wall2, mono2) <==> Due(r, f2, wall2, mono2)) && Last(s, mono2) == Last(r, mono2)
            && MarkOverdue(s, mono2) == MarkOverdue(r, mono2)
  {
  }

  lemma PrunedTwice(t: Tomb, wall1: int, mono1: int, wall2: int, mono2: int)
    requires wall1 <= wall2 && mono1 <= mono2
    ensures Prunable(t, wall1, mono1) ==> Prunable(t, wall2, mono2)
  {
  }

  lemma BuriedWhenever(r: Record, wall1: int, mono1: int, wall2: int, mono2: int)
    requires r.inclusion != PostCloseExcluded
    ensures Bury(Last(r, mono2), wall1, mono1) == Bury(Last(r, mono2), wall2, mono2)
  {
  }

  lemma SurvivorsConfluent(records: map<nat, Record>, f1: Option<int>, wall1: int, mono1: int,
                           f2: Option<int>, wall2: int, mono2: int)
    requires wall1 <= wall2 && mono1 <= mono2 && AtMost(f1, f2)
    ensures var left := Surviving(records, f1, wall1, mono1);
            && Surviving(left, f2, wall2, mono2) == Surviving(records, f2, wall2, mono2)
            && Dying(records, f1, wall1, mono1) + Dying(left, f2, wall2, mono2) == Dying(records, f2, wall2, mono2)
  {
    hide Due, Last, MarkOverdue;
    forall k | k in records
      ensures Due(records[k], f1, wall1, mono1) ==>
                Due(records[k], f2, wall2, mono2) && Last(records[k], mono1) == Last(records[k], mono2)
      ensures var s := MarkOverdue(records[k], mono1);
              && (Due(s, f2, wall2, mono2) <==> Due(records[k], f2, wall2, mono2))
              && Last(s, mono2) == Last(records[k], mono2) && MarkOverdue(s, mono2) == MarkOverdue(records[k], mono2)
    {
      DueTwice(records[k], f1, wall1, mono1, f2, wall2, mono2);
    }
  }

  /** The tombstones that the first advance makes and leaves are those the second would make of the same records. */
  lemma TombsConfluent(tombs: map<nat, Tomb>, d1: map<nat, Record>, d2: map<nat, Record>,
                       wall1: int, mono1: int, wall2: int, mono2: int)
    requires wall1 <= wall2 && mono1 <= mono2 && d1.Keys !! d2.Keys && tombs.Keys !! d1.Keys && tombs.Keys !! d2.Keys
    requires forall k :: k in d1 ==> Bury(d1[k], wall1, mono1) == Bury(d1[k], wall2, mono2)
    ensures Unpruned(Unpruned(tombs + Buried(d1, wall1, mono1), wall1, mono1) + Buried(d2, wall2, mono2), wall2, mono2)
            == Unpruned(tombs + Buried(d1 + d2, wall2, mono2), wall2, mono2)
  {
    hide Bury, Prunable;
    forall t: Tomb | Prunable(t, wall1, mono1) ensures Prunable(t, wall2, mono2) {
      PrunedTwice(t, wall1, mono1, wall2, mono2);
    }
  }

  lemma DyingBuriedWhenever(st: Ledger, f: Option<int>, wall1: int, mono1: int, wall2: int, mono2: int)
    requires Inv(st)
    ensures var d := Dying(st.records, f, wall1, mono1);
            forall k :: k in d ==> Bury(d[k], wall1, mono1) == Bury(d[k], wall2, mono2)
  {
    hide Inv, Bury, Due, Last;
    forall k | k in st.records
      ensures Bury(Last(st.records[k], mono1), wall1, mono1) == Bury(Last(st.records[k], mono1), wall2, mono2)
    {
      LiveIsNotLate(st, k);
      BuriedWhenever(st.records[k], wall2, mono2, wall1, mono1);
    }
  }

  lemma LiveIsNotLate(st: Ledger, k: nat)
    requires Inv(st) && k in st.records
    ensures st.records[k].inclusion != PostCloseExcluded
  {
    LiveRecordOk(st, k);
  }

  lemma KeysApart(st: Ledger, f1: Option<int>, wall1: int, mono1: int, f2: Option<int>, wall2: int, mono2: int)
    requires Inv(st)
    ensures var d1 := Dying(st.records, f1, wall1, mono1);
            var d2 := Dying(Surviving(st.records, f1, wall1, mono1), f2, wall2, mono2);
            d1.Keys !! d2.Keys && st.tombs.Keys !! d1.Keys && st.tombs.Keys !! d2.Keys
  {
    Disjoint(st, map[]);
    hide Inv, Due, Last, MarkOverdue;
  }

  /** What two advances and one have in common, before the derived parts are compared. */
  predicate SameCore(a: Ledger, b: Ledger) {
    a.records == b.records && a.retired == b.retired && a.tombs == b.tombs && a.frontier == b.frontier
  }

  lemma CoreConfluent(st: Ledger, wall1: int, mono1: int, wall2: int, mono2: int)
    requires Inv(st) && wall1 <= wall2 && mono1 <= mono2
    ensures SameCore(Advance(Advance(st, wall1, mono1), wall2, mono2), Advance(st, wall2, mono2))
  {
    hide Inv, Advance, FrontierAfter, Dying, Surviving, Unpruned, Buried;
    var a := Advance(st, wall1, mono1);
    var f1, f2 := FrontierAfter(st, wall1, mono1), FrontierAfter(st, wall2, mono2);
    AdvanceKeeps(st, wall1, mono1);
    AdvanceForm(st, wall1, mono1);
    AdvanceForm(a, wall2, mono2);
    AdvanceForm(st, wall2, mono2);
    FrontierConfluent(st, wall1, mono1, wall2, mono2);
    SurvivorsConfluent(st.records, f1, wall1, mono1, f2, wall2, mono2);
    var d1, d2 := Dying(st.records, f1, wall1, mono1), Dying(a.records, f2, wall2, mono2);
    KeysApart(st, f1, wall1, mono1, f2, wall2, mono2);
    DyingBuriedWhenever(st, f1, wall1, mono1, wall2, mono2);
    TombsConfluent(st.tombs, d1, d2, wall1, mono1, wall2, mono2);
    UnionAssociates(st.retired, d1, d2);
  }

  // ---- What the core determines ----

  lemma IdsDetermined(a: Ledger, b: Ledger)
    requires Inv(a) && Inv(b) && SameCore(a, b)
    ensures a.ids == b.ids
  {
    hide OwnersOk, OwnedIdsOk, RecordsOk, CumulativeOk, RegisteredOk, TombsOk, ChangesOk, FrozenOk, LineOk;
    forall i | i in a.ids ensures i in b.ids && b.ids[i] == a.ids[i] {
      IdCarriesOver(a.ids, b.ids, a.records, a.tombs, i);
    }
    forall i | i in b.ids ensures i in a.ids {
      IdCarriesOver(b.ids, a.ids, a.records, a.tombs, i);
    }
  }

  lemma IdCarriesOver(ids: map<Id, nat>, others: map<Id, nat>, records: map<nat, Record>, tombs: map<nat, Tomb>, i: Id)
    requires IdsOk(ids, records, tombs) && IdsOk(others, records, tombs) && i in ids
    ensures i in others && others[i] == ids[i]
  {
    var k := ids[i];
    if k in records {
      assert records[k].id == i;
    } else {
      assert tombs[k].id == i;
    }
  }

  lemma OwnersDetermined(a: Ledger, b: Ledger)
    requires Inv(a) && Inv(b) && SameCore(a, b)
    ensures a.owners == b.owners
  {
    hide Inv, Owns;
    OneToOne(a);
    OneToOne(b);
  }

  lemma OwnedIdsDetermined(a: Ledger, b: Ledger)
    requires Inv(a) && Inv(b) && SameCore(a, b) && a.ids == b.ids
    ensures a.ownedIds == b.ownedIds && a.identityPruned == b.identityPruned
  {
    hide IdsOk, OwnersOk, RecordsOk, CumulativeOk, RegisteredOk, ChangesOk, FrozenOk, LineOk, HasStarted;
    assert forall i :: i in a.ownedIds <==> i in a.ids && HasStarted(a.records, a.tombs, a.ids[i]);
    assert forall i :: i in b.ownedIds <==> i in b.ids && HasStarted(b.records, b.tombs, b.ids[i]);
    assert forall i :: i in a.ownedIds <==> i in b.ownedIds;
  }

  lemma TotalsDetermined(a: Ledger, b: Ledger)
    requires Inv(a) && Inv(b) && SameCore(a, b)
    ensures a.cumulative == b.cumulative && a.frozen == b.frozen && a.frozenThrough == b.frozenThrough
  {
    hide IdsOk, OwnersOk, OwnedIdsOk, RecordsOk, RegisteredOk, TombsOk, ChangesOk, RetiredRecordsOk;
  }

  /** Advancing in two steps is advancing in one. */
  lemma AdvanceIsConfluent(st: Ledger, wall1: int, mono1: int, wall2: int, mono2: int)
    requires Inv(st) && wall1 <= wall2 && mono1 <= mono2
    ensures Advance(Advance(st, wall1, mono1), wall2, mono2) == Advance(st, wall2, mono2)
  {
    hide Inv, Advance;
    var a := Advance(st, wall1, mono1);
    AdvanceKeeps(st, wall1, mono1);
    AdvanceKeeps(a, wall2, mono2);
    AdvanceKeeps(st, wall2, mono2);
    CoreConfluent(st, wall1, mono1, wall2, mono2);
    var b, c := Advance(a, wall2, mono2), Advance(st, wall2, mono2);
    IdsDetermined(b, c);
    OwnersDetermined(b, c);
    OwnedIdsDetermined(b, c);
    TotalsDetermined(b, c);
    SameFields(st, wall1, mono1, wall2, mono2);
    SameLedger(b, c);
  }

  predicate SameRest(a: Ledger, b: Ledger) {
    && a.start == b.start && a.maxRecords == b.maxRecords && a.jobs == b.jobs && a.nTotal == b.nTotal
    && a.admissionStopped == b.admissionStopped && a.indexError == b.indexError && a.clock == b.clock
    && a.registered == b.registered && a.changes == b.changes
  }

  lemma SameFields(st: Ledger, wall1: int, mono1: int, wall2: int, mono2: int)
    ensures SameRest(Advance(Advance(st, wall1, mono1), wall2, mono2), Advance(st, wall2, mono2))
  {
    hide Advance;
    AdvanceFields(st, wall1, mono1);
    AdvanceFields(st, wall2, mono2);
    AdvanceFields(Advance(st, wall1, mono1), wall2, mono2);
  }

  lemma SameLedger(a: Ledger, b: Ledger)
    requires SameCore(a, b) && SameRest(a, b) && a.ids == b.ids && a.owners == b.owners && a.ownedIds == b.ownedIds
    requires a.identityPruned == b.identityPruned
    requires a.cumulative == b.cumulative && a.frozen == b.frozen && a.frozenThrough == b.frozenThrough
    ensures a == b
  {
  }
}
