/** The cutover rows, the guarded updates that change them, and the publisher gate derived from reads that may be torn
    (app/atomic_cutover_durable.py, app/atomic_cutover_runtime.py, scripts/activate_atomic_fx.py). */
module Cutover {
  import opened Wrappers
  import opened RevisionKeys
  import opened Watermarks
  import opened WriteModes

  type SessionName = int
  type Owner = nat

  datatype Status = Idle | Running | Verified | Completed | FailedStatus | UnknownStatus

  datatype Control = Control(session: Option<SessionName>, generation: int, status: Status)

  /** What an asset row records as ready; `None` stands for a text that is not a JSON object of strings. */
  datatype AssetRow = AssetRow(ready: bool, vector: Option<map<FxSource, string>>, membership: int)

  const ASSETS: set<Asset> := {Usd, Jpy, Eur}

  predicate VectorValid(vector: Option<map<FxSource, string>>, members: set<FxSource>) {
    vector.Some? && vector.value != map[] && vector.value.Keys <= members
    && forall s :: s in vector.value ==> Parse(vector.value[s]).Some?
  }

  // ---- The gate ----

  datatype CutoverState = LegacyReady | HaltBlocked | AtomicBlocked | AtomicReady

  predicate AssetReady(a: AssetRow, members: set<FxSource>, membership: int) {
    a.ready && a.membership == membership && VectorValid(a.vector, members)
  }

  function DeriveState(writer: Mode, control: Option<Control>, assets: map<Asset, AssetRow>, members: set<FxSource>,
                       membership: int): CutoverState {
    if writer == Legacy then LegacyReady
    else if writer != Atomic then HaltBlocked
    else if control.None? || control.value.status == UnknownStatus then HaltBlocked
    else if control.value.status != Completed then AtomicBlocked
    else if control.value.session.None? || assets.Keys != ASSETS then HaltBlocked
    else if forall a :: a in assets ==> AssetReady(assets[a], members, membership) then AtomicReady
    else HaltBlocked
  }

  predicate GateOpen(s: CutoverState) { s == LegacyReady || s == AtomicReady }

  // ---- Guarded updates of the control row ----

  datatype Brick =
    | Begin(session: SessionName, expected: int)
    | Advance(expectedSession: Option<SessionName>, from: Status, to: Status, expected: int)
    | ResetToIdle(expectedSession: Option<SessionName>, expected: int)

  const PROGRESSION: set<(Status, Status)> :=
    {(Idle, Running), (Running, Verified), (Verified, Completed), (Running, FailedStatus), (Verified, FailedStatus)}

  predicate Fenced(c: Control, b: Brick) {
    c.generation == b.expected &&
    match b
    case Begin(_, _) => c.status == Idle && c.session.None?
    case Advance(session, from, _, _) => c.status == from && c.session == session
    case ResetToIdle(session, _) => c.status == FailedStatus && c.session == session
  }

  function Updated(c: Control, b: Brick): Control {
    match b
    case Begin(session, _) => Control(Some(session), c.generation + 1, Running)
    case Advance(_, _, to, _) => c.(status := to, generation := c.generation + 1)
    case ResetToIdle(_, _) => Control(None, c.generation + 1, Idle)
  }

  function RunBrick(c: Control, b: Brick): (Control, CasResult) {
    if b.Advance? && (b.from, b.to) !in PROGRESSION then (c, PreconditionFailed)
    else if Fenced(c, b) then (Updated(c, b), Applied)
    else (c, if c.generation > b.expected then CasLost else PreconditionFailed)
  }

  // ---- Guarded update of an asset row ----

  datatype Flip = Flip(vector: Option<map<FxSource, string>>, membership: int)

  function FlipReady(assets: map<Asset, AssetRow>, a: Asset, f: Flip, members: set<FxSource>)
    : (map<Asset, AssetRow>, CasResult)
  {
    if !VectorValid(f.vector, members) || f.membership <= 0 || a !in assets || assets[a].ready
    then (assets, PreconditionFailed)
    else (assets[a := AssetRow(true, f.vector, f.membership)], Applied)
  }

  // ---- Transactions ----

  datatype Rows = Rows(control: Control, assets: map<Asset, AssetRow>)

  datatype Transaction =
    | Single(brick: Brick)
    | Finalize(session: SessionName, expected: int, flips: Asset -> Flip)

  /** The three flips and the completion are one transaction: if any is refused, nothing happens. */
  function FinalizeRows(r: Rows, session: SessionName, expected: int, flips: Asset -> Flip, members: set<FxSource>)
    : (Rows, CasResult)
  {
    var (a1, r1) := FlipReady(r.assets, Usd, flips(Usd), members);
    if r1 != Applied then (r, r1)
    else
      var (a2, r2) := FlipReady(a1, Jpy, flips(Jpy), members);
      if r2 != Applied then (r, r2)
      else
        var (a3, r3) := FlipReady(a2, Eur, flips(Eur), members);
        if r3 != Applied then (r, r3)
        else
          var (c, r4) := RunBrick(r.control, Advance(Some(session), Verified, Completed, expected));
          if r4 != Applied then (r, r4) else (Rows(c, a3), Applied)
  }

  function Commit(r: Rows, t: Transaction, members: set<FxSource>): (Rows, CasResult) {
    match t
    case Single(b) => var (c, result) := RunBrick(r.control, b); (r.(control := c), result)
    case Finalize(session, expected, flips) => FinalizeRows(r, session, expected, flips, members)
  }

  /** Completion is left to the finalising transaction, and no step forward is made without a session. */
  predicate Orderly(t: Transaction) {
    t.Single? && t.brick.Advance? ==> t.brick.to != Completed && t.brick.expectedSession.Some?
  }

  function CommitAll(r: Rows, ts: seq<Transaction>, members: set<FxSource>): Rows
    decreases |ts|
  {
    if ts == [] then r else Commit(CommitAll(r, ts[..|ts| - 1], members), ts[|ts| - 1], members).0
  }

  const FRESH := Rows(Control(None, 0, Idle),
                      map[Usd := AssetRow(false, None, 0), Jpy := AssetRow(false, None, 0),
                          Eur := AssetRow(false, None, 0)])

  // ---- The tables, updated in place ----

  class CutoverTables {
    var control: Control
    var assets: map<Asset, AssetRow>
    const members: set<FxSource>

    ghost function Contents(): Rows
      reads this
    {
      Rows(control, assets)
    }

    constructor (members: set<FxSource>)
      ensures Contents() == FRESH && this.members == members
    {
      control, assets := FRESH.control, FRESH.assets;
      this.members := members;
    }

    method Apply(b: Brick) returns (result: CasResult)
      modifies this`control
      ensures Contents() == Commit(old(Contents()), Single(b), members).0
      ensures result == Commit(old(Contents()), Single(b), members).1
    {
      if b.Advance? && (b.from, b.to) !in PROGRESSION {
        return PreconditionFailed;
      }
      if Fenced(control, b) {
        match b {
          case Begin(session, _) => control := control.(status := Running, session := Some(session));
          case Advance(_, _, to, _) => control := control.(status := to);
          case ResetToIdle(_, _) => control := control.(status := Idle, session := None);
        }
        control := control.(generation := control.generation + 1);
        return Applied;
      }
      result := if control.generation > b.expected then CasLost else PreconditionFailed;
    }

    method FlipAsset(a: Asset, f: Flip) returns (result: CasResult)
      modifies this`assets
      ensures (assets, result) == FlipReady(old(assets), a, f, members)
    {
      if !VectorValid(f.vector, members) || f.membership <= 0 || a !in assets || assets[a].ready {
        return PreconditionFailed;
      }
      assets := assets[a := AssetRow(true, f.vector, f.membership)];
      result := Applied;
    }

    /** Staged updates are rolled back as soon as one is refused. */
    method FinalizeNow(session: SessionName, expected: int, flips: Asset -> Flip) returns (result: CasResult)
      modifies this
      ensures (Contents(), result) == Commit(old(Contents()), Finalize(session, expected, flips), members)
    {
      hide VectorValid;
      var before := assets;
      result := FlipAsset(Usd, flips(Usd));
      if result == Applied {
        result := FlipAsset(Jpy, flips(Jpy));
      }
      if result == Applied {
        result := FlipAsset(Eur, flips(Eur));
      }
      if result == Applied {
        result := Apply(Advance(Some(session), Verified, Completed, expected));
      }
      if result != Applied {
        assets := before;
      }
    }
  }

  // ---- What every reachable state satisfies ----

  predicate ReadyOk(a: AssetRow, members: set<FxSource>) {
    a.ready ==> VectorValid(a.vector, members) && a.membership > 0
  }

  predicate AssetsOk(assets: map<Asset, AssetRow>, members: set<FxSource>, completed: bool) {
    && assets.Keys == ASSETS
    && (forall a :: a in assets ==> ReadyOk(assets[a], members) && (assets[a].ready <==> completed))
  }

  predicate ControlOk(c: Control) {
    c.generation >= 0 && c.status != UnknownStatus && (c.session.None? <==> c.status == Idle)
  }

  predicate RowsOk(r: Rows, members: set<FxSource>) {
    ControlOk(r.control) && AssetsOk(r.assets, members, r.control.status == Completed)
  }

  lemma FlipKeeps(assets: map<Asset, AssetRow>, a: Asset, f: Flip, members: set<FxSource>)
    requires assets.Keys == ASSETS && a in ASSETS && forall b :: b in assets ==> ReadyOk(assets[b], members)
    ensures var (now, result) := FlipReady(assets, a, f, members);
            && now.Keys == ASSETS && (forall b :: b in now ==> ReadyOk(now[b], members))
            && (result == Applied ==> now[a].ready)
            && (forall b :: b in ASSETS && b != a ==> now[b] == assets[b])
  {
  }

  lemma FinalizeKeeps(r: Rows, session: SessionName, expected: int, flips: Asset -> Flip, members: set<FxSource>)
    requires RowsOk(r, members)
    ensures RowsOk(FinalizeRows(r, session, expected, flips, members).0, members)
  {
    var (a1, r1) := FlipReady(r.assets, Usd, flips(Usd), members);
    var (a2, r2) := FlipReady(a1, Jpy, flips(Jpy), members);
    FlipKeeps(r.assets, Usd, flips(Usd), members);
    FlipKeeps(a1, Jpy, flips(Jpy), members);
    FlipKeeps(a2, Eur, flips(Eur), members);
    hide FlipReady, ReadyOk;
  }

  lemma BrickKeeps(c: Control, b: Brick)
    requires ControlOk(c) && Orderly(Single(b))
    ensures ControlOk(RunBrick(c, b).0) && (RunBrick(c, b).0.status == Completed <==> c.status == Completed)
  {
  }

  lemma CommitKeeps(r: Rows, t: Transaction, members: set<FxSource>)
    requires RowsOk(r, members) && Orderly(t)
    ensures RowsOk(Commit(r, t, members).0, members)
  {
    hide AssetsOk, RunBrick, FinalizeRows, ControlOk;
    match t {
      case Single(b) => BrickKeeps(r.control, b);
      case Finalize(session, expected, flips) => FinalizeKeeps(r, session, expected, flips, members);
    }
  }

  predicate AllOrderly(ts: seq<Transaction>) { forall i :: 0 <= i < |ts| ==> Orderly(ts[i]) }

  lemma {:induction false} CommitAllKeeps(ts: seq<Transaction>, members: set<FxSource>)
    requires AllOrderly(ts)
    ensures RowsOk(CommitAll(FRESH, ts, members), members)
    decreases |ts|
  {
    hide RowsOk, Commit;
    if ts == [] {
      FreshOk(members);
    } else {
      CommitAllKeeps(ts[..|ts| - 1], members);
      CommitKeeps(CommitAll(FRESH, ts[..|ts| - 1], members), ts[|ts| - 1], members);
    }
  }

  lemma FreshOk(members: set<FxSource>)
    ensures RowsOk(FRESH, members)
  {
  }

  /** In every reachable state the session is empty exactly while the status is idle. */
  lemma SessionIsNullExactlyWhenIdle(ts: seq<Transaction>, members: set<FxSource>)
    requires AllOrderly(ts)
    ensures var c := CommitAll(FRESH, ts, members).control; c.session.None? <==> c.status == Idle
  {
    CommitAllKeeps(ts, members);
  }

  /** A step forward that names no session breaks that, and from a sound row only such a step does. */
  lemma OnlyASessionlessStepBreaksIt(c: Control, b: Brick)
    requires ControlOk(c)
    ensures var d := RunBrick(c, b).0;
            (d.session.None? <==> d.status == Idle)
            <==> !(b == Advance(None, Idle, Running, c.generation) && c.status == Idle)
  {
  }

  // ---- What a transaction needs, and what it leaves ----

  /** A step of the control row, from the row as it is; nothing follows completion, and a failure is only reset. */
  predicate Takes(c: Control, b: Brick) {
    && c.generation == b.expected
    && match b
       case Begin(_, _) => c.status == Idle && c.session.None?
       case Advance(session, from, to, _) =>
         && from == c.status && session == c.session
         && (match to
             case Running => c.status == Idle
             case Verified => c.status == Running
             case Completed => c.status == Verified
             case FailedStatus => c.status == Running || c.status == Verified
             case Idle => false
             case UnknownStatus => false)
       case ResetToIdle(session, _) => c.status == FailedStatus && session == c.session
  }

  /** Some asset source is given, all of them are known, and each has a proper key. */
  predicate ProperVector(vector: Option<map<FxSource, string>>, members: set<FxSource>) {
    && vector.Some? && vector.value.Keys != {}
    && forall s :: s in vector.value.Keys ==> s in members && Parse(vector.value[s]).Some?
  }

  predicate ProperFlip(f: Flip, members: set<FxSource>) { ProperVector(f.vector, members) && f.membership >= 1 }

  lemma VectorIsProper(vector: Option<map<FxSource, string>>, members: set<FxSource>)
    ensures VectorValid(vector, members) <==> ProperVector(vector, members)
  {
  }

  /** Of any control row: a step is applied exactly if the row takes it, and lost exactly if it expected an earlier
      generation and could have been a step at all; it names the session and the status that the step asks for. */
  lemma BrickExactlyWhen(c: Control, b: Brick)
    ensures var (d, result) := RunBrick(c, b);
            && (result == Applied <==> Takes(c, b))
            && (result == CasLost
                <==> c.generation > b.expected
                     && (b.Advance? ==> (b.from == Idle && b.to == Running) || (b.from == Running && b.to == Verified)
                                        || (b.from == Verified && b.to == Completed)
                                        || (b.to == FailedStatus && b.from in {Running, Verified})))
            && (result != Applied ==> d == c)
            && (result == Applied ==>
                  && d.generation == c.generation + 1
                  && (b.Begin? ==> d.status == Running && d.session == Some(b.session))
                  && (b.Advance? ==> d.status == b.to && d.session == c.session)
                  && (b.ResetToIdle? ==> d.status == Idle && d.session == None))
  {
  }

  lemma FlipExactlyWhen(assets: map<Asset, AssetRow>, a: Asset, f: Flip, members: set<FxSource>)
    ensures var (now, result) := FlipReady(assets, a, f, members);
            && (result == Applied <==> a in assets && !assets[a].ready && ProperFlip(f, members))
            && now == if result == Applied then assets[a := AssetRow(true, f.vector, f.membership)] else assets
  {
    VectorIsProper(f.vector, members);
    hide VectorValid, ProperVector;
  }

  /** The cutover is verified under this session and generation, no asset is ready, and all three flips are proper. */
  predicate Finalizable(r: Rows, session: SessionName, expected: int, flips: Asset -> Flip, members: set<FxSource>) {
    && r.control == Control(Some(session), expected, Verified)
    && (forall a :: a in ASSETS ==> a in r.assets && !r.assets[a].ready && ProperFlip(flips(a), members))
  }

  function Flipped(f: Flip): AssetRow { AssetRow(true, f.vector, f.membership) }

  lemma FinalizeRowsExactlyWhen(r: Rows, session: SessionName, expected: int, flips: Asset -> Flip,
                                members: set<FxSource>)
    ensures var (s, result) := FinalizeRows(r, session, expected, flips, members);
            && (result == Applied <==> Finalizable(r, session, expected, flips, members))
            && s == if result != Applied then r
                    else Rows(Control(Some(session), expected + 1, Completed),
                              r.assets[Usd := Flipped(flips(Usd))][Jpy := Flipped(flips(Jpy))]
                              [Eur := Flipped(flips(Eur))])
  {
    hide FlipReady, RunBrick, ProperFlip;
    FlipExactlyWhen(r.assets, Usd, flips(Usd), members);
    var a1 := FlipReady(r.assets, Usd, flips(Usd), members).0;
    FlipExactlyWhen(a1, Jpy, flips(Jpy), members);
    var a2 := FlipReady(a1, Jpy, flips(Jpy), members).0;
    FlipExactlyWhen(a2, Eur, flips(Eur), members);
    BrickExactlyWhen(r.control, Advance(Some(session), Verified, Completed, expected));
  }

  lemma NoneReady(r: Rows, members: set<FxSource>)
    requires RowsOk(r, members) && r.control.status == Verified
    ensures forall a :: a in ASSETS ==> a in r.assets && !r.assets[a].ready
  {
    hide ReadyOk;
  }

  lemma SoundRowsFinalize(r: Rows, session: SessionName, expected: int, flips: Asset -> Flip, members: set<FxSource>)
    requires RowsOk(r, members)
    ensures Finalizable(r, session, expected, flips, members)
            <==> && r.control == Control(Some(session), expected, Verified)
                 && ProperFlip(flips(Usd), members) && ProperFlip(flips(Jpy), members)
                 && ProperFlip(flips(Eur), members)
  {
    hide RowsOk, ProperFlip;
    if r.control.status == Verified {
      NoneReady(r, members);
    }
  }

  lemma AllFlipped(assets: map<Asset, AssetRow>, flips: Asset -> Flip)
    requires assets.Keys == ASSETS
    ensures var now := assets[Usd := Flipped(flips(Usd))][Jpy := Flipped(flips(Jpy))][Eur := Flipped(flips(Eur))];
            now == map[Usd := Flipped(flips(Usd)), Jpy := Flipped(flips(Jpy)), Eur := Flipped(flips(Eur))]
  {
  }

  /** In every orderly run the cutover is finalised exactly if it is verified under this session and generation and all
      three flips are proper; then all three assets are ready as flipped and the row is completed. */
  lemma FinalizesExactlyWhen(ts: seq<Transaction>, members: set<FxSource>, session: SessionName, expected: int,
                             flips: Asset -> Flip)
    requires AllOrderly(ts)
    ensures var r := CommitAll(FRESH, ts, members);
            var (s, result) := Commit(r, Finalize(session, expected, flips), members);
            && (result == Applied
                <==> && r.control == Control(Some(session), expected, Verified) && ProperFlip(flips(Usd), members)
                     && ProperFlip(flips(Jpy), members) && ProperFlip(flips(Eur), members))
            && s == if result != Applied then r
                    else Rows(Control(Some(session), expected + 1, Completed),
                              map[Usd := Flipped(flips(Usd)), Jpy := Flipped(flips(Jpy)), Eur := Flipped(flips(Eur))])
  {
    hide CommitAll, FinalizeRows, ProperFlip, AssetsOk, Flipped, Finalizable;
    CommitAllKeeps(ts, members);
    var r := CommitAll(FRESH, ts, members);
    FinalizeRowsExactlyWhen(r, session, expected, flips, members);
    SoundRowsFinalize(r, session, expected, flips, members);
    assert r.assets.Keys == ASSETS by { SoundKeys(r, members); }
    AllFlipped(r.assets, flips);
  }

  lemma SoundKeys(r: Rows, members: set<FxSource>)
    requires RowsOk(r, members)
    ensures r.assets.Keys == ASSETS
  {
  }

  predicate ReadyFor(a: AssetRow, members: set<FxSource>, membership: int) {
    a.ready && a.membership == membership && ProperVector(a.vector, members)
  }

  /** Of any rows: the gate follows the writer's mode, and for an atomic writer it is ready exactly if the cutover is
      completed under a session and each of the three assets is ready with a proper vector of the present membership,
      and blocked exactly while the cutover is under way or has failed. */
  lemma GateExactlyWhen(writer: Mode, control: Option<Control>, assets: map<Asset, AssetRow>, members: set<FxSource>,
                        membership: int)
    ensures var s := DeriveState(writer, control, assets, members, membership);
            && (s == LegacyReady <==> writer == Legacy)
            && (s == AtomicReady
                <==> && writer == Atomic && control.Some? && control.value.status == Completed
                     && control.value.session.Some? && assets.Keys == {Usd, Jpy, Eur}
                     && forall a :: a in assets ==> ReadyFor(assets[a], members, membership))
            && (s == AtomicBlocked
                <==> && writer == Atomic && control.Some?
                     && control.value.status in {Idle, Running, Verified, FailedStatus})
  {
    forall a | a in assets
      ensures VectorValid(assets[a].vector, members) <==> ProperVector(assets[a].vector, members)
    {
      VectorIsProper(assets[a].vector, members);
    }
    hide VectorValid, ProperVector;
  }

  // ---- Later rows ----

  predicate NoLessReady(a: AssetRow, b: AssetRow) { a.ready ==> b == a }

  predicate Later(r: Rows, s: Rows) {
    && r.control.generation <= s.control.generation
    && (r.control.generation == s.control.generation ==> s.control == r.control)
    && (r.control.status == Completed ==> s.control == r.control)
    && r.assets.Keys == s.assets.Keys && (forall a :: a in r.assets ==> NoLessReady(r.assets[a], s.assets[a]))
  }

  lemma LaterTransitive(r: Rows, s: Rows, t: Rows)
    requires Later(r, s) && Later(s, t)
    ensures Later(r, t)
  {
    forall a | a in r.assets ensures NoLessReady(r.assets[a], t.assets[a]) {
      assert NoLessReady(r.assets[a], s.assets[a]) && NoLessReady(s.assets[a], t.assets[a]);
    }
  }

  lemma CommitLater(r: Rows, t: Transaction, members: set<FxSource>)
    requires r.assets.Keys == ASSETS
    ensures Later(r, Commit(r, t, members).0)
  {
    hide VectorValid;
  }

  lemma {:induction false} RowsOnlyAdvance(ts: seq<Transaction>, members: set<FxSource>, i: nat)
    requires AllOrderly(ts) && i <= |ts|
    ensures Later(CommitAll(FRESH, ts[..i], members), CommitAll(FRESH, ts, members))
    decreases |ts|
  {
    if i == |ts| {
      assert ts[..i] == ts;
    } else {
      var before := ts[..|ts| - 1];
      assert before[..i] == ts[..i];
      RowsOnlyAdvance(before, members, i);
      CommitAllKeeps(before, members);
      CommitLater(CommitAll(FRESH, before, members), ts[|ts| - 1], members);
      LaterTransitive(CommitAll(FRESH, ts[..i], members), CommitAll(FRESH, before, members),
                      CommitAll(FRESH, ts, members));
    }
  }

  /** Each generation is consumed at most once, and a lost update stays lost. */
  lemma LostIsFinal(r: Rows, b: Brick, s: Rows)
    requires Later(r, s) && RunBrick(r.control, b).1 == CasLost
    ensures RunBrick(s.control, b).1 != Applied
  {
  }

  lemma AppliedMovesOn(c: Control, b: Brick)
    requires RunBrick(c, b).1 == Applied
    ensures b.expected == c.generation && RunBrick(c, b).0.generation == c.generation + 1
  {
  }

  /** Two updates that expect the same generation are not both applied, wherever in a run they come. */
  lemma GenerationsAreUsedOnce(ts: seq<Transaction>, members: set<FxSource>, i: nat, b: Brick, d: Brick)
    requires AllOrderly(ts) && i < |ts| && ts[i] == Single(b) && b.expected == d.expected
    requires RunBrick(CommitAll(FRESH, ts[..i], members).control, b).1 == Applied
    ensures RunBrick(CommitAll(FRESH, ts, members).control, d).1 != Applied
  {
    var before := CommitAll(FRESH, ts[..i], members);
    AppliedMovesOn(before.control, b);
    assert ts[..i + 1][..i] == ts[..i];
    assert CommitAll(FRESH, ts[..i + 1], members) == Commit(before, ts[i], members).0;
    RowsOnlyAdvance(ts, members, i + 1);
  }

  // ---- The gate under torn reads ----

  /** The control row is read first and the assets at any later moment.  The gate says ready exactly when the control
      row that was read is completed and what was recorded as ready is of the present membership. */
  lemma TornReadIsSound(ts: seq<Transaction>, i: nat, members: set<FxSource>, membership: int)
    requires AllOrderly(ts) && i <= |ts|
    ensures var c := CommitAll(FRESH, ts[..i], members).control;
            var assets := CommitAll(FRESH, ts, members).assets;
            DeriveState(Atomic, Some(c), assets, members, membership) == AtomicReady
            <==> c.status == Completed && forall a :: a in assets ==> assets[a].membership == membership
    ensures var c := CommitAll(FRESH, ts[..i], members).control;
            var rows := CommitAll(FRESH, ts, members);
            DeriveState(Atomic, Some(c), rows.assets, members, membership) == AtomicReady ==>
              rows.control == c && forall a :: a in ASSETS ==> rows.assets[a].ready
  {
    assert AllOrderly(ts[..i]);
    CommitAllKeeps(ts[..i], members);
    CommitAllKeeps(ts, members);
    RowsOnlyAdvance(ts, members, i);
    hide CommitAll;
    DeriveWhenSound(CommitAll(FRESH, ts[..i], members), CommitAll(FRESH, ts, members), members, membership);
  }

  lemma DeriveWhenSound(r: Rows, s: Rows, members: set<FxSource>, membership: int)
    requires RowsOk(r, members) && RowsOk(s, members) && Later(r, s)
    ensures DeriveState(Atomic, Some(r.control), s.assets, members, membership) == AtomicReady
            <==> r.control.status == Completed && forall a :: a in s.assets ==> s.assets[a].membership == membership
    ensures DeriveState(Atomic, Some(r.control), s.assets, members, membership) == AtomicReady ==>
              s.control == r.control && forall a :: a in ASSETS ==> s.assets[a].ready
  {
    hide VectorValid;
  }

  /** Once it has said so, no later transaction takes it back. */
  lemma ReadyStaysReady(ts: seq<Transaction>, i: nat, j: nat, members: set<FxSource>, membership: int)
    requires AllOrderly(ts) && i <= j <= |ts|
    requires DeriveState(Atomic, Some(CommitAll(FRESH, ts[..i], members).control),
                         CommitAll(FRESH, ts[..j], members).assets,
                         members, membership) == AtomicReady
    ensures DeriveState(Atomic, Some(CommitAll(FRESH, ts, members).control), CommitAll(FRESH, ts, members).assets,
                        members, membership) == AtomicReady
  {
    assert ts[..j][..i] == ts[..i];
    assert AllOrderly(ts[..j]);
    TornReadIsSound(ts[..j], i, members, membership);
    CommitAllKeeps(ts[..j], members);
    CommitAllKeeps(ts, members);
    RowsOnlyAdvance(ts, members, j);
    hide CommitAll, VectorValid;
    var s, t := CommitAll(FRESH, ts[..j], members), CommitAll(FRESH, ts, members);
    forall a | a in t.assets ensures AssetReady(t.assets[a], members, membership) {
      assert NoLessReady(s.assets[a], t.assets[a]);
    }
  }

  // ---- The cached snapshot ----

  datatype GateSnapshot = GateSnapshot(state: CutoverState, session: Option<SessionName>, generation: int,
                                       status: Status,
                                       open: bool, readOk: bool)

  const INITIAL_GATE := GateSnapshot(LegacyReady, None, 0, Idle, true, false)

  /** What one refresh has read; `None` stands for a read that failed. */
  datatype GateRead = GateRead(writer: Mode, control: Option<Control>, assets: map<Asset, AssetRow>)

  function RefreshGate(prev: GateSnapshot, read: Option<GateRead>, members: set<FxSource>, membership: int)
    : GateSnapshot
  {
    match read
    case None => prev.(state := HaltBlocked, open := false, readOk := false)
    case Some(r) =>
      var state := DeriveState(r.writer, r.control, r.assets, members, membership);
      GateSnapshot(state, if r.control.Some? then r.control.value.session else None,
                   if r.control.Some? && r.control.value.generation > prev.generation then r.control.value.generation
                   else prev.generation,
                   if r.control.Some? then r.control.value.status else Idle, GateOpen(state), true)
  }

  class GateCache {
    var current: GateSnapshot

    constructor ()
      ensures current == INITIAL_GATE
    {
      current := INITIAL_GATE;
    }

    method RefreshFrom(read: Option<GateRead>, members: set<FxSource>, membership: int)
      modifies this
      ensures current == RefreshGate(old(current), read, members, membership)
      ensures old(current).generation <= current.generation
    {
      match read {
        case None => current := current.(state := HaltBlocked, open := false, readOk := false);
        case Some(r) =>
          var state := DeriveState(r.writer, r.control, r.assets, members, membership);
          var generation := current.generation;
          var session, status := None, Idle;
          if r.control.Some? {
            session, status := r.control.value.session, r.control.value.status;
            if r.control.value.generation > generation {
              generation := r.control.value.generation;
            }
          }
          current := GateSnapshot(state, session, generation, status, GateOpen(state), true);
      }
    }
  }

  /** The gate of an atomic writer is open only on a ready read; a failed read closes it. */
  lemma GateOpensOnlyWhenReady(prev: GateSnapshot, read: Option<GateRead>, members: set<FxSource>, membership: int)
    ensures var now := RefreshGate(prev, read, members, membership);
            now.open <==> read.Some? && (read.value.writer == Legacy
                          || DeriveState(read.value.writer, read.value.control, read.value.assets, members, membership)
                             == AtomicReady)
  {
  }

  // ---- The migration lease ----

  /** Holder and expiry of the lease; `claims` is what each runner was last told and has not given back. */
  datatype Lease = Lease(owner: Option<Owner>, expiry: int, claims: map<Owner, int>)

  datatype LeaseEvent =
    | Acquire(owner: Owner, now: int, ttl: int)
    | Renew(owner: Owner, now: int, ttl: int)
    | Release(owner: Owner, now: int)

  function RunLease(l: Lease, e: LeaseEvent): Lease {
    match e
    case Acquire(o, now, ttl) =>
      if ttl > 0 && (l.owner.None? || l.expiry < now || l.owner == Some(o))
      then Lease(Some(o), now + ttl, l.claims[o := now + ttl]) else l
    case Renew(o, now, ttl) =>
      if ttl > 0 && l.owner == Some(o) && l.expiry >= now
      then Lease(Some(o), now + ttl, l.claims[o := now + ttl]) else l
    case Release(o, _) => if l.owner == Some(o) then Lease(None, l.expiry, l.claims - {o}) else l
  }

  function RunLeases(events: seq<LeaseEvent>): Lease
    decreases |events|
  {
    if events == [] then Lease(None, 0, map[]) else RunLease(RunLeases(events[..|events| - 1]), events[|events| - 1])
  }

  predicate InTime(events: seq<LeaseEvent>) { forall i, j :: 0 <= i < j < |events| ==> events[i].now <= events[j].now }

  predicate LeaseOk(l: Lease, now: int) {
    && (forall o :: o in l.claims && l.owner != Some(o) ==> l.claims[o] < now)
    && (l.owner.Some? ==> l.owner.value in l.claims && l.claims[l.owner.value] == l.expiry)
  }

  lemma {:induction false} LeaseHolds(events: seq<LeaseEvent>, now: int)
    requires InTime(events) && (events != [] ==> events[|events| - 1].now <= now)
    ensures LeaseOk(RunLeases(events), now)
    decreases |events|
  {
    if events != [] {
      var before := events[..|events| - 1];
      LeaseHolds(before, events[|events| - 1].now);
    }
  }

  /** At any moment at most one runner has a lease that has not expired, and it is the recorded holder. */
  lemma LeaseIsExclusive(events: seq<LeaseEvent>, now: int, o: Owner)
    requires InTime(events) && (events != [] ==> events[|events| - 1].now <= now)
    requires var l := RunLeases(events); o in l.claims && l.claims[o] >= now
    ensures RunLeases(events).owner == Some(o)
  {
    LeaseHolds(events, now);
  }

  /** What another runner was told last, and has not given back, is still good. */
  predicate Unexpired(l: Lease, o: Owner, now: int) { o in l.claims && l.claims[o] >= now }

  lemma LeaseSnoc(events: seq<LeaseEvent>, e: LeaseEvent)
    ensures RunLeases(events + [e]) == RunLease(RunLeases(events), e)
  {
    assert (events + [e])[..|events|] == events;
  }

  lemma SoundLease(l: Lease, o: Owner, now: int, ttl: int)
    requires LeaseOk(l, now)
    ensures var given := Lease(Some(o), now + ttl, l.claims[o := now + ttl]);
            && RunLease(l, Acquire(o, now, ttl))
            == (if ttl > 0 && forall p: Owner :: p != o ==> !Unexpired(l, p, now) then given else l)
            && RunLease(l, Renew(o, now, ttl)) == (if ttl > 0 && Unexpired(l, o, now) then given else l)
  {
    if l.owner.Some? && l.owner.value != o && l.expiry >= now {
      assert Unexpired(l, l.owner.value, now);
    }
  }

  /** In every run a runner gets the lease exactly if no other one holds an unexpired claim, and renews it exactly if
      its own claim has not expired; then its claim runs for the time it asked for, which must be positive. */
  lemma LeasesExactlyWhen(events: seq<LeaseEvent>, o: Owner, now: int, ttl: int)
    requires InTime(events) && (events != [] ==> events[|events| - 1].now <= now)
    ensures var l := RunLeases(events);
            var given := Lease(Some(o), now + ttl, l.claims[o := now + ttl]);
            && RunLeases(events + [Acquire(o, now, ttl)])
               == (if ttl > 0 && forall p: Owner :: p != o ==> !Unexpired(l, p, now) then given else l)
            && RunLeases(events + [Renew(o, now, ttl)]) == (if ttl > 0 && Unexpired(l, o, now) then given else l)
  {
    hide RunLeases, RunLease, LeaseOk, Unexpired;
    LeaseHolds(events, now);
    LeaseSnoc(events, Acquire(o, now, ttl));
    LeaseSnoc(events, Renew(o, now, ttl));
    SoundLease(RunLeases(events), o, now, ttl);
  }

  /** A holder that gives the lease back leaves it to whoever asks next. */
  lemma ReleaseFreesIt(events: seq<LeaseEvent>, o: Owner, p: Owner, now: int, later: int, ttl: int)
    requires InTime(events) && (events != [] ==> events[|events| - 1].now <= now) && now <= later && ttl > 0
    requires Unexpired(RunLeases(events), o, now)
    ensures RunLeases(events + [Release(o, now), Acquire(p, later, ttl)]).owner == Some(p)
  {
    LeaseIsExclusive(events, now, o);
    hide RunLeases;
    LeaseSnoc(events, Release(o, now));
    LeaseSnoc(events + [Release(o, now)], Acquire(p, later, ttl));
    assert events + [Release(o, now), Acquire(p, later, ttl)] == events + [Release(o, now)] + [Acquire(p, later, ttl)];
  }
}
