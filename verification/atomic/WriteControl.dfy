/** Writer modes, and the answers of a guarded update. */
module WriteModes {
  datatype Mode = Legacy | Atomic | Halt | UnknownMode
  datatype CasResult = Applied | CasLost | PreconditionFailed
}

/** The durable writer-mode row and the only operations that change it (app/atomic_write_control.py,
    app/atomic_write_durable.py). */
module WriteControls {
  import opened Wrappers
  import opened WriteModes

  datatype Row = Row(format: int, mode: Mode, epoch: int, generation: int, protocol: int, schema: int)

  const FORMAT := 1
  const SCHEMA_SEED := 1
  const PROTOCOL_SEED := 1
  const ATOMIC_SCHEMA_FLOOR := 2

  const SEED := Row(FORMAT, Legacy, 0, 0, PROTOCOL_SEED, SCHEMA_SEED)

  /** The mode that is in effect; whatever is not understood halts. */
  function EffectiveMode(row: Option<Row>): Mode {
    match row
    case None => Halt
    case Some(r) =>
      if r.mode == UnknownMode || r.format != FORMAT || r.epoch < 0 || r.schema < 1 then Halt
      else match r.mode
        case Halt => Halt
        case Legacy => if r.epoch > 0 then Halt else Legacy
        case Atomic => if r.epoch > 0 && r.schema >= ATOMIC_SCHEMA_FLOOR then Atomic else Halt
        case UnknownMode => Halt
  }

  // ---- Guarded updates ----

  datatype Brick =
    | RequestHalt(expected: int)
    | IncidentHalt(expected: int)
    | Activate(expected: int, expectedEpoch: int, protocol: int, schema: int)

  predicate ParametersOk(b: Brick) {
    b.expected >= 0 &&
    (b.Activate? ==> b.expectedEpoch >= 0 && b.schema >= ATOMIC_SCHEMA_FLOOR && b.protocol >= PROTOCOL_SEED)
  }

  function ModeRequired(b: Brick): Mode {
    match b
    case RequestHalt(_) => Legacy
    case IncidentHalt(_) => Atomic
    case Activate(_, _, _, _) => Halt
  }

  predicate Fenced(r: Row, b: Brick) {
    r.format == FORMAT && r.generation == b.expected && r.mode == ModeRequired(b)
    && (b.Activate? ==> r.epoch == b.expectedEpoch)
  }

  function Updated(r: Row, b: Brick): Row {
    match b
    case RequestHalt(g) => r.(mode := Halt, generation := g + 1)
    case IncidentHalt(g) => r.(mode := Halt, generation := g + 1)
    case Activate(g, e, p, s) => r.(mode := Atomic, epoch := e + 1, generation := g + 1, protocol := p, schema := s)
  }

  /** Why an update found no row: someone else has moved on, or it could never have applied. */
  function Disambiguate(row: Option<Row>, b: Brick): CasResult {
    match row
    case None => PreconditionFailed
    case Some(r) =>
      if r.format != FORMAT then PreconditionFailed
      else if r.generation > b.expected then CasLost
      else if b.Activate? && r.epoch > b.expectedEpoch then CasLost
      else PreconditionFailed
  }

  function Run1(row: Option<Row>, b: Brick): (Option<Row>, CasResult) {
    if !ParametersOk(b) then (row, PreconditionFailed)
    else if row.Some? && Fenced(row.value, b) then (Some(Updated(row.value, b)), Applied)
    else (row, Disambiguate(row, b))
  }

  function RunAll(row: Row, bricks: seq<Brick>): Row
    decreases |bricks|
  {
    if bricks == [] then row
    else Run1(Some(RunAll(row, bricks[..|bricks| - 1])), bricks[|bricks| - 1]).0.GetOr(row)
  }

  /** The table with its single row. */
  class ControlTable {
    var row: Option<Row>

    constructor ()
      ensures row == Some(SEED)
    {
      row := Some(SEED);
    }

    method RequestHaltFor(expected: int) returns (result: CasResult)
      modifies this
      ensures (row, result) == Run1(old(row), RequestHalt(expected))
    {
      if expected < 0 {
        return PreconditionFailed;
      }
      if row.Some? && row.value.format == FORMAT && row.value.generation == expected && row.value.mode == Legacy {
        row := Some(row.value.(mode := Halt, generation := expected + 1));
        return Applied;
      }
      result := Disambiguate(row, RequestHalt(expected));
    }

    method IncidentHaltFor(expected: int) returns (result: CasResult)
      modifies this
      ensures (row, result) == Run1(old(row), IncidentHalt(expected))
    {
      if expected < 0 {
        return PreconditionFailed;
      }
      if row.Some? && row.value.format == FORMAT && row.value.generation == expected && row.value.mode == Atomic {
        row := Some(row.value.(mode := Halt, generation := expected + 1));
        return Applied;
      }
      result := Disambiguate(row, IncidentHalt(expected));
    }

    method ActivateFor(expected: int, expectedEpoch: int, protocol: int, schema: int) returns (result: CasResult)
      modifies this
      ensures (row, result) == Run1(old(row), Activate(expected, expectedEpoch, protocol, schema))
    {
      if expected < 0 || expectedEpoch < 0 || schema < ATOMIC_SCHEMA_FLOOR || protocol < PROTOCOL_SEED {
        return PreconditionFailed;
      }
      if row.Some? && row.value.format == FORMAT && row.value.generation == expected && row.value.mode == Halt
         && row.value.epoch == expectedEpoch {
        row := Some(row.value.(mode := Atomic, epoch := expectedEpoch + 1, generation := expected + 1,
                               protocol := protocol, schema := schema));
        return Applied;
      }
      result := Disambiguate(row, Activate(expected, expectedEpoch, protocol, schema));
    }
  }

  // ---- Reachable rows ----

  predicate RowOk(r: Row) {
    && r.format == FORMAT && r.epoch >= 0 && r.generation >= r.epoch && r.schema >= 1 && r.protocol >= PROTOCOL_SEED
    && r.mode != UnknownMode
    && (r.mode == Legacy <==> r.generation == 0)
    && (r.mode == Legacy ==> r.epoch == 0)
    && (r.mode == Atomic ==> r.epoch > 0)
    && (r.epoch > 0 ==> r.schema >= ATOMIC_SCHEMA_FLOOR)
  }

  lemma Run1Keeps(r: Row, b: Brick)
    requires RowOk(r)
    ensures Run1(Some(r), b).0.Some? && RowOk(Run1(Some(r), b).0.value)
  {
  }

  lemma {:induction false} RunAllKeeps(bricks: seq<Brick>)
    ensures RowOk(RunAll(SEED, bricks))
    decreases |bricks|
  {
    if bricks != [] {
      RunAllKeeps(bricks[..|bricks| - 1]);
      Run1Keeps(RunAll(SEED, bricks[..|bricks| - 1]), bricks[|bricks| - 1]);
    }
  }

  /** In every reachable row the mode in effect is the mode that was requested. */
  lemma EffectiveIsRequested(bricks: seq<Brick>)
    ensures var r := RunAll(SEED, bricks); EffectiveMode(Some(r)) == r.mode
  {
    RunAllKeeps(bricks);
  }

  /** Of any row: legacy and atomic mode are in effect exactly where the row is of the known format and its history and
      schema bear them out. */
  lemma EffectiveExactlyWhen(row: Option<Row>)
    ensures EffectiveMode(row) == Legacy
            <==> row.Some? && var r := row.value; r.format == 1 && r.mode == Legacy && r.epoch == 0 && r.schema >= 1
    ensures EffectiveMode(row) == Atomic
            <==> row.Some? && var r := row.value; r.format == 1 && r.mode == Atomic && r.epoch > 0 && r.schema >= 2
    ensures EffectiveMode(row) in {Legacy, Atomic, Halt}
  {
  }

  /** What an update asks of the row it is made for. */
  predicate Meets(r: Row, b: Brick) {
    && 0 <= b.expected == r.generation
    && match b
       case RequestHalt(_) => r.mode == Legacy
       case IncidentHalt(_) => r.mode == Atomic
       case Activate(_, epoch, protocol, schema) => r.mode == Halt && epoch == r.epoch && protocol >= 1 && schema >= 2
  }

  /** What has made an update come too late. */
  predicate Overtaken(r: Row, b: Brick) {
    || r.generation > b.expected
    || (b.Activate? && r.epoch > b.expectedEpoch)
  }

  predicate Sensible(b: Brick) {
    b.expected >= 0 && (b.Activate? ==> b.expectedEpoch >= 0 && b.protocol >= 1 && b.schema >= 2)
  }

  /** In every run of updates the next one is applied exactly if the row is as it expects: then it takes the next
      generation, and an activation the next epoch with the protocol and schema it names. */
  lemma UpdatesExactlyWhen(bricks: seq<Brick>, b: Brick)
    ensures var r := RunAll(SEED, bricks);
            var (after, answer) := Run1(Some(r), b);
            && (answer == Applied <==> Meets(r, b))
            && (answer == CasLost <==> Sensible(b) && Overtaken(r, b))
            && after == Some(if !Meets(r, b) then r
                             else if b.Activate?
                             then Row(1, Atomic, r.epoch + 1, r.generation + 1, b.protocol, b.schema)
                             else Row(1, Halt, r.epoch, r.generation + 1, r.protocol, r.schema))
  {
    RunAllKeeps(bricks);
    hide RunAll;
  }

  /** The updates of a run that were applied when their turn came. */
  ghost function AppliedOf(bricks: seq<Brick>): set<nat> {
    set i: nat | i < |bricks| && Meets(RunAll(SEED, bricks[..i]), bricks[i])
  }

  ghost function ActivationsOf(bricks: seq<Brick>): set<nat> {
    set i: nat | i < |bricks| && Meets(RunAll(SEED, bricks[..i]), bricks[i]) && bricks[i].Activate?
  }

  /** In every run the generation counts the updates that were applied, and the epoch the activations among them. */
  lemma {:induction false} CountsUpdates(bricks: seq<Brick>)
    ensures var r := RunAll(SEED, bricks); r.generation == |AppliedOf(bricks)| && r.epoch == |ActivationsOf(bricks)|
    decreases |bricks|
  {
    if bricks == [] {
      assert AppliedOf(bricks) == {} && ActivationsOf(bricks) == {};
    } else {
      var last := |bricks| - 1;
      var before, b := bricks[..last], bricks[last];
      CountsUpdates(before);
      UpdatesExactlyWhen(before, b);
      AppliedMore(bricks);
      hide AppliedOf, ActivationsOf, Meets;
    }
  }

  lemma AppliedMore(bricks: seq<Brick>)
    requires bricks != []
    ensures var last := |bricks| - 1;
            var applied := Meets(RunAll(SEED, bricks[..last]), bricks[last]);
            && |AppliedOf(bricks)| == |AppliedOf(bricks[..last])| + (if applied then 1 else 0)
            && |ActivationsOf(bricks)|
               == |ActivationsOf(bricks[..last])| + (if applied && bricks[last].Activate? then 1 else 0)
  {
    hide RunAll, Meets;
    var last := |bricks| - 1;
    assert forall i: nat :: i < last ==> bricks[..last][..i] == bricks[..i];
    var applied := Meets(RunAll(SEED, bricks[..last]), bricks[last]);
    assert AppliedOf(bricks) == AppliedOf(bricks[..last]) + if applied then {last} else {};
    assert ActivationsOf(bricks)
        == ActivationsOf(bricks[..last]) + if applied && bricks[last].Activate? then {last} else {};
  }

  /** Later rows: once legacy mode has been left it is never requested again, and epochs and generations only grow. */
  predicate Later(r: Row, s: Row) {
    && r.generation <= s.generation && r.epoch <= s.epoch
    && (r.mode != Legacy ==> s.mode != Legacy)
    && (r.generation == s.generation ==> s == r)
  }

  lemma Run1Later(r: Row, b: Brick)
    requires RowOk(r)
    ensures Later(r, Run1(Some(r), b).0.value)
  {
  }

  lemma LaterTransitive(r: Row, s: Row, t: Row)
    requires Later(r, s) && Later(s, t)
    ensures Later(r, t)
  {
  }

  lemma {:induction false} RowsOnlyAdvance(bricks: seq<Brick>, i: nat)
    requires i <= |bricks|
    ensures Later(RunAll(SEED, bricks[..i]), RunAll(SEED, bricks))
    decreases |bricks|
  {
    if i == |bricks| {
      assert bricks[..i] == bricks;
    } else {
      var before := bricks[..|bricks| - 1];
      assert before[..i] == bricks[..i];
      RowsOnlyAdvance(before, i);
      RunAllKeeps(before);
      Run1Later(RunAll(SEED, before), bricks[|bricks| - 1]);
      LaterTransitive(RunAll(SEED, bricks[..i]), RunAll(SEED, before), RunAll(SEED, bricks));
    }
  }

  /** The answer to an update is exact: it is applied if and only if its fence holds; it is lost if and only if the row
      has moved past what it expected, and then no update with the same expectation will ever be applied. */
  lemma AnswersAreExact(r: Row, b: Brick)
    requires RowOk(r) && ParametersOk(b)
    ensures Run1(Some(r), b).1 == Applied <==> Fenced(r, b)
    ensures Run1(Some(r), b).1 == CasLost <==> r.generation > b.expected || (b.Activate? && r.epoch > b.expectedEpoch)
    ensures Run1(Some(r), b).1 != Applied ==> Run1(Some(r), b).0 == Some(r)
  {
  }

  lemma LostIsFinal(r: Row, b: Brick, s: Row)
    requires RowOk(r) && ParametersOk(b) && Later(r, s) && Run1(Some(r), b).1 == CasLost
    ensures Run1(Some(s), b).1 != Applied
  {
  }

  /** So each generation is consumed by one update at most. */
  lemma {:induction false} GenerationsAreUsedOnce(bricks: seq<Brick>, i: nat, j: nat)
    requires i < j < |bricks| && bricks[i].expected == bricks[j].expected
    requires Run1(Some(RunAll(SEED, bricks[..i])), bricks[i]).1 == Applied
    ensures Run1(Some(RunAll(SEED, bricks[..j])), bricks[j]).1 != Applied
  {
    RunAllKeeps(bricks[..i]);
    assert bricks[..i + 1][..i] == bricks[..i];
    assert bricks[..j][..i + 1] == bricks[..i + 1];
    RowsOnlyAdvance(bricks[..j], i + 1);
  }
}
