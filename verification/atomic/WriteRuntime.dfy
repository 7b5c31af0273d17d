/** What a process enforces: the cached writer mode (app/atomic_write_runtime.py), refreshed from the control row by
    reads that may fail. */
module WriteRuntime {
  import opened Wrappers
  import opened WriteModes
  import opened WriteControls

  datatype Snapshot = Snapshot(diagnostic: Mode, latched: bool, enforced: Mode, generation: int, initialized: bool)

  const INITIAL := Snapshot(Halt, false, Legacy, 0, false)

  datatype Read = ReadRow(row: Option<Row>) | ReadFailed(tablePresent: bool)

  function Derive(diagnostic: Mode, latched: bool, explicitHalt: bool): Mode {
    if diagnostic == Atomic then Atomic
    else if explicitHalt then Halt
    else if latched then Halt
    else Legacy
  }

  function Activated(row: Option<Row>): bool { row.Some? && row.value.epoch > 0 }

  function ExplicitHalt(row: Option<Row>): bool {
    row.Some? && row.value.mode == Halt && row.value.format == FORMAT && row.value.epoch >= 0 && row.value.schema >= 1
  }

  function GenerationAfter(row: Option<Row>, current: int): int {
    if row.Some? && row.value.generation > current then row.value.generation else current
  }

  /** One refresh: it keeps the initial snapshot as long as the mode could not be determined. */
  function Refresh(prev: Snapshot, read: Read): Snapshot {
    match read
    case ReadRow(row) =>
      if !prev.initialized && row.None? then prev
      else
        var latched := prev.latched || Activated(row);
        Snapshot(EffectiveMode(row), latched, Derive(EffectiveMode(row), latched, ExplicitHalt(row)),
                 GenerationAfter(row, prev.generation), true)
    case ReadFailed(tablePresent) =>
      if !prev.initialized && tablePresent then prev
      else Snapshot(Halt, prev.latched, if prev.enforced == Atomic then Halt else prev.enforced, prev.generation, true)
  }

  class WriteModeCache {
    var current: Snapshot

    constructor ()
      ensures current == INITIAL
    {
      current := INITIAL;
    }

    /** The swap at the end of a refresh; the read happened before, outside the lock. */
    method RefreshFrom(read: Read) returns (now: Snapshot)
      modifies this
      ensures current == now == Refresh(old(current), read)
    {
      var diagnostic, activated, explicitHalt := Halt, false, false;
      if read.ReadRow? {
        diagnostic, activated, explicitHalt := EffectiveMode(read.row), Activated(read.row), ExplicitHalt(read.row);
      }
      var prev := current;
      var unknown := if read.ReadRow? then read.row.None? else read.tablePresent;
      if !prev.initialized && unknown {
        return prev;
      }
      var latched := prev.latched || activated;
      var generation, enforced := prev.generation, prev.enforced;
      if read.ReadRow? {
        generation := GenerationAfter(read.row, prev.generation);
        enforced := Derive(diagnostic, latched, explicitHalt);
      } else if prev.enforced == Atomic {
        enforced := Halt;
      }
      current := Snapshot(diagnostic, latched, enforced, generation, true);
      now := current;
    }
  }

  /** The latch and the generation never go back. */
  lemma RefreshIsMonotone(prev: Snapshot, read: Read)
    ensures var now := Refresh(prev, read);
            (prev.latched ==> now.latched) && prev.generation <= now.generation
            && (prev.initialized ==> now.initialized)
  {
  }

  /** A proper row is enforced as it stands. */
  lemma ProperRowIsEnforced(prev: Snapshot, r: Row)
    requires RowOk(r) && (prev.latched ==> r.mode != Legacy)
    ensures Refresh(prev, ReadRow(Some(r))).enforced == r.mode
  {
  }

  predicate Atomically(row: Option<Row>) {
    row.Some? && row.value.format == 1 && row.value.mode == Atomic && row.value.epoch > 0 && row.value.schema >= 2
  }

  /** A row that asks for a halt and is understood, or one that was activated before. */
  predicate Holds(row: Option<Row>) {
    row.Some? && (row.value.epoch > 0
                  || (row.value.format == 1 && row.value.mode == Halt && row.value.epoch == 0 && row.value.schema >= 1))
  }

  /** Of any row and any snapshot: atomic mode is enforced exactly on a row that bears it out, legacy mode exactly where
      neither this row nor an earlier one says otherwise; a failed read only ends atomic mode. */
  lemma EnforcesExactlyWhen(prev: Snapshot, read: Read)
    ensures var now := Refresh(prev, read);
            if !prev.initialized && (read == ReadRow(None) || read == ReadFailed(true)) then now == prev
            else
              && now.initialized
              && (now.latched <==> prev.latched || (read.ReadRow? && read.row.Some? && read.row.value.epoch > 0))
              && (read.ReadRow? ==>
                    && (now.enforced == Atomic <==> Atomically(read.row))
                    && (now.enforced == Legacy <==> !Atomically(read.row) && !Holds(read.row) && !prev.latched)
                    && now.generation == (if read.row.Some? && read.row.value.generation > prev.generation
                                          then read.row.value.generation else prev.generation))
              && (read.ReadFailed? ==>
                    now.enforced == (if prev.enforced == Atomic then Halt else prev.enforced)
                    && now.generation == prev.generation && now.diagnostic == Halt)
  {
    if read.ReadRow? {
      EffectiveExactlyWhen(read.row);
    }
  }

  function RefreshAll(found: seq<Read>): Snapshot
    decreases |found|
  {
    if found == [] then INITIAL else Refresh(RefreshAll(found[..|found| - 1]), found[|found| - 1])
  }

  /** Over any reads: the latch is set exactly once a row has been read that was activated. */
  lemma {:induction false} LatchedExactlyWhen(found: seq<Read>)
    ensures RefreshAll(found).latched
            <==> exists i :: 0 <= i < |found| && found[i].ReadRow? && found[i].row.Some? && found[i].row.value.epoch > 0
    decreases |found|
  {
    if found != [] {
      var last := |found| - 1;
      LatchedExactlyWhen(found[..last]);
      EnforcesExactlyWhen(RefreshAll(found[..last]), found[last]);
      hide Refresh, Atomically, Holds;
      assert forall i :: 0 <= i < last ==> found[..last][i] == found[i];
    }
  }

  /** From a process that enforces something else, legacy is enforced again exactly by swapping in a read that found a
      legacy row, or none, while no activation has been seen. */
  lemma BackToLegacyExactlyWhen(prev: Snapshot, read: Read)
    requires prev.enforced in {Halt, Atomic} && prev.initialized
    requires read.ReadRow? && read.row.Some? ==> RowOk(read.row.value)
    ensures Refresh(prev, read).enforced == Legacy
            <==> read.ReadRow? && !prev.latched && (read.row.None? || read.row.value.mode == Legacy)
  {
  }
}
