/** Migrating one Redis key to version 2 values while other writers interfere (app/atomic_migration.py). */
module Migration {
  import opened Wrappers
  import opened RevisionKeys
  import opened CompareWrites

  /** What a key holds, with the identity of its text: a version 1 value that was parsed or not, a version 2 value whose
      fields may be missing, a JSON array, or anything else. A key is `odd` if the migration's pattern takes it for a
      revision key: the pattern also matches digits of other scripts and a final line break. */
  datatype Value =
    | NoValue
    | V1Value(text: int, parsed: Option<(int, Rate)>)
    | V2Value(text: int, key: Option<string>, rate: Option<Rate>, odd: bool)
    | ArrayValue(text: int)
    | OtherValue(text: int)

  /** How the scripts see it. */
  function AsStored(v: Value): Stored {
    match v
    case NoValue => Absent
    case V1Value(t, _) => Unversioned(t)
    case ArrayValue(t) => Unversioned(t)
    case OtherValue(t) => Broken(t)
    case V2Value(t, k, r, _) => if k.Some? && r.Some? then V2(k.value, r.value) else Broken(t)
  }

  datatype DbRate = DbRate(revision: Revision, rate: Rate)

  datatype Decision =
    | SeedFromDb | MigrateUpgrade | MigrateSeed | AlreadyCurrent | LaggingV2 | RedisAhead | InConflict | BadSchema

  predicate Writes(d: Decision) { d == SeedFromDb || d == MigrateUpgrade || d == MigrateSeed }

  function Decide(v: Value, db: DbRate): Decision
    requires InRange(db.revision)
  {
    match v
    case NoValue => SeedFromDb
    case ArrayValue(_) => BadSchema
    case OtherValue(_) => BadSchema
    case V2Value(_, k, r, odd) =>
      if k.None? || r.None? || (Parse(k.value).None? && !odd) then BadSchema
      else if k.value == KeyOf(db.revision) then (if r.value == db.rate then AlreadyCurrent else InConflict)
      else if Less(k.value, KeyOf(db.revision)) then LaggingV2
      else RedisAhead
    case V1Value(_, parsed) =>
      if parsed.None? then InConflict
      else if db.revision.epoch > parsed.value.0 then MigrateUpgrade
      else if db.revision.epoch == parsed.value.0 then (if db.rate == parsed.value.1 then MigrateSeed else InConflict)
      else RedisAhead
  }

  /** The value that the runner writes for a database row. */
  function ValueOf(db: DbRate, text: int): Value
    requires InRange(db.revision)
  {
    V2Value(text, Some(KeyOf(db.revision)), Some(db.rate), false)
  }

  // ---- The two writes ----

  function MigrateCas(current: Value, expected: Value, new_: Value): (Value, bool) {
    if current == expected && current != NoValue then (new_, true) else (current, false)
  }

  function SeedWrite(current: Value, db: DbRate, text: int): (Value, LuaOutcome)
    requires InRange(db.revision)
  {
    var out := Evaluate(AsStored(current), KeyOf(db.revision), db.rate);
    (if out == Advance || out == RefreshedEqual then ValueOf(db, text) else current, out)
  }

  // ---- One pass ----

  datatype Report =
    | DbAbsent | Decided(decision: Decision) | SeedAnswer(outcome: LuaOutcome) | Migrated | RetryExhausted | TimedOut
    | FetchRaised

  /** A pass either ends the attempt or is repeated; `after` is the value of the key when it has been made. */
  datatype Pass = Done(report: Report, wrote: bool, failed: bool, after: Value) | Again(after: Value)

  /** `read` is what the GET found and `before` what the key holds when the write gets there. */
  function MakePass(db: DbRate, read: Value, before: Value, text: int, apply: bool): Pass
    requires InRange(db.revision)
  {
    var d := Decide(read, db);
    if !Writes(d) then Done(Decided(d), false, d == InConflict || d == BadSchema, before)
    else if !apply then Done(Decided(d), false, false, before)
    else if d == SeedFromDb then
      var (after, out) := SeedWrite(before, db, text);
      match out
      case Advance => Done(SeedAnswer(out), true, false, after)
      case RefreshedEqual => Done(SeedAnswer(out), true, false, after)
      case SkippedNewer => Done(SeedAnswer(out), false, false, after)
      case MigrationRequired => Again(after)
      case ConflictingRate => Done(SeedAnswer(out), false, true, after)
      case InvalidSchema => Done(SeedAnswer(out), false, true, after)
    else
      var (after, ok) := MigrateCas(before, read, ValueOf(db, text));
      if ok then Done(Migrated, true, false, after) else Again(after)
  }

  /** A write may only take the place of nothing, of the very version 1 value that was read, not newer than the
      database, or of a version 2 value that is not newer than the database. */
  predicate SafeToReplace(before: Value, read: Value, db: DbRate)
    requires InRange(db.revision)
  {
    match before
    case NoValue => true
    case V1Value(_, parsed) =>
      before == read && parsed.Some? && parsed.value.0 <= db.revision.epoch
      && (parsed.value.0 == db.revision.epoch ==> parsed.value.1 == db.rate)
    case V2Value(_, k, r, _) =>
      k.Some? && !Less(KeyOf(db.revision), k.value)
      && (k.value == KeyOf(db.revision) ==> r == Some(db.rate))
    case _ => false
  }

  lemma {:induction false} LessIsAsymmetric(a: string, b: string)
    requires Less(a, b)
    ensures !Less(b, a)
    decreases |a|
  {
    if a != "" && a[0] == b[0] {
      LessIsAsymmetric(a[1..], b[1..]);
    }
  }

  /** Whatever other writers do between the read and the write. */
  lemma PassIsSafe(db: DbRate, read: Value, before: Value, text: int, apply: bool)
    requires InRange(db.revision)
    ensures var p := MakePass(db, read, before, text, apply);
            && (p.Done? && p.wrote ==> apply && p.after == ValueOf(db, text) && SafeToReplace(before, read, db))
            && (p.Again? || !p.wrote ==> p.after == before)
            && (p.Again? ==> before != read)
  {
    NeverLessThanItself(KeyOf(db.revision));
    if before.V2Value? && before.key.Some? && Less(before.key.value, KeyOf(db.revision)) {
      LessIsAsymmetric(before.key.value, KeyOf(db.revision));
    }
  }

  /** A version 1 value that the database overtakes, or that is the database's own. */
  predicate Migrates(v: Value, db: DbRate) {
    && v.V1Value? && v.parsed.Some?
    && (v.parsed.value.0 < db.revision.epoch || (v.parsed.value.0 == db.revision.epoch && v.parsed.value.1 == db.rate))
  }

  /** What a seed may take the place of. */
  predicate SeedTakes(v: Value, db: DbRate)
    requires InRange(db.revision)
  {
    || v == NoValue
    || (v.V2Value? && v.key.Some? && v.rate.Some?
        && (Less(v.key.value, KeyOf(db.revision)) || (v.key.value == KeyOf(db.revision) && v.rate.value == db.rate)))
  }

  /** A value that can neither be migrated nor be left to the order of revisions. */
  predicate Unusable(v: Value, db: DbRate)
    requires InRange(db.revision)
  {
    match v
    case NoValue => false
    case ArrayValue(_) => true
    case OtherValue(_) => true
    case V1Value(_, parsed) => parsed.None? || (parsed.value.0 == db.revision.epoch && parsed.value.1 != db.rate)
    case V2Value(_, k, r, odd) =>
      k.None? || r.None? || (!odd && Parse(k.value).None?) || (k.value == KeyOf(db.revision) && r.value != db.rate)
  }

  /** What a seed cannot leave to the order of revisions. */
  predicate SeedFails(v: Value, db: DbRate)
    requires InRange(db.revision)
  {
    || v.OtherValue?
    || (v.V2Value? && (v.key.None? || v.rate.None? || (v.key.value == KeyOf(db.revision) && v.rate.value != db.rate)))
  }

  /** A pass writes exactly if nothing was read and the seed may take the place of what has come since, or the version 1
      value that was read is due and still there; it is repeated exactly if that value has changed, or a value without a
      version has come where nothing was; it fails exactly on an unusable value, read or met by the seed. */
  lemma PassWritesExactlyWhen(db: DbRate, read: Value, before: Value, text: int, apply: bool)
    requires InRange(db.revision)
    ensures var p := MakePass(db, read, before, text, apply);
            && (p.Done? && p.wrote
                <==> apply && ((read == NoValue && SeedTakes(before, db)) || (Migrates(read, db) && before == read)))
            && (p.Again?
                <==> apply && ((read == NoValue && (before.V1Value? || before.ArrayValue?))
                               || (Migrates(read, db) && before != read)))
            && (p.Done? ==> (p.failed <==> Unusable(read, db) || (apply && read == NoValue && SeedFails(before, db))))
            && p.after == if p.Done? && p.wrote then ValueOf(db, text) else before
  {
    NeverLessThanItself(KeyOf(db.revision));
    hide KeyOf, Less, Parse;
  }

  /** A pass that nobody disturbs writes the database's value exactly over nothing and over a version 1 value that is
      due, and fails exactly on an unusable value. */
  lemma UndisturbedMigratesExactlyWhen(v: Value, db: DbRate, text: int, apply: bool)
    requires InRange(db.revision)
    ensures var p := MakePass(db, v, v, text, apply);
            && p.Done?
            && (p.wrote <==> apply && (v == NoValue || Migrates(v, db)))
            && (p.failed <==> Unusable(v, db))
            && p.after == (if p.wrote then ValueOf(db, text) else v)
            && (p.wrote ==> p.report == if v == NoValue then SeedAnswer(Advance) else Migrated)
  {
    hide KeyOf, Less, Parse;
  }

  // ---- The retry loop ----

  /** What the runner meets in pass `i`: the database row, the value it reads, the value at its write, and the clock. */
  datatype Surroundings = Surroundings(
    db: nat -> Option<DbRate>, read: nat -> Value, before: nat -> Value, text: nat -> int, late: nat -> bool)

  datatype Result = Result(report: Report, wrote: bool, failed: bool, retries: nat)

  predicate Proper(db: Option<DbRate>) { db.Some? ==> InRange(db.value.revision) }

  /** The last pass that was made, counted from zero. */
  function LastPass(r: Result): nat {
    if (r.report == RetryExhausted || r.report == TimedOut) && r.retries > 0 then r.retries - 1 else r.retries
  }

  method MigrateOneKey(s: Surroundings, apply: bool, maxRetries: nat) returns (result: Result, after: Value)
    ensures LastPass(result) <= maxRetries
    ensures forall i :: 0 <= i < LastPass(result) ==>
              s.db(i).Some? && Proper(s.db(i))
              && MakePass(s.db(i).value, s.read(i), s.before(i), s.text(i), apply).Again?
    ensures result.wrote ==>
              var i := LastPass(result);
              && apply && s.db(i).Some? && Proper(s.db(i)) && after == ValueOf(s.db(i).value, s.text(i))
              && SafeToReplace(s.before(i), s.read(i), s.db(i).value)
    ensures !result.wrote ==> after == s.before(LastPass(result))
    ensures result.report in {RetryExhausted, TimedOut, FetchRaised} ==> result.failed && !result.wrote
    ensures result.report == DbAbsent <==> s.db(LastPass(result)).None?
    ensures result.report == FetchRaised <==> !Proper(s.db(LastPass(result)))
    ensures var i := LastPass(result);
            s.db(i).Some? && Proper(s.db(i)) ==>
              var made := MakePass(s.db(i).value, s.read(i), s.before(i), s.text(i), apply);
              if made.Done? then result == Result(made.report, made.wrote, made.failed, i) && after == made.after
              else result == Result(if i == maxRetries then RetryExhausted else TimedOut, false, true, i + 1)
                   && (i < maxRetries ==> s.late(i))
    ensures forall i :: 0 <= i < LastPass(result) ==> !s.late(i)
  {
    var attempts := 0;
    while true
      invariant attempts <= maxRetries
      invariant forall i :: 0 <= i < attempts ==>
                  s.db(i).Some? && Proper(s.db(i))
                  && MakePass(s.db(i).value, s.read(i), s.before(i), s.text(i), apply).Again?
      invariant forall i :: 0 <= i < attempts ==> !s.late(i)
      decreases maxRetries - attempts
    {
      var pass := attempts;
      var db := s.db(pass);
      if db.None? {
        return Result(DbAbsent, false, false, attempts), s.before(pass);
      }
      if !InRange(db.value.revision) {
        return Result(FetchRaised, false, true, attempts), s.before(pass);
      }
      PassIsSafe(db.value, s.read(pass), s.before(pass), s.text(pass), apply);
      var made := MakePass(db.value, s.read(pass), s.before(pass), s.text(pass), apply);
      if made.Done? {
        return Result(made.report, made.wrote, made.failed, attempts), made.after;
      }
      attempts := attempts + 1;
      if attempts > maxRetries {
        return Result(RetryExhausted, false, true, attempts), made.after;
      }
      if s.late(pass) {
        return Result(TimedOut, false, true, attempts), made.after;
      }
    }
  }

  // ---- Undisturbed runs ----

  /** Nobody else writes: what is written over is what was read. */
  function Undisturbed(v: Value, db: DbRate, text: int): Pass
    requires InRange(db.revision)
  {
    MakePass(db, v, v, text, true)
  }

  lemma UndisturbedEndsAtOnce(v: Value, db: DbRate, text: int)
    requires InRange(db.revision)
    ensures var p := Undisturbed(v, db, text);
            p.Done? && (p.wrote <==> Writes(Decide(v, db))) && p.after == if p.wrote then ValueOf(db, text) else v
  {
  }

  /** A second undisturbed run over the same database writes nothing. */
  lemma SecondRunWritesNothing(v: Value, db: DbRate, text: int, later: int)
    requires InRange(db.revision)
    ensures var p := Undisturbed(v, db, text); p.Done? && Undisturbed(p.after, db, later).Done?
    ensures var p := Undisturbed(v, db, text);
            !Undisturbed(p.after, db, later).wrote && Undisturbed(p.after, db, later).after == p.after
  {
    UndisturbedEndsAtOnce(v, db, text);
    ParseOfMake(db.revision);
  }

  /** What a key that was migrated can still be replaced by is decided by the order of revisions alone. */
  lemma MigratedKeyIsOrdered(db: DbRate, text: int, newer: DbRate)
    requires InRange(db.revision) && InRange(newer.revision)
    ensures Decide(ValueOf(db, text), newer) ==
            if newer.revision == db.revision then (if newer.rate == db.rate then AlreadyCurrent else InConflict)
            else if Before(db.revision, newer.revision) then LaggingV2 else RedisAhead
  {
    ParseOfMake(db.revision);
    MakeIsInjective(db.revision, newer.revision);
    KeyOrder(db.revision, newer.revision);
  }
}
