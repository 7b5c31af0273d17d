/** The monotone compare-and-write of one Redis key (app/atomic_lua.py) and what its outcome tells the writer
    (app/atomic_write_outcome.py). */
module CompareWrites {
  import opened Wrappers
  import opened RevisionKeys

  /** Rates are compared as canonical strings, and only for equality. */
  type Rate = string

  /** What a key holds: nothing, a value without a schema version, a version 2 value, or anything else. */
  datatype Stored = Absent | Unversioned(raw: int) | V2(key: string, rate: Rate) | Broken(raw: int)

  datatype LuaOutcome = Advance | RefreshedEqual | SkippedNewer | ConflictingRate | MigrationRequired | InvalidSchema

  function Evaluate(current: Stored, key: string, rate: Rate): LuaOutcome {
    match current
    case Absent => Advance
    case Broken(_) => InvalidSchema
    case Unversioned(_) => MigrationRequired
    case V2(k, x) => Compare(k, x, key, rate)
  }

  function Compare(currentKey: string, currentRate: Rate, key: string, rate: Rate): LuaOutcome {
    if Less(currentKey, key) then Advance
    else if key == currentKey then (if rate == currentRate then RefreshedEqual else ConflictingRate)
    else SkippedNewer
  }

  /** The script runs atomically: it writes exactly when it answers advance or refreshed-equal. */
  function CompareWrite(current: Stored, key: string, rate: Rate): (Stored, LuaOutcome) {
    var out := Evaluate(current, key, rate);
    (if out == Advance || out == RefreshedEqual then V2(key, rate) else current, out)
  }

  // ---- The script on decoded texts, and its reference form ----

  datatype Json =
    | JsonNull
    | JsonBool(b: bool)
    | JsonNumber(n: real)
    | JsonString(s: string)
    | JsonArray(items: seq<Json>)
    | JsonObject(fields: map<string, Json>)

  /** The text of a key: none, one that does not decode, or one that does. */
  datatype Text = NoText | Malformed | Decoded(value: Json)

  predicate IsTable(v: Json) { v.JsonArray? || v.JsonObject? }

  /** A field of a Lua table is nil only if the table has no such field: a decoded `null` is a value of its own. */
  function LuaField(v: Json, name: string): Option<Json> {
    if v.JsonObject? && name in v.fields then Some(v.fields[name]) else None
  }

  function Script(text: Text, key: string, rate: Rate): LuaOutcome {
    match text
    case NoText => Advance
    case Malformed => InvalidSchema
    case Decoded(v) =>
      if !IsTable(v) then InvalidSchema
      else
        var version := LuaField(v, "schema_version");
        if version == None then MigrationRequired
        else if version != Some(JsonNumber(2.0)) then InvalidSchema
        else
          match (LuaField(v, "revision_key"), LuaField(v, "rate_key"))
          case (Some(JsonString(k)), Some(JsonString(x))) => Compare(k, x, key, rate)
          case _ => InvalidSchema
  }

  /** A field of a Python dictionary read with `get`: None stands both for a missing field and for `null`. */
  function PythonField(v: Json, name: string): Json {
    if v.JsonObject? && name in v.fields then v.fields[name] else JsonNull
  }

  /** The reference form of the script in Python. */
  function Reference(text: Text, key: string, rate: Rate): LuaOutcome {
    match text
    case NoText => Advance
    case Malformed => InvalidSchema
    case Decoded(v) =>
      if !(v.JsonObject? || v.JsonArray?) then InvalidSchema
      else
        var version := if v.JsonObject? then PythonField(v, "schema_version") else JsonNull;
        if version == JsonNull then MigrationRequired
        else if version != JsonNumber(2.0) then InvalidSchema
        else
          var currentKey, currentRate := PythonField(v, "revision_key"), PythonField(v, "rate_key");
          if !currentKey.JsonString? || !currentRate.JsonString? then InvalidSchema
          else Compare(currentKey.s, currentRate.s, key, rate)
  }

  /** What a key with this text holds; `id` is the identity of the text. */
  function StoredOf(text: Text, id: int): Stored {
    match text
    case NoText => Absent
    case Malformed => Broken(id)
    case Decoded(v) =>
      if !IsTable(v) then Broken(id)
      else if LuaField(v, "schema_version") == None then Unversioned(id)
      else
        match (LuaField(v, "schema_version"), LuaField(v, "revision_key"), LuaField(v, "rate_key"))
        case (Some(JsonNumber(two)), Some(JsonString(k)), Some(JsonString(x))) =>
          if two == 2.0 then V2(k, x) else Broken(id)
        case _ => Broken(id)
  }

  /** The script's answer depends only on what the key holds. */
  lemma ScriptIsEvaluate(text: Text, id: int, key: string, rate: Rate)
    ensures Script(text, key, rate) == Evaluate(StoredOf(text, id), key, rate)
  {
  }

  /** An object in which the schema version is present and `null`. */
  predicate NullSchema(text: Text) {
    text.Decoded? && text.value.JsonObject? && "schema_version" in text.value.fields
    && text.value.fields["schema_version"] == JsonNull
  }

  /** The script and its reference form disagree on exactly these texts, and there the script is the stricter one. */
  lemma ReferenceDiffersExactlyWhen(text: Text, key: string, rate: Rate)
    ensures Reference(text, key, rate) != Script(text, key, rate) <==> NullSchema(text)
    ensures NullSchema(text) ==>
              Script(text, key, rate) == InvalidSchema && Reference(text, key, rate) == MigrationRequired
  {
    hide Compare;
  }

  lemma NullSchemaInput(key: string, rate: Rate)
    ensures var text := Decoded(JsonObject(map["schema_version" := JsonNull]));
            Script(text, key, rate) == InvalidSchema && Reference(text, key, rate) == MigrationRequired
  {
    ReferenceDiffersExactlyWhen(Decoded(JsonObject(map["schema_version" := JsonNull])), key, rate);
  }

  // ---- Convergence ----

  datatype Write = Write(revision: Revision, rate: Rate)

  predicate WriteOk(w: Write) { InRange(w.revision) }

  function KeyOf(r: Revision): string
    requires InRange(r)
  {
    Make(r).value
  }

  /** The writes of any number of writers, in the order in which the store runs them. */
  function RunWrites(current: Stored, writes: seq<Write>): Stored
    requires forall w :: w in writes ==> WriteOk(w)
    decreases |writes|
  {
    if writes == [] then current
    else
      var before := RunWrites(current, writes[..|writes| - 1]);
      var w := writes[|writes| - 1];
      assert w in writes;
      assert WriteOk(w);
      CompareWrite(before, KeyOf(w.revision), w.rate).0
  }

  predicate AtMost(a: Revision, b: Revision) { a == b || Before(a, b) }

  /** The key holds `w`, and no write that has been run is newer. */
  ghost predicate HoldsNewest(s: Stored, w: Write, writes: seq<Write>) {
    && WriteOk(w) && s == V2(KeyOf(w.revision), w.rate) && w in writes
    && forall x :: x in writes ==> AtMost(x.revision, w.revision)
  }

  /** From an absent key, the key ends at one of the writes, and at the newest revision of them all. */
  lemma {:induction false} EndsAtNewest(writes: seq<Write>)
    requires writes != [] && forall w :: w in writes ==> WriteOk(w)
    ensures exists w :: HoldsNewest(RunWrites(Absent, writes), w, writes)
    decreases |writes|
  {
    var before, w := writes[..|writes| - 1], writes[|writes| - 1];
    assert forall x :: x in writes <==> x in before || x == w;
    assert WriteOk(w);
    if before == [] {
      assert HoldsNewest(RunWrites(Absent, writes), w, writes);
    } else {
      EndsAtNewest(before);
      var v :| HoldsNewest(RunWrites(Absent, before), v, before);
      var after := CompareWrite(RunWrites(Absent, before), KeyOf(w.revision), w.rate).0;
      assert RunWrites(Absent, writes) == after;
      hide RunWrites;
      StaysNewest(RunWrites(Absent, before), v, before, w, writes);
    }
  }

  /** One more write leaves the newer of two, and the one that was there among equals. */
  lemma StaysNewest(s: Stored, v: Write, before: seq<Write>, w: Write, writes: seq<Write>)
    requires HoldsNewest(s, v, before) && WriteOk(w) && forall x :: x in writes <==> x in before || x == w
    ensures exists x :: HoldsNewest(CompareWrite(s, KeyOf(w.revision), w.rate).0, x, writes)
  {
    var after := CompareWrite(s, KeyOf(w.revision), w.rate).0;
    KeyOrder(v.revision, w.revision);
    MakeIsInjective(v.revision, w.revision);
    hide Make, Less, InRange;
    if Before(v.revision, w.revision) {
      assert HoldsNewest(after, w, writes);
    } else {
      assert HoldsNewest(after, v, writes);
    }
  }

  /** A version 2 value with a proper key is what a first write would have left. */
  lemma {:induction false} StartsFromWrite(first: Write, writes: seq<Write>)
    requires WriteOk(first) && forall w :: w in writes ==> WriteOk(w)
    ensures RunWrites(V2(KeyOf(first.revision), first.rate), writes) == RunWrites(Absent, [first] + writes)
    decreases |writes|
  {
    if writes == [] {
      assert [first] + writes == [first];
      assert RunWrites(Absent, []) == Absent;
      assert [first][..0] == [];
    } else {
      var before := writes[..|writes| - 1];
      assert ([first] + writes)[..|writes|] == [first] + before;
      StartsFromWrite(first, before);
    }
  }

  /** The rate that goes with a revision is a fact about the revision: no two writes disagree. */
  predicate RatesAgree(writes: seq<Write>) {
    forall v, w :: v in writes && w in writes && v.revision == w.revision ==> v.rate == w.rate
  }

  /** So the order in which the writers get through does not matter. */
  lemma OrderDoesNotMatter(a: seq<Write>, b: seq<Write>)
    requires forall w :: w in a <==> w in b
    requires RatesAgree(a) && forall w :: w in a ==> WriteOk(w)
    ensures RunWrites(Absent, a) == RunWrites(Absent, b)
  {
    if a != [] || b != [] {
      var some := if a != [] then a[0] else b[0];
      assert some in a || some in b;
      EndsAtNewest(a);
      EndsAtNewest(b);
      var v :| HoldsNewest(RunWrites(Absent, a), v, a);
      var w :| HoldsNewest(RunWrites(Absent, b), w, b);
      assert AtMost(v.revision, w.revision) && AtMost(w.revision, v.revision);
      assert v.revision == w.revision && v.rate == w.rate;
    }
  }

  lemma OrderDoesNotMatterFromV2(first: Write, a: seq<Write>, b: seq<Write>)
    requires WriteOk(first) && forall w :: w in a <==> w in b
    requires RatesAgree([first] + a) && forall w :: w in a ==> WriteOk(w)
    ensures var current := V2(KeyOf(first.revision), first.rate);
            RunWrites(current, a) == RunWrites(current, b)
  {
    StartsFromWrite(first, a);
    StartsFromWrite(first, b);
    assert forall w :: w in [first] + a <==> w in [first] + b;
    OrderDoesNotMatter([first] + a, [first] + b);
  }

  /** What a write does to a key that holds another: the newer revision wins, and equal ones must agree on the rate. */
  lemma AnswersByRevision(held: Write, w: Write)
    requires WriteOk(held) && WriteOk(w)
    ensures var current := V2(KeyOf(held.revision), held.rate);
            CompareWrite(current, KeyOf(w.revision), w.rate)
            == if Before(held.revision, w.revision) then (V2(KeyOf(w.revision), w.rate), Advance)
               else if held.revision != w.revision then (current, SkippedNewer)
               else (current, if held.rate == w.rate then RefreshedEqual else ConflictingRate)
  {
    KeyOrder(held.revision, w.revision);
    MakeIsInjective(held.revision, w.revision);
    NeverLessThanItself(KeyOf(w.revision));
    hide Make, Less, InRange;
  }

  /** A key that is not to be written over stays: values without a version and broken ones. */
  lemma {:induction false} ForeignValuesStay(current: Stored, writes: seq<Write>)
    requires current.Unversioned? || current.Broken?
    requires forall w :: w in writes ==> WriteOk(w)
    ensures RunWrites(current, writes) == current
    decreases |writes|
  {
    if writes != [] {
      ForeignValuesStay(current, writes[..|writes| - 1]);
    }
  }

  // ---- What the writer learns ----

  datatype WriteState = Advanced | Refreshed | Skipped | Conflicted | Failed
  datatype Performed = Applied | NotApplied | UnknownApplied
  datatype Advancement = Yes | No | UnknownAdvanced
  datatype FailureKind = DefiniteNotApplied | UncertainAfterSend
  datatype Disposition = PublishCandidate | Retry | BlockAlert

  datatype WriteOutcome = WriteOutcome(
    state: WriteState, incoming: Revision, effective: Option<Revision>, performed: Performed, advanced: Advancement,
    structural: bool)

  /** The script's answer, an answer that nobody knows, or no answer at all. */
  datatype Answer = Lua(outcome: LuaOutcome) | Unsupported | NoAnswer(kind: FailureKind)

  function OutcomeOf(answer: Answer, incoming: Revision): WriteOutcome {
    match answer
    case Lua(Advance) => WriteOutcome(Advanced, incoming, Some(incoming), Applied, Yes, false)
    case Lua(RefreshedEqual) => WriteOutcome(Refreshed, incoming, Some(incoming), Applied, No, false)
    case Lua(SkippedNewer) => WriteOutcome(Skipped, incoming, None, NotApplied, No, false)
    case Lua(ConflictingRate) => WriteOutcome(Conflicted, incoming, Some(incoming), NotApplied, No, false)
    case Lua(MigrationRequired) => WriteOutcome(Failed, incoming, None, NotApplied, No, true)
    case Lua(InvalidSchema) => WriteOutcome(Failed, incoming, None, NotApplied, No, true)
    case Unsupported => WriteOutcome(Failed, incoming, None, NotApplied, No, true)
    case NoAnswer(DefiniteNotApplied) => WriteOutcome(Failed, incoming, None, NotApplied, No, false)
    case NoAnswer(UncertainAfterSend) => WriteOutcome(Failed, incoming, None, UnknownApplied, UnknownAdvanced, false)
  }

  function DispositionOf(o: WriteOutcome): Disposition {
    match o.state
    case Advanced => PublishCandidate
    case Refreshed => PublishCandidate
    case Skipped => PublishCandidate
    case Conflicted => BlockAlert
    case Failed => if o.structural then BlockAlert else Retry
  }

  /** What may happen to one attempt: it is answered; it runs but the answer is lost, or it never runs though it was
      sent; or it is known not to have been sent. */
  predicate Attempt(before: Stored, w: Write, after: Stored, answer: Answer) {
    WriteOk(w) &&
    var (written, out) := CompareWrite(before, KeyOf(w.revision), w.rate);
    match answer
    case Lua(o) => o == out && after == written
    case NoAnswer(UncertainAfterSend) => after == written || after == before
    case NoAnswer(DefiniteNotApplied) => after == before
    case Unsupported => false
  }

  predicate HoldsRevision(s: Stored, r: Revision) { s.V2? && InRange(r) && s.key == KeyOf(r) }

  /** The revision a key holds was overtaken: it held none, or an older key. */
  predicate Overtaken(s: Stored, r: Revision) { s == Absent || (s.V2? && InRange(r) && Less(s.key, KeyOf(r))) }

  /** Every claim of the outcome is true of the store. */
  lemma OutcomeIsTrue(before: Stored, w: Write, after: Stored, answer: Answer)
    requires Attempt(before, w, after, answer)
    ensures var o := OutcomeOf(answer, w.revision);
            && (o.performed == Applied ==> after == V2(KeyOf(w.revision), w.rate))
            && (o.performed == NotApplied ==> after == before)
            && (o.effective.Some? ==> HoldsRevision(after, o.effective.value))
            && (o.advanced == Yes ==> Overtaken(before, w.revision) && HoldsRevision(after, w.revision))
            && (o.advanced == No ==>
                  after == before || (HoldsRevision(before, w.revision) && HoldsRevision(after, w.revision)))
  {
  }

  /** Conversely, unless the answer was lost, whatever happened is claimed; and an answer of the script names the
      revision that is now held exactly if it is the one that was written or attempted. */
  lemma OutcomeIsComplete(before: Stored, w: Write, after: Stored, answer: Answer)
    requires Attempt(before, w, after, answer) && answer != NoAnswer(UncertainAfterSend)
    ensures var o := OutcomeOf(answer, w.revision);
            && (after != before ==> o.performed == Applied)
            && (!HoldsRevision(before, w.revision) && HoldsRevision(after, w.revision) ==> o.advanced == Yes)
            && (answer.Lua? ==>
                  && o.effective == (if HoldsRevision(after, w.revision) then Some(w.revision) else None)
                  && o.performed == (if after == V2(KeyOf(w.revision), w.rate) then Applied else NotApplied)
                  && o.advanced == (if Overtaken(before, w.revision) then Yes else No)
                  && o.state == (if Overtaken(before, w.revision) then Advanced
                                 else if !before.V2? then Failed
                                 else if !HoldsRevision(before, w.revision) then Skipped
                                 else if before.rate == w.rate then Refreshed else Conflicted)
                  && (o.structural <==> before.Unversioned? || before.Broken?) && o.incoming == w.revision)
            && (answer.NoAnswer? ==> o == WriteOutcome(Failed, w.revision, None, NotApplied, No, false))
  {
    NeverLessThanItself(KeyOf(w.revision));
  }

  /** An answer that is not understood claims nothing and blocks; a lost one leaves open what has happened. */
  lemma NothingIsClaimedWithoutAnAnswer(incoming: Revision)
    ensures var o := OutcomeOf(Unsupported, incoming);
            o.effective == None && o.performed == NotApplied && o.advanced == No && DispositionOf(o) == BlockAlert
    ensures var o := OutcomeOf(NoAnswer(UncertainAfterSend), incoming);
            && o.effective == None && o.performed == UnknownApplied && o.advanced == UnknownAdvanced
            && DispositionOf(o) == Retry && o.incoming == incoming
  {
  }

  lemma {:induction false} NeverLessThanItself(s: string)
    ensures !Less(s, s)
  {
    if s != "" {
      NeverLessThanItself(s[1..]);
    }
  }

  /** What a writer must not resolve on its own. */
  predicate BlockedBy(s: Stored, w: Write) {
    s.Unversioned? || s.Broken? || (HoldsRevision(s, w.revision) && s.rate != w.rate)
  }

  /** A write that may be published has left a revision at least as new as its own, and one that blocks has changed
      nothing. */
  lemma DispositionIsJustified(before: Stored, w: Write, after: Stored, answer: Answer)
    requires Attempt(before, w, after, answer)
    ensures var d := DispositionOf(OutcomeOf(answer, w.revision));
            && (d == PublishCandidate ==> after.V2? && !Less(after.key, KeyOf(w.revision)))
            && (d == BlockAlert ==> after == before && BlockedBy(before, w))
            && (d == Retry <==> answer.NoAnswer?)
            && (answer.Lua? && !BlockedBy(before, w) ==> d == PublishCandidate)
  {
    NeverLessThanItself(KeyOf(w.revision));
  }
}
