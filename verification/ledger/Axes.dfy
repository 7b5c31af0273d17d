/** One round's report, normalised per pair and axis, and the counters that one round contributes
    (app/d7_round_axes.py; `_count_records` in app/d7_round_ledger.py). */
module Axes {
  import opened Wrappers
  import opened Totals

  datatype Source = Investing | Bs | Citi | Unsupported
  datatype Pair = UsdKrw | JpyKrw | EurKrw
  datatype Status =
    | Valid | Missing | Unknown | NotAttempted
    | Performed | NoChangeNeeded | PolicyBlocked
    | Foreign(text: int)

  /** Reason texts are compared, never read; a report's own texts are numbered. */
  datatype Reason = ReportMalformed | ReasonUnrecorded | NotChecked | Text(n: nat)

  /** What a report says about one pair on one axis; `None` stands for an absent, empty or wrongly typed
      entry. */
  datatype RawItem = RawItem(status: Option<Status>, reason: Option<Reason>)
  datatype RawPair = RawPair(collection: RawItem, writing: RawItem)

  /** A selected summary.  `rest` stands for everything that only its digest can tell apart. */
  datatype Summary = Summary(usd: RawPair, jpy: RawPair, eur: RawPair, finalDbNotChecked: bool, rest: int) {
    function At(p: Pair): RawPair {
      match p case UsdKrw => usd case JpyKrw => jpy case EurKrw => eur
    }
  }

  datatype Axis = Axis(status: Status, reason: Reason, malformed: bool, unrecorded: bool)
  datatype PairAxes = PairAxes(collection: Axis, writing: Axis, finalDb: Axis)
  datatype Detail = Detail(usd: PairAxes, jpy: PairAxes, eur: PairAxes, telemetryError: bool) {
    function At(p: Pair): PairAxes {
      match p case UsdKrw => usd case JpyKrw => jpy case EurKrw => eur
    }
  }

  const PAIRS := [UsdKrw, JpyKrw, EurKrw]
  const COLLECTION_STATUSES := {Valid, Missing, Unknown, NotAttempted}

  function WritingStatuses(source: Source): set<Status> {
    if source == Investing then {Unknown, NotAttempted}
    else {Performed, NoChangeNeeded, PolicyBlocked, NotAttempted, Unknown}
  }

  function NormalizeAxis(item: RawItem, allowed: set<Status>): (a: Axis)
    ensures Unknown in allowed ==> a.status in allowed
    ensures a.malformed <==> item.status.None? || item.status.value !in allowed
    ensures !(a.malformed && a.unrecorded)
  {
    if item.status.None? || item.status.value !in allowed then
      Axis(Unknown, ReportMalformed, true, false)
    else if item.reason.None? then
      Axis(item.status.value, ReasonUnrecorded, false, true)
    else
      Axis(item.status.value, item.reason.value, false, false)
  }

  function FinalDbAxis(notChecked: bool): Axis {
    if notChecked then Axis(Unknown, NotChecked, false, false)
    else Axis(Unknown, ReportMalformed, true, false)
  }

  function NormalizePair(source: Source, s: Summary, p: Pair): PairAxes {
    PairAxes(NormalizeAxis(s.At(p).collection, COLLECTION_STATUSES),
             NormalizeAxis(s.At(p).writing, WritingStatuses(source)),
             FinalDbAxis(s.finalDbNotChecked))
  }

  function Normalize(source: Source, s: Summary, telemetryError: bool): Detail {
    Detail(NormalizePair(source, s, UsdKrw), NormalizePair(source, s, JpyKrw), NormalizePair(source, s, EurKrw),
           telemetryError)
  }

  /** A detail that the normaliser can have produced: every status comes from the axis's own list. */
  predicate WellFormed(source: Source, d: Detail) {
    forall p: Pair ::
      && d.At(p).collection.status in COLLECTION_STATUSES
      && d.At(p).writing.status in WritingStatuses(source)
      && d.At(p).finalDb.status == Unknown
  }

  lemma NormalizeIsWellFormed(source: Source, s: Summary, telemetryError: bool)
    ensures WellFormed(source, Normalize(source, s, telemetryError))
  {
    var d := Normalize(source, s, telemetryError);
    forall p: Pair ensures d.At(p) == NormalizePair(source, s, p) {
      match p case UsdKrw => case JpyKrw => case EurKrw =>
    }
  }

  // ---- What a normalised report says ----

  predicate CollectionStatus(status: Status) { status in {Valid, Missing, Unknown, NotAttempted} }

  /** The investing source writes nothing itself. */
  predicate WritingStatus(source: Source, status: Status) {
    || status in {Unknown, NotAttempted}
    || (source != Investing && status in {Performed, NoChangeNeeded, PolicyBlocked})
  }

  /** An entry with a status that its axis knows is kept as it is; any other is unknown, and malformed. */
  predicate AxisSays(a: Axis, item: RawItem, known: bool) {
    if item.status.Some? && known
    then a == Axis(item.status.value, item.reason.GetOr(ReasonUnrecorded), false, item.reason.None?)
    else a == Axis(Unknown, ReportMalformed, true, false)
  }

  predicate PairSays(a: PairAxes, entry: RawPair, source: Source, finalDbNotChecked: bool) {
    && AxisSays(a.collection, entry.collection,
                entry.collection.status.Some? && CollectionStatus(entry.collection.status.value))
    && AxisSays(a.writing, entry.writing,
                entry.writing.status.Some? && WritingStatus(source, entry.writing.status.value))
    && a.finalDb == (if finalDbNotChecked then Axis(Unknown, NotChecked, false, false)
                     else Axis(Unknown, ReportMalformed, true, false))
  }

  /** Every pair of the detail says what the report's own entry for that pair says. */
  predicate DetailSays(d: Detail, source: Source, s: Summary, telemetryError: bool) {
    && PairSays(d.usd, s.usd, source, s.finalDbNotChecked)
    && PairSays(d.jpy, s.jpy, source, s.finalDbNotChecked)
    && PairSays(d.eur, s.eur, source, s.finalDbNotChecked)
    && d.telemetryError == telemetryError
  }

  lemma NormalizeSays(source: Source, s: Summary, telemetryError: bool)
    ensures DetailSays(Normalize(source, s, telemetryError), source, s, telemetryError)
  {
  }

  /** The report alone decides: there is one such detail. */
  lemma DetailIsUnique(c: Detail, d: Detail, source: Source, s: Summary, telemetryError: bool)
    requires DetailSays(c, source, s, telemetryError) && DetailSays(d, source, s, telemetryError)
    ensures c == d
  {
  }

  // ---- Counters ----

  /** A key of the cumulative rows (per source and pair) or of the cumulative rounds (per source). */
  datatype Tally =
    | Collected(source: Source, pair: Pair, status: Status)
    | UnknownReason(source: Source, pair: Pair, reason: Reason)
    | NotAttemptedReason(source: Source, pair: Pair, reason: Reason)
    | Written(source: Source, pair: Pair, status: Status)
    | FinalDb(source: Source, pair: Pair, status: Status)
    | MalformedItem(source: Source, pair: Pair)
    | UnrecordedItem(source: Source, pair: Pair)
    | Rounds(source: Source)
    | MalformedRound(source: Source)
    | TelemetryErrorRound(source: Source)
    | PartialRound(source: Source)

  function CollectionTallies(source: Source, p: Pair, c: Axis): multiset<Tally> {
    Times(Collected(source, p, c.status), 1)
    + Times(UnknownReason(source, p, c.reason), One(c.status == Unknown))
    + Times(NotAttemptedReason(source, p, c.reason), One(c.status == NotAttempted))
  }

  function ItemTallies(source: Source, p: Pair, a: PairAxes): multiset<Tally> {
    Times(Written(source, p, a.writing.status), 1)
    + Times(FinalDb(source, p, a.finalDb.status), 1)
    + Times(MalformedItem(source, p), One(a.collection.malformed) + One(a.writing.malformed) + One(a.finalDb.malformed))
    + Times(UnrecordedItem(source, p), One(a.collection.unrecorded) + One(a.writing.unrecorded))
  }

  function PairTallies(source: Source, p: Pair, a: PairAxes): multiset<Tally> {
    CollectionTallies(source, p, a.collection) + ItemTallies(source, p, a)
  }

  function ValidPairs(d: Detail): nat {
    One(d.usd.collection.status == Valid) + One(d.jpy.collection.status == Valid)
    + One(d.eur.collection.status == Valid)
  }

  predicate PairMalformed(a: PairAxes) {
    a.collection.malformed || a.writing.malformed || a.finalDb.malformed
  }

  predicate AnyMalformed(d: Detail) {
    PairMalformed(d.usd) || PairMalformed(d.jpy) || PairMalformed(d.eur)
  }

  function RoundTallies(source: Source, d: Detail): multiset<Tally> {
    Times(Rounds(source), 1)
    + Times(MalformedRound(source), One(AnyMalformed(d)))
    + Times(TelemetryErrorRound(source), One(d.telemetryError))
    + Times(PartialRound(source), One(0 < ValidPairs(d) < 3))
  }

  /** Everything one included round adds to the rows and to the rounds. */
  function Contribution(source: Source, d: Detail): multiset<Tally> {
    PairTallies(source, UsdKrw, d.usd) + PairTallies(source, JpyKrw, d.jpy) + PairTallies(source, EurKrw, d.eur)
    + RoundTallies(source, d)
  }

  /** Adding one round into the rows, pair by pair, and then into the rounds. */
  method AddRound(rows: multiset<Tally>, source: Source, d: Detail) returns (sum: multiset<Tally>)
    ensures sum == rows + Contribution(source, d)
  {
    hide PairTallies, RoundTallies;
    sum := rows;
    var i := 0;
    while i < |PAIRS|
      invariant 0 <= i <= 3
      invariant sum == rows + (if i > 0 then PairTallies(source, UsdKrw, d.usd) else multiset{})
                       + (if i > 1 then PairTallies(source, JpyKrw, d.jpy) else multiset{})
                       + (if i > 2 then PairTallies(source, EurKrw, d.eur) else multiset{})
    {
      sum := sum + PairTallies(source, PAIRS[i], d.At(PAIRS[i]));
      i := i + 1;
    }
    sum := sum + RoundTallies(source, d);
  }

  // ---- The equations that every total satisfies ----

  /** `reasons` is the dictionary of reasons that `m` holds for one source and pair. */
  ghost predicate UnknownReasons(m: multiset<Tally>, s: Source, p: Pair, reasons: multiset<Reason>) {
    forall r: Reason :: reasons[r] == m[UnknownReason(s, p, r)]
  }

  ghost predicate NotAttemptedReasons(m: multiset<Tally>, s: Source, p: Pair, reasons: multiset<Reason>) {
    forall r: Reason :: reasons[r] == m[NotAttemptedReason(s, p, r)]
  }

  ghost predicate ReasonsAddUp(m: multiset<Tally>, s: Source, p: Pair) {
    && (exists u :: UnknownReasons(m, s, p, u) && |u| == m[Collected(s, p, Unknown)])
    && (exists n :: NotAttemptedReasons(m, s, p, n) && |n| == m[Collected(s, p, NotAttempted)])
  }

  ghost predicate CollectionAddsUp(m: multiset<Tally>, s: Source, p: Pair) {
    m[Collected(s, p, Valid)] + m[Collected(s, p, Missing)] + m[Collected(s, p, Unknown)]
    + m[Collected(s, p, NotAttempted)] == m[Rounds(s)]
  }

  ghost predicate WritingAddsUp(m: multiset<Tally>, s: Source, p: Pair) {
    m[Written(s, p, Performed)] + m[Written(s, p, NoChangeNeeded)] + m[Written(s, p, PolicyBlocked)]
    + m[Written(s, p, NotAttempted)] + m[Written(s, p, Unknown)] == m[Rounds(s)]
  }

  ghost predicate StatusesAddUp(m: multiset<Tally>, s: Source, p: Pair) {
    CollectionAddsUp(m, s, p) && WritingAddsUp(m, s, p) && m[FinalDb(s, p, Unknown)] == m[Rounds(s)]
  }

  ghost predicate Balanced(m: multiset<Tally>) {
    && (forall s: Source, p: Pair :: StatusesAddUp(m, s, p))
    && (forall s: Source, p: Pair :: ReasonsAddUp(m, s, p))
    && (forall s: Source :: m[PartialRound(s)] <= m[Rounds(s)] && m[MalformedRound(s)] <= m[Rounds(s)])
  }

  /** How often a key occurs in the contribution of one round, read off the normalised axes. */
  ghost function PairCount(source: Source, p: Pair, a: PairAxes, t: Tally): nat {
    match t
    case Collected(s, q, st) => One(s == source && q == p && st == a.collection.status)
    case Written(s, q, st) => One(s == source && q == p && st == a.writing.status)
    case FinalDb(s, q, st) => One(s == source && q == p && st == a.finalDb.status)
    case UnknownReason(s, q, r) =>
      One(s == source && q == p && a.collection.status == Unknown && r == a.collection.reason)
    case NotAttemptedReason(s, q, r) =>
      One(s == source && q == p && a.collection.status == NotAttempted && r == a.collection.reason)
    case MalformedItem(s, q) =>
      if s == source && q == p then One(a.collection.malformed) + One(a.writing.malformed) + One(a.finalDb.malformed)
      else 0
    case UnrecordedItem(s, q) =>
      if s == source && q == p then One(a.collection.unrecorded) + One(a.writing.unrecorded) else 0
    case _ => 0
  }

  ghost function RoundCount(source: Source, d: Detail, t: Tally): nat {
    match t
    case Rounds(s) => One(s == source)
    case MalformedRound(s) => One(s == source && AnyMalformed(d))
    case TelemetryErrorRound(s) => One(s == source && d.telemetryError)
    case PartialRound(s) => One(s == source && 0 < ValidPairs(d) < 3)
    case _ => 0
  }

  lemma PairTalliesCount(source: Source, p: Pair, a: PairAxes, t: Tally)
    ensures PairTallies(source, p, a)[t] == PairCount(source, p, a, t)
  {
  }

  lemma RoundTalliesCount(source: Source, d: Detail, t: Tally)
    ensures RoundTallies(source, d)[t] == RoundCount(source, d, t)
  {
  }

  /** The dictionary `m` holds, key by key, what the round's axes say. */
  ghost predicate Holds(m: multiset<Tally>, source: Source, d: Detail) {
    forall t: Tally :: m[t] == PairCount(source, UsdKrw, d.usd, t) + PairCount(source, JpyKrw, d.jpy, t)
                               + PairCount(source, EurKrw, d.eur, t) + RoundCount(source, d, t)
  }

  lemma ContributionHolds(source: Source, d: Detail)
    ensures Holds(Contribution(source, d), source, d)
  {
    var m := Contribution(source, d);
    forall t: Tally
      ensures m[t] == PairCount(source, UsdKrw, d.usd, t) + PairCount(source, JpyKrw, d.jpy, t)
                      + PairCount(source, EurKrw, d.eur, t) + RoundCount(source, d, t)
    {
      PairTalliesCount(source, UsdKrw, d.usd, t);
      PairTalliesCount(source, JpyKrw, d.jpy, t);
      PairTalliesCount(source, EurKrw, d.eur, t);
      RoundTalliesCount(source, d, t);
    }
  }

  // ---- What one round counts for ----

  function AxesOf(d: Detail, p: Pair): PairAxes {
    match p
    case UsdKrw => d.usd
    case JpyKrw => d.jpy
    case EurKrw => d.eur
  }

  predicate AnyOf(a: PairAxes) { a.collection.malformed || a.writing.malformed || a.finalDb.malformed }

  predicate SomeButNotAll(a: bool, b: bool, c: bool) { (a || b || c) && !(a && b && c) }

  /** The round counts under this key. */
  predicate RoundHas(source: Source, d: Detail, t: Tally) {
    match t
    case Collected(s, p, status) => s == source && AxesOf(d, p).collection.status == status
    case UnknownReason(s, p, reason) =>
      s == source && AxesOf(d, p).collection.status == Unknown && AxesOf(d, p).collection.reason == reason
    case NotAttemptedReason(s, p, reason) =>
      s == source && AxesOf(d, p).collection.status == NotAttempted && AxesOf(d, p).collection.reason == reason
    case Written(s, p, status) => s == source && AxesOf(d, p).writing.status == status
    case FinalDb(s, p, status) => s == source && AxesOf(d, p).finalDb.status == status
    case MalformedItem(s, p) => s == source && AxesOf(d, p).collection.malformed
    case UnrecordedItem(s, p) => s == source && AxesOf(d, p).collection.unrecorded
    case Rounds(s) => s == source
    case MalformedRound(s) => s == source && (AnyOf(d.usd) || AnyOf(d.jpy) || AnyOf(d.eur))
    case TelemetryErrorRound(s) => s == source && d.telemetryError
    case PartialRound(s) =>
      s == source && SomeButNotAll(d.usd.collection.status == Valid, d.jpy.collection.status == Valid,
                                   d.eur.collection.status == Valid)
  }

  /** Items of the other two axes count a second and a third time. */
  predicate WritingHas(source: Source, d: Detail, t: Tally) {
    match t
    case MalformedItem(s, p) => s == source && AxesOf(d, p).writing.malformed
    case UnrecordedItem(s, p) => s == source && AxesOf(d, p).writing.unrecorded
    case _ => false
  }

  predicate FinalDbHas(source: Source, d: Detail, t: Tally) {
    t.MalformedItem? && t.source == source && AxesOf(d, t.pair).finalDb.malformed
  }

  lemma StatusCounts(source: Source, d: Detail, t: Tally)
    requires t.Collected? || t.Written? || t.FinalDb?
    ensures Contribution(source, d)[t]
            == One(RoundHas(source, d, t)) + One(WritingHas(source, d, t)) + One(FinalDbHas(source, d, t))
  {
    ContributionHolds(source, d);
    hide Contribution;
    match t.pair { case UsdKrw => case JpyKrw => case EurKrw => }
  }

  lemma ReasonCounts(source: Source, d: Detail, t: Tally)
    requires t.UnknownReason? || t.NotAttemptedReason?
    ensures Contribution(source, d)[t]
            == One(RoundHas(source, d, t)) + One(WritingHas(source, d, t)) + One(FinalDbHas(source, d, t))
  {
    ContributionHolds(source, d);
    hide Contribution;
    match t.pair { case UsdKrw => case JpyKrw => case EurKrw => }
  }

  lemma ItemCounts(source: Source, d: Detail, t: Tally)
    requires t.MalformedItem? || t.UnrecordedItem?
    ensures Contribution(source, d)[t]
            == One(RoundHas(source, d, t)) + One(WritingHas(source, d, t)) + One(FinalDbHas(source, d, t))
  {
    ContributionHolds(source, d);
    hide Contribution;
    match t.pair { case UsdKrw => case JpyKrw => case EurKrw => }
  }

  lemma RoundCounts(source: Source, d: Detail, t: Tally)
    requires t.Rounds? || t.MalformedRound? || t.TelemetryErrorRound? || t.PartialRound?
    ensures Contribution(source, d)[t]
            == One(RoundHas(source, d, t)) + One(WritingHas(source, d, t)) + One(FinalDbHas(source, d, t))
  {
    ContributionHolds(source, d);
    hide Contribution;
  }

  /** Each counter of a round is what the round has of it. */
  lemma ContributionCounts(source: Source, d: Detail, t: Tally)
    ensures Contribution(source, d)[t]
            == One(RoundHas(source, d, t)) + One(WritingHas(source, d, t)) + One(FinalDbHas(source, d, t))
  {
    hide Contribution, RoundHas, WritingHas, FinalDbHas;
    if t.Collected? || t.Written? || t.FinalDb? {
      StatusCounts(source, d, t);
    } else if t.UnknownReason? || t.NotAttemptedReason? {
      ReasonCounts(source, d, t);
    } else if t.MalformedItem? || t.UnrecordedItem? {
      ItemCounts(source, d, t);
    } else {
      RoundCounts(source, d, t);
    }
  }

  // ---- Balance of one round ----

  lemma ContributionIsBalanced(source: Source, d: Detail)
    requires WellFormed(source, d)
    ensures Balanced(Contribution(source, d))
  {
    ContributionHolds(source, d);
    OneRoundIsBalanced(Contribution(source, d), source, d);
  }

  lemma OneRoundIsBalanced(m: multiset<Tally>, source: Source, d: Detail)
    requires WellFormed(source, d) && Holds(m, source, d)
    ensures Balanced(m)
  {
    forall s: Source, p: Pair ensures StatusesAddUp(m, s, p) && ReasonsAddUp(m, s, p) {
      OneRoundStatuses(m, source, d, s, p);
      OneRoundReasons(m, source, d, s, p);
    }
    forall s: Source ensures m[PartialRound(s)] <= m[Rounds(s)] && m[MalformedRound(s)] <= m[Rounds(s)] {
    }
  }

  lemma OnlyItsPairCounts(m: multiset<Tally>, source: Source, d: Detail, p: Pair, t: Tally)
    requires Holds(m, source, d)
    requires t.Collected? || t.Written? || t.FinalDb? || t.UnknownReason? || t.NotAttemptedReason?
    requires t.pair == p
    ensures m[t] == PairCount(source, p, d.At(p), t)
  {
    match p {
      case UsdKrw =>
      case JpyKrw =>
      case EurKrw =>
    }
  }

  lemma OneRoundStatuses(m: multiset<Tally>, source: Source, d: Detail, s: Source, p: Pair)
    requires WellFormed(source, d) && Holds(m, source, d)
    ensures StatusesAddUp(m, s, p)
  {
    OneRoundCollection(m, source, d, s, p);
    OneRoundWriting(m, source, d, s, p);
    OnlyItsPairCounts(m, source, d, p, FinalDb(s, p, Unknown));
    assert d.At(p).finalDb.status == Unknown;
    RoundsCount(m, source, d, s);
  }

  lemma RoundsCount(m: multiset<Tally>, source: Source, d: Detail, s: Source)
    requires Holds(m, source, d)
    ensures m[Rounds(s)] == One(s == source)
  {
  }

  lemma OneRoundCollection(m: multiset<Tally>, source: Source, d: Detail, s: Source, p: Pair)
    requires WellFormed(source, d) && Holds(m, source, d)
    ensures CollectionAddsUp(m, s, p)
  {
    forall st: Status ensures m[Collected(s, p, st)] == One(s == source && d.At(p).collection.status == st) {
      OnlyItsPairCounts(m, source, d, p, Collected(s, p, st));
    }
    RoundsCount(m, source, d, s);
    assert d.At(p).collection.status in COLLECTION_STATUSES;
  }

  lemma OneRoundWriting(m: multiset<Tally>, source: Source, d: Detail, s: Source, p: Pair)
    requires WellFormed(source, d) && Holds(m, source, d)
    ensures WritingAddsUp(m, s, p)
  {
    forall st: Status ensures m[Written(s, p, st)] == One(s == source && d.At(p).writing.status == st) {
      OnlyItsPairCounts(m, source, d, p, Written(s, p, st));
    }
    RoundsCount(m, source, d, s);
    assert d.At(p).writing.status in WritingStatuses(source);
  }

  lemma OneRoundReasons(m: multiset<Tally>, source: Source, d: Detail, s: Source, p: Pair)
    requires Holds(m, source, d)
    ensures ReasonsAddUp(m, s, p)
  {
    var c := d.At(p).collection;
    var u := if s == source && c.status == Unknown then multiset{c.reason} else multiset{};
    var n := if s == source && c.status == NotAttempted then multiset{c.reason} else multiset{};
    forall r: Reason ensures u[r] == m[UnknownReason(s, p, r)] && n[r] == m[NotAttemptedReason(s, p, r)] {
      OnlyItsPairCounts(m, source, d, p, UnknownReason(s, p, r));
      OnlyItsPairCounts(m, source, d, p, NotAttemptedReason(s, p, r));
    }
    OnlyItsPairCounts(m, source, d, p, Collected(s, p, Unknown));
    OnlyItsPairCounts(m, source, d, p, Collected(s, p, NotAttempted));
    assert UnknownReasons(m, s, p, u) && NotAttemptedReasons(m, s, p, n);
  }

  lemma SumOfReasons(x: multiset<Tally>, y: multiset<Tally>, s: Source, p: Pair)
    requires ReasonsAddUp(x, s, p) && ReasonsAddUp(y, s, p)
    ensures ReasonsAddUp(x + y, s, p)
  {
    var ux, uy :| UnknownReasons(x, s, p, ux) && |ux| == x[Collected(s, p, Unknown)]
                  && UnknownReasons(y, s, p, uy) && |uy| == y[Collected(s, p, Unknown)];
    assert UnknownReasons(x + y, s, p, ux + uy);
    var nx, ny :| NotAttemptedReasons(x, s, p, nx) && |nx| == x[Collected(s, p, NotAttempted)]
                  && NotAttemptedReasons(y, s, p, ny) && |ny| == y[Collected(s, p, NotAttempted)];
    assert NotAttemptedReasons(x + y, s, p, nx + ny);
  }

  lemma SumIsBalanced(x: multiset<Tally>, y: multiset<Tally>)
    requires Balanced(x) && Balanced(y)
    ensures Balanced(x + y)
  {
    hide ReasonsAddUp;
    forall s: Source, p: Pair ensures StatusesAddUp(x + y, s, p) && ReasonsAddUp(x + y, s, p) {
      assert StatusesAddUp(x, s, p) && StatusesAddUp(y, s, p);
      assert ReasonsAddUp(x, s, p) && ReasonsAddUp(y, s, p);
      SumOfReasons(x, y, s, p);
    }
  }
}
