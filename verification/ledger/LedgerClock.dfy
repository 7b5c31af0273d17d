/** The two clocks of the ledger: when a pair of readings is accepted, and what it takes to anchor them again. */
module LedgerClock {
  import opened Wrappers
  import opened LedgerState
  import opened LedgerSpec

  /** The clock after a pair of readings has passed the gate or been turned away. */
  function Read(c: Clock, at: Instant): Clock {
    match CheckClock(c, at.wall, at.mono)
    case Rejected(d, _) => d
    case Accepted => c.(last := Some(at))
  }

  function ReadAll(c: Clock, readings: seq<Instant>): Clock
    decreases |readings|
  {
    if readings == [] then c else Read(ReadAll(c, readings[..|readings| - 1]), readings[|readings| - 1])
  }

  const NEW_CLOCK := Clock(None, false, None, 0, 0, 0)

  /** Monotonic time never goes back, and wall time goes back only by anchoring again. */
  predicate Onward(c: Clock, d: Clock) {
    && c.reanchors <= d.reanchors
    && (c.last.Some? ==> d.last.Some? && c.last.value.mono <= d.last.value.mono)
    && (c.last.Some? && d.last.value.wall < c.last.value.wall ==> c.reanchors < d.reanchors)
  }

  predicate ClockOk(c: Clock) {
    && (c.isolated ==> c.last.Some?)
    && (c.isolated <==> c.candidate.Some?)
    && (c.isolated ==> c.last.value.mono <= c.candidate.value.mono)
  }

  lemma ReadOnward(c: Clock, at: Instant)
    requires ClockOk(c)
    ensures Onward(c, Read(c, at)) && ClockOk(Read(c, at))
  {
  }

  lemma {:induction false} ClockNeverGoesBack(readings: seq<Instant>, i: nat)
    requires i <= |readings|
    ensures Onward(ReadAll(NEW_CLOCK, readings[..i]), ReadAll(NEW_CLOCK, readings))
    ensures ClockOk(ReadAll(NEW_CLOCK, readings))
    decreases |readings|
  {
    if i == |readings| {
      assert readings[..i] == readings;
      if i > 0 {
        ClockNeverGoesBack(readings[..i - 1], 0);
        ReadOnward(ReadAll(NEW_CLOCK, readings[..i - 1]), readings[i - 1]);
      }
    } else {
      var before := readings[..|readings| - 1];
      assert before[..i] == readings[..i];
      ClockNeverGoesBack(before, i);
      ReadOnward(ReadAll(NEW_CLOCK, before), readings[|readings| - 1]);
    }
  }

  // ---- What is accepted ----

  const SECOND := 1_000_000

  /** Neither clock goes back, and both go on by the same time, up to a minute. */
  predicate InStep(last: Instant, at: Instant) {
    && last.wall <= at.wall && last.mono <= at.mono
    && -60 * SECOND <= (at.wall - last.wall) - (at.mono - last.mono) <= 60 * SECOND
  }

  /** What a clock takes for the present. */
  predicate Accepts(c: Clock, at: Instant) { c.last.None? || (!c.isolated && InStep(c.last.value, at)) }

  /** The gate lets through exactly such pairs, and whatever it turns away leaves the accepted pair alone or anchors the
      clock again. */
  lemma GateIsExact(c: Clock, at: Instant)
    requires ClockOk(c)
    ensures CheckClock(c, at.wall, at.mono).Accepted? <==> Accepts(c, at)
    ensures !Accepts(c, at) ==> Read(c, at).last == c.last || Read(c, at).reanchors == c.reanchors + 1
    ensures Read(c, at).reanchors > c.reanchors ==> Read(c, at).last == Some(at) && !Read(c, at).isolated
  {
  }

  /** Over any readings: a pair moves the clock without anchoring it again exactly if the clock accepts it. */
  lemma {:induction false} MovesExactlyWhen(readings: seq<Instant>, at: Instant)
    ensures var c, d := ReadAll(NEW_CLOCK, readings), ReadAll(NEW_CLOCK, readings + [at]);
            && (Accepts(c, at) <==> d == c.(last := Some(at)) && !d.isolated)
            && (!Accepts(c, at) ==> d.last == c.last || d.reanchors == c.reanchors + 1)
  {
    assert (readings + [at])[..|readings|] == readings;
    var c := ReadAll(NEW_CLOCK, readings);
    ClockNeverGoesBack(readings, 0);
    GateIsExact(c, at);
    if !Accepts(c, at) {
      RejectedLeavesATrace(c, at);
    }
  }

  /** A pair that is turned away and is not the accepted one never leaves the clock as acceptance would. */
  lemma RejectedLeavesATrace(c: Clock, at: Instant)
    requires ClockOk(c) && !Accepts(c, at)
    ensures var d := Read(c, at); !(d == c.(last := Some(at)) && !d.isolated)
  {
  }

  // ---- Anchoring again ----

  /** Both clocks go on, by the same time up to a second. */
  predicate Steadily(previous: Instant, at: Instant) {
    && previous.wall < at.wall && previous.mono < at.mono
    && -SECOND <= (at.wall - previous.wall) - (at.mono - previous.mono) <= SECOND
  }

  lemma SteadilyIsSteady(previous: Instant, at: Instant)
    ensures Steady(previous, at.wall, at.mono) <==> Steadily(previous, at)
  {
  }

  /** Readings that progress steadily, each with the next. */
  predicate Chain(c: seq<Instant>) {
    |c| >= 1 && forall i :: 0 < i < |c| ==> Steadily(c[i - 1], c[i])
  }

  /** Consecutive readings without those whose monotonic time lies behind `mono`, which are turned away and leave no
      trace, and without immediate repetitions. */
  function Sifted(readings: seq<Instant>, mono: int): seq<Instant>
    decreases |readings|
  {
    if readings == [] then []
    else
      var rest, at := Sifted(readings[..|readings| - 1], mono), readings[|readings| - 1];
      if at.mono < mono || (rest != [] && rest[|rest| - 1] == at) then rest else rest + [at]
  }

  lemma SiftedAppend(readings: seq<Instant>, at: Instant, mono: int, j: nat)
    requires j <= |readings|
    ensures var rest := Sifted(readings[j..], mono);
            Sifted((readings + [at])[j..], mono)
            == if at.mono < mono || (rest != [] && rest[|rest| - 1] == at) then rest else rest + [at]
  {
    assert (readings + [at])[j..] == readings[j..] + [at];
    assert (readings[j..] + [at])[..|readings| - j] == readings[j..];
  }

  lemma SiftedOne(readings: seq<Instant>, at: Instant, mono: int)
    requires at.mono >= mono
    ensures Sifted((readings + [at])[|readings|..], mono) == [at]
  {
    SiftedAppend(readings, at, mono, |readings|);
  }

  /** An isolated clock stands at the end of a steady chain, as long as it says. */
  predicate Gathered(c: Clock, chain: seq<Instant>) {
    && Chain(chain) && c.candidate == Some(chain[|chain| - 1])
    && chain[0].mono == c.firstMono && c.pairs <= |chain|
  }

  /** The chain consists of the latest readings, one after another. */
  ghost predicate GatheredFrom(c: Clock, readings: seq<Instant>) {
    c.isolated ==>
      c.last.Some? && exists j: nat :: j <= |readings| && Gathered(c, Sifted(readings[j..], c.last.value.mono))
  }

  lemma ChainGrows(chain: seq<Instant>, at: Instant)
    requires Chain(chain) && Steadily(chain[|chain| - 1], at)
    ensures Chain(chain + [at])
  {
  }

  /** Three steady readings or more, over ten seconds or more. */
  predicate LongEnough(chain: seq<Instant>) {
    Chain(chain) && |chain| >= 3 && chain[|chain| - 1].mono - chain[0].mono >= 10 * SECOND
  }

  predicate Anchors(d: Clock, chain: seq<Instant>) {
    LongEnough(chain) && d.last == Some(chain[|chain| - 1]) && !d.isolated
  }

  /** Only a steady chain of the latest readings, at least three of them over at least ten seconds, anchors the clock
      again. */
  ghost predicate Reanchored(c: Clock, d: Clock, readings: seq<Instant>) {
    d.reanchors > c.reanchors ==>
      c.last.Some? && exists j: nat :: j <= |readings| && Anchors(d, Sifted(readings[j..], c.last.value.mono))
  }

  lemma IsolateGathers(c: Clock, at: Instant, readings: seq<Instant>)
    requires ClockOk(c) && GatheredFrom(c, readings) && c.last.Some? && at.mono >= c.last.value.mono
    ensures var d := Isolate(c, at.wall, at.mono);
            GatheredFrom(d, readings + [at]) && Reanchored(c, d, readings + [at])
  {
    hide Sifted;
    SiftedOne(readings, at, c.last.value.mono);
    if c.isolated {
      var j: nat :| j <= |readings| && Gathered(c, Sifted(readings[j..], c.last.value.mono));
      SiftedAppend(readings, at, c.last.value.mono, j);
      if Steady(c.candidate.value, at.wall, at.mono) {
        ChainGoesOn(c, at, Sifted(readings[j..], c.last.value.mono));
        Witness(c, readings + [at], j, at);
      } else if c.candidate == Some(at) {
        Witness(c, readings + [at], j, at);
      } else {
        Witness(c, readings + [at], |readings|, at);
      }
    } else {
      Witness(c, readings + [at], |readings|, at);
    }
  }

  lemma ChainGoesOn(c: Clock, at: Instant, was: seq<Instant>)
    requires c.isolated && Gathered(c, was) && Steady(c.candidate.value, at.wall, at.mono)
    ensures Supports(c, at, was + [at]) && was[|was| - 1] != at
  {
    SteadilyIsSteady(c.candidate.value, at);
    ChainGrows(was, at);
  }

  /** The chain has as many members and spans as much time as the clock says after reading `at`, its last member. */
  predicate Supports(c: Clock, at: Instant, chain: seq<Instant>) {
    && Chain(chain) && chain[|chain| - 1] == at
    && var d := Isolate(c, at.wall, at.mono);
       && (d.isolated ==> chain[0].mono == d.firstMono && d.pairs <= |chain|)
       && (d.reanchors > c.reanchors ==> |chain| >= REANCHOR_PAIRS && at.mono - chain[0].mono >= REANCHOR_MIN_SPAN)
  }

  lemma Witness(c: Clock, readings: seq<Instant>, j: nat, at: Instant)
    requires j <= |readings| && c.last.Some?
    requires Supports(c, at, Sifted(readings[j..], c.last.value.mono))
    ensures var d := Isolate(c, at.wall, at.mono); GatheredFrom(d, readings) && Reanchored(c, d, readings)
  {
    hide Sifted, Chain;
    var d := Isolate(c, at.wall, at.mono);
    assert d.isolated ==> Gathered(d, Sifted(readings[j..], d.last.value.mono));
    assert d.reanchors > c.reanchors ==> Anchors(d, Sifted(readings[j..], c.last.value.mono));
  }

  lemma ReadGathers(c: Clock, at: Instant, readings: seq<Instant>)
    requires ClockOk(c) && GatheredFrom(c, readings)
    ensures GatheredFrom(Read(c, at), readings + [at]) && Reanchored(c, Read(c, at), readings + [at])
  {
    if c.last.Some? && at.mono < c.last.value.mono {
      if c.isolated {
        var j: nat :| j <= |readings| && Gathered(c, Sifted(readings[j..], c.last.value.mono));
        SiftedAppend(readings, at, c.last.value.mono, j);
      }
    } else if c.isolated || Suspicious(c, at.wall, at.mono) {
      IsolateGathers(c, at, readings);
    }
  }

  lemma {:induction false} GatheringIsSteady(readings: seq<Instant>)
    ensures ClockOk(ReadAll(NEW_CLOCK, readings)) && GatheredFrom(ReadAll(NEW_CLOCK, readings), readings)
    decreases |readings|
  {
    if readings != [] {
      var before, at := readings[..|readings| - 1], readings[|readings| - 1];
      GatheringIsSteady(before);
      var c := ReadAll(NEW_CLOCK, before);
      ReadOnward(c, at);
      assert readings == before + [at];
      hide Read, ClockOk, GatheredFrom;
      ReadGathers(c, at, before);
    }
  }

  /** In every run of readings. */
  lemma ReanchorNeedsSteadyReadings(readings: seq<Instant>, at: Instant)
    ensures Reanchored(ReadAll(NEW_CLOCK, readings), Read(ReadAll(NEW_CLOCK, readings), at), readings + [at])
  {
    hide Read, GatheredFrom, ClockOk;
    GatheringIsSteady(readings);
    ReadGathers(ReadAll(NEW_CLOCK, readings), at, readings);
  }

  /** What an isolated clock has gathered of a chain that it is reading. */
  predicate Reads(c: Clock, chain: seq<Instant>, n: nat) {
    && 1 <= n <= |chain| && c.isolated && c.candidate == Some(chain[n - 1]) && c.firstMono <= chain[0].mono
    && c.pairs >= (if n < 3 then n else 3)
  }

  lemma {:induction false} ChainGoesForward(chain: seq<Instant>, n: nat)
    requires Chain(chain) && n < |chain|
    ensures chain[0].mono <= chain[n].mono
  {
    if n > 0 {
      ChainGoesForward(chain, n - 1);
    }
  }

  lemma FirstOfChain(c: Clock, chain: seq<Instant>)
    requires ClockOk(c) && Chain(chain) && c.last.Some? && c.last.value.mono <= chain[0].mono && !Accepts(c, chain[0])
    requires c.isolated ==> c.firstMono <= c.candidate.value.mono && c.pairs >= 1
    ensures var d := Read(c, chain[0]); c.reanchors < d.reanchors || (Reads(d, chain, 1) && d.reanchors == c.reanchors)
    ensures Read(c, chain[0]).isolated ==> Read(c, chain[0]).last == c.last
  {
  }

  lemma NextOfChain(c: Clock, chain: seq<Instant>, n: nat)
    requires ClockOk(c) && Chain(chain) && n < |chain| && Reads(c, chain, n)
    requires c.last.Some? && c.last.value.mono <= chain[0].mono
    ensures var d := Read(c, chain[n]);
            && (LongEnough(chain[..n + 1]) ==> d.reanchors > c.reanchors)
            && (c.reanchors < d.reanchors || (Reads(d, chain, n + 1) && d.reanchors == c.reanchors && d.last == c.last))
  {
    ChainGoesForward(chain, n);
    SteadilyIsSteady(chain[n - 1], chain[n]);
    hide Chain;
  }

  /** A clock counts its steady readings from a first one that does not lie behind the last. */
  predicate CountOk(c: Clock) {
    c.isolated ==> c.candidate.Some? && c.firstMono <= c.candidate.value.mono && c.pairs >= 1
  }

  lemma {:induction false} CountsFromTheFirst(readings: seq<Instant>)
    ensures ClockOk(ReadAll(NEW_CLOCK, readings)) && CountOk(ReadAll(NEW_CLOCK, readings))
    decreases |readings|
  {
    if readings != [] {
      CountsFromTheFirst(readings[..|readings| - 1]);
      ReadOnward(ReadAll(NEW_CLOCK, readings[..|readings| - 1]), readings[|readings| - 1]);
    }
  }

  lemma {:induction false} ReadsChain(readings: seq<Instant>, chain: seq<Instant>, n: nat)
    requires Chain(chain) && 1 <= n <= |chain|
    requires var c := ReadAll(NEW_CLOCK, readings);
             c.last.Some? && c.last.value.mono <= chain[0].mono && !Accepts(c, chain[0])
    ensures var c, d := ReadAll(NEW_CLOCK, readings), ReadAll(NEW_CLOCK, readings + chain[..n]);
            || c.reanchors < d.reanchors
            || (Reads(d, chain, n) && d.reanchors == c.reanchors && d.last == c.last && !LongEnough(chain[..n]))
  {
    var c := ReadAll(NEW_CLOCK, readings);
    assert (readings + chain[..n])[..|readings| + n - 1] == readings + chain[..n - 1];
    CountsFromTheFirst(readings);
    CountsFromTheFirst(readings + chain[..n - 1]);
    if n == 1 {
      assert readings + chain[..0] == readings;
      FirstOfChain(c, chain);
    } else {
      ReadsChain(readings, chain, n - 1);
      var d := ReadAll(NEW_CLOCK, readings + chain[..n - 1]);
      if c.reanchors < d.reanchors {
        ReadOnward(d, chain[n - 1]);
      } else {
        NextOfChain(d, chain, n - 1);
      }
    }
  }

  /** Conversely a clock that turns away the first reading of a steady chain which is long enough, and does not lie
      behind the accepted monotonic time, is anchored again before the chain ends. */
  lemma SteadyReadingsAnchor(readings: seq<Instant>, chain: seq<Instant>)
    requires LongEnough(chain)
    requires var c := ReadAll(NEW_CLOCK, readings);
             c.last.Some? && c.last.value.mono <= chain[0].mono && !Accepts(c, chain[0])
    ensures ReadAll(NEW_CLOCK, readings + chain).reanchors > ReadAll(NEW_CLOCK, readings).reanchors
  {
    assert chain[..|chain|] == chain;
    ReadsChain(readings, chain, |chain|);
  }
}
