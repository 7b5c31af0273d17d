/** Fixed-width revision keys (app/atomic_value_schema.py): their string order is the order of the revisions. */
module RevisionKeys {
  import opened Wrappers

  /** A revision: canonical epoch in microseconds, and row id. */
  datatype Revision = Revision(epoch: int, id: int)

  const WIDTH := 20
  const LIMIT := 100_000_000_000_000_000_000

  predicate InRange(r: Revision) { 0 <= r.epoch < LIMIT && 0 <= r.id < LIMIT }

  predicate Before(a: Revision, b: Revision) { a.epoch < b.epoch || (a.epoch == b.epoch && a.id < b.id) }

  function Power(w: nat): nat { if w == 0 then 1 else 10 * Power(w - 1) }

  function Digit(d: nat): char
    requires d < 10
  {
    '0' + d as char
  }

  predicate IsDigit(c: char) { '0' <= c <= '9' }

  /** `n` in `w` decimal digits, with zeros in front. */
  function Pad(n: nat, w: nat): (s: string)
    ensures |s| == w && forall i :: 0 <= i < w ==> IsDigit(s[i])
  {
    if w == 0 then "" else Pad(n / 10, w - 1) + [Digit(n % 10)]
  }

  function Make(r: Revision): Option<string> {
    if InRange(r) then Some(Pad(r.epoch, WIDTH) + ":" + Pad(r.id, WIDTH)) else None
  }

  function Value(c: char): (d: nat)
    requires IsDigit(c)
    ensures d < 10 && Digit(d) == c
  {
    c as int - '0' as int
  }

  function Number(s: string): nat
    requires forall i :: 0 <= i < |s| ==> IsDigit(s[i])
  {
    if s == "" then 0 else 10 * Number(s[..|s| - 1]) + Value(s[|s| - 1])
  }

  /** The parts between colons. */
  function Split(s: string): (parts: seq<string>)
    ensures |parts| >= 1
  {
    if s == "" then [""]
    else
      var rest := Split(s[1..]);
      if s[0] == ':' then [""] + rest else [[s[0]] + rest[0]] + rest[1..]
  }

  predicate IsField(s: string) { |s| == WIDTH && forall i :: 0 <= i < |s| ==> IsDigit(s[i]) }

  function Parse(key: string): Option<Revision> {
    var parts := Split(key);
    if |parts| != 2 || !IsField(parts[0]) || !IsField(parts[1]) then None
    else
      var r := Revision(Number(parts[0]), Number(parts[1]));
      if InRange(r) then Some(r) else None
  }

  // ---- Digits ----

  lemma {:induction false} NumberOfPad(n: nat, w: nat)
    requires n < Power(w)
    ensures Number(Pad(n, w)) == n
  {
    if w > 0 {
      NumberOfPad(n / 10, w - 1);
      assert Pad(n, w)[..w - 1] == Pad(n / 10, w - 1);
    }
  }

  lemma {:induction false} PadOfNumber(s: string)
    requires forall i :: 0 <= i < |s| ==> IsDigit(s[i])
    ensures Number(s) < Power(|s|) && Pad(Number(s), |s|) == s
  {
    if s != "" {
      var front := s[..|s| - 1];
      PadOfNumber(front);
      var d := Value(s[|s| - 1]);
      assert Number(s) / 10 == Number(front) && Number(s) % 10 == d;
      assert s == front + [s[|s| - 1]];
    }
  }

  lemma WidthIsEnough()
    ensures Power(WIDTH) == LIMIT
  {
    assert Power(5) == 100_000;
    assert Power(10) == 100_000 * Power(5);
    assert Power(15) == 100_000 * Power(10);
    assert Power(20) == 100_000 * Power(15);
  }

  // ---- Order ----

  /** Order by character codes, the first difference deciding. */
  predicate Less(a: string, b: string) {
    b != "" && (a == "" || a[0] < b[0] || (a[0] == b[0] && Less(a[1..], b[1..])))
  }

  lemma {:induction false} LessPrefix(p: string, x: string, y: string)
    ensures Less(p + x, p + y) <==> Less(x, y)
  {
    if p == "" {
      assert p + x == x && p + y == y;
    } else {
      LessPrefix(p[1..], x, y);
      assert (p + x)[1..] == p[1..] + x && (p + y)[1..] == p[1..] + y;
    }
  }

  /** Padded numbers of one width compare as numbers, and what follows them decides only between equals. */
  lemma {:induction false} PadOrder(a: nat, b: nat, w: nat, x: string, y: string)
    requires a < Power(w) && b < Power(w)
    ensures Less(Pad(a, w) + x, Pad(b, w) + y) <==> a < b || (a == b && Less(x, y))
    decreases w
  {
    if w == 0 {
      assert Pad(a, w) + x == x && Pad(b, w) + y == y;
    } else {
      var x', y' := [Digit(a % 10)] + x, [Digit(b % 10)] + y;
      PadOrder(a / 10, b / 10, w - 1, x', y');
      assert Pad(a, w) + x == Pad(a / 10, w - 1) + x';
      assert Pad(b, w) + y == Pad(b / 10, w - 1) + y';
      assert x'[1..] == x && y'[1..] == y;
    }
  }

  /** String order on keys is tuple order on revisions. */
  lemma KeyOrder(a: Revision, b: Revision)
    requires InRange(a) && InRange(b)
    ensures Less(Make(a).value, Make(b).value) <==> Before(a, b)
  {
    WidthIsEnough();
    var x, y := ":" + Pad(a.id, WIDTH), ":" + Pad(b.id, WIDTH);
    PadOrder(a.epoch, b.epoch, WIDTH, x, y);
    assert Pad(a.epoch, WIDTH) + ":" + Pad(a.id, WIDTH) == Pad(a.epoch, WIDTH) + x;
    assert Pad(b.epoch, WIDTH) + ":" + Pad(b.id, WIDTH) == Pad(b.epoch, WIDTH) + y;
    LessPrefix(":", Pad(a.id, WIDTH), Pad(b.id, WIDTH));
    PadOrder(a.id, b.id, WIDTH, "", "");
    assert Pad(a.id, WIDTH) + "" == Pad(a.id, WIDTH) && Pad(b.id, WIDTH) + "" == Pad(b.id, WIDTH);
  }

  // ---- Round trips ----

  lemma {:induction false} SplitWithoutColon(s: string)
    requires forall i :: 0 <= i < |s| ==> s[i] != ':'
    ensures Split(s) == [s]
  {
    if s != "" {
      SplitWithoutColon(s[1..]);
      assert [s[0]] + s[1..] == s;
    }
  }

  lemma {:induction false} SplitAtColon(a: string, b: string)
    requires forall i :: 0 <= i < |a| ==> a[i] != ':'
    requires forall i :: 0 <= i < |b| ==> b[i] != ':'
    ensures Split(a + ":" + b) == [a, b]
  {
    var s := a + ":" + b;
    if a == "" {
      assert s[1..] == b;
      SplitWithoutColon(b);
    } else {
      SplitAtColon(a[1..], b);
      assert s[1..] == a[1..] + ":" + b;
      assert [a[0]] + a[1..] == a;
    }
  }

  /** The parts, joined again, are the string. */
  function Join(parts: seq<string>): string
    requires |parts| >= 1
  {
    if |parts| == 1 then parts[0] else parts[0] + ":" + Join(parts[1..])
  }

  lemma {:induction false} JoinOfSplit(s: string)
    ensures Join(Split(s)) == s
  {
    if s != "" {
      JoinOfSplit(s[1..]);
      var rest := Split(s[1..]);
      if s[0] == ':' {
        assert ([""] + rest)[1..] == rest;
      } else {
        var parts := [[s[0]] + rest[0]] + rest[1..];
        if |rest| > 1 {
          assert parts[1..] == rest[1..];
          assert Join(parts) == [s[0]] + rest[0] + ":" + Join(rest[1..]);
        }
      }
    }
  }

  lemma ParseOfMake(r: Revision)
    requires InRange(r)
    ensures Parse(Make(r).value) == Some(r)
  {
    WidthIsEnough();
    SplitAtColon(Pad(r.epoch, WIDTH), Pad(r.id, WIDTH));
    NumberOfPad(r.epoch, WIDTH);
    NumberOfPad(r.id, WIDTH);
  }

  lemma MakeOfParse(key: string)
    requires Parse(key).Some?
    ensures InRange(Parse(key).value) && Make(Parse(key).value) == Some(key)
  {
    var parts := Split(key);
    JoinOfSplit(key);
    assert parts[1..] == [parts[1]];
    PadOfNumber(parts[0]);
    PadOfNumber(parts[1]);
  }

  /** Exactly the keys that `Make` can produce are accepted. */
  lemma ParseAcceptsExactlyKeys(key: string)
    ensures Parse(key).Some? <==> exists r :: Make(r) == Some(key)
  {
    if Parse(key).Some? {
      MakeOfParse(key);
    }
    forall r | Make(r) == Some(key) ensures Parse(key).Some? {
      ParseOfMake(r);
    }
  }

  lemma MakeIsInjective(a: Revision, b: Revision)
    requires InRange(a) && InRange(b)
    ensures Make(a) == Make(b) <==> a == b
  {
    ParseOfMake(a);
    ParseOfMake(b);
  }
}
