/** Sorted keys in bounded blocks (`_SortedBlocks` in app/d7_round_ledger.py), which the ledger keeps per source for its
    cohorts. */
module SortedBlocks {
  datatype Key = Key(wall: int, n: nat)

  predicate Le(a: Key, b: Key) { a.wall < b.wall || (a.wall == b.wall && a.n <= b.n) }
  predicate Lt(a: Key, b: Key) { !Le(b, a) }

  predicate Sorted(s: seq<Key>) { forall i, j :: 0 <= i < j < |s| ==> Le(s[i], s[j]) }
  predicate AllLe(s: seq<Key>, k: Key) { forall i :: 0 <= i < |s| ==> Le(s[i], k) }

  const LIMIT := 256
  const HALF := 128

  // ---- Blocks ----

  predicate BlockOk(b: seq<Key>) { 1 <= |b| <= LIMIT && Sorted(b) }

  function Last(b: seq<Key>): Key
    requires b != []
  {
    b[|b| - 1]
  }

  /** Blocks are neither empty nor too long, each is sorted, and they follow one another. */
  predicate BlocksOk(blocks: seq<seq<Key>>) {
    && (forall i :: 0 <= i < |blocks| ==> BlockOk(blocks[i]))
    && (forall i, j :: 0 <= i < j < |blocks| ==> Le(Last(blocks[i]), blocks[j][0]))
  }

  predicate MaxesOk(blocks: seq<seq<Key>>, maxes: seq<Key>) {
    |maxes| == |blocks| && forall i :: 0 <= i < |blocks| ==> blocks[i] != [] && maxes[i] == Last(blocks[i])
  }

  function Keys(blocks: seq<seq<Key>>): multiset<Key> {
    if blocks == [] then multiset{} else multiset(blocks[0]) + Keys(blocks[1..])
  }

  lemma {:induction false} KeysConcat(a: seq<seq<Key>>, b: seq<seq<Key>>)
    ensures Keys(a + b) == Keys(a) + Keys(b)
  {
    if a == [] {
      assert a + b == b;
    } else {
      assert (a + b)[0] == a[0] && (a + b)[1..] == a[1..] + b;
      KeysConcat(a[1..], b);
    }
  }

  lemma KeysOfOne(b: seq<Key>)
    ensures Keys([b]) == multiset(b)
  {
    assert [b][1..] == [];
  }

  /** The keys with one block put in the place of another, or several, or none. */
  lemma KeysReplaced(blocks: seq<seq<Key>>, i: nat, with_: seq<seq<Key>>)
    requires i < |blocks|
    ensures Keys(blocks[..i] + with_ + blocks[i + 1..]) == Keys(blocks) - multiset(blocks[i]) + Keys(with_)
    ensures forall k :: k in blocks[i] ==> Keys(blocks)[k] >= multiset(blocks[i])[k]
  {
    assert blocks == blocks[..i] + [blocks[i]] + blocks[i + 1..];
    KeysConcat(blocks[..i] + [blocks[i]], blocks[i + 1..]);
    KeysConcat(blocks[..i], [blocks[i]]);
    KeysOfOne(blocks[i]);
    KeysConcat(blocks[..i] + with_, blocks[i + 1..]);
    KeysConcat(blocks[..i], with_);
  }

  lemma {:induction false} KeyHasBlock(blocks: seq<seq<Key>>, k: Key)
    ensures k in Keys(blocks) <==> exists i :: 0 <= i < |blocks| && k in blocks[i]
  {
    if blocks != [] {
      KeyHasBlock(blocks[1..], k);
      if i :| 0 <= i < |blocks| && k in blocks[i] {
        if i > 0 {
          assert blocks[1..][i - 1] == blocks[i];
        }
      }
      if i :| 0 <= i < |blocks[1..]| && k in blocks[1..][i] {
        assert blocks[i + 1] == blocks[1..][i];
      }
    }
  }

  /** The first position whose key is not below `k`. */
  method BisectLeft(s: seq<Key>, k: Key) returns (i: nat)
    requires Sorted(s)
    ensures i <= |s|
    ensures forall j :: 0 <= j < i ==> Lt(s[j], k)
    ensures forall j :: i <= j < |s| ==> Le(k, s[j])
  {
    var lo, hi := 0, |s|;
    while lo < hi
      invariant 0 <= lo <= hi <= |s|
      invariant forall j :: 0 <= j < lo ==> Lt(s[j], k)
      invariant forall j :: hi <= j < |s| ==> Le(k, s[j])
    {
      var mid := (lo + hi) / 2;
      if Lt(s[mid], k) {
        lo := mid + 1;
      } else {
        hi := mid;
      }
    }
    i := lo;
  }

  method Insort(s: seq<Key>, k: Key) returns (t: seq<Key>)
    requires Sorted(s)
    ensures Sorted(t) && |t| == |s| + 1 && multiset(t) == multiset(s) + multiset{k}
  {
    var i := 0;
    while i < |s| && Le(s[i], k)
      invariant 0 <= i <= |s| && forall j :: 0 <= j < i ==> Le(s[j], k)
    {
      i := i + 1;
    }
    t := s[..i] + [k] + s[i..];
    InsertedKeys(s, i, k);
    InsertedSorted(s, i, k);
  }

  lemma InsertedKeys(s: seq<Key>, i: nat, k: Key)
    requires i <= |s|
    ensures multiset(s[..i] + [k] + s[i..]) == multiset(s) + multiset{k}
  {
    assert s == s[..i] + s[i..];
  }

  lemma InsertedSorted(s: seq<Key>, i: nat, k: Key)
    requires Sorted(s) && i <= |s| && (forall j :: 0 <= j < i ==> Le(s[j], k)) && (i < |s| ==> !Le(s[i], k))
    ensures Sorted(s[..i] + [k] + s[i..])
  {
    forall j | i <= j < |s| ensures Le(k, s[j]) {
      assert Le(s[i], s[j]) || i == j;
    }
  }

  lemma MaxesSorted(blocks: seq<seq<Key>>, maxes: seq<Key>)
    requires BlocksOk(blocks) && MaxesOk(blocks, maxes)
    ensures Sorted(maxes)
  {
    forall i, j | 0 <= i < j < |maxes| ensures Le(maxes[i], maxes[j]) {
      assert BlockOk(blocks[j]) && Le(Last(blocks[i]), blocks[j][0]);
      assert Le(blocks[j][0], Last(blocks[j]));
    }
  }

  /** A block that takes in one more key stays between its neighbours. */
  lemma GrownBlockFits(blocks: seq<seq<Key>>, maxes: seq<Key>, i: nat, k: Key, grown: seq<Key>)
    requires BlocksOk(blocks) && MaxesOk(blocks, maxes) && i < |blocks|
    requires forall j :: 0 <= j < i ==> Lt(maxes[j], k)
    requires Le(k, maxes[i]) || i == |blocks| - 1
    requires Sorted(grown) && |grown| == |blocks[i]| + 1 && multiset(grown) == multiset(blocks[i]) + multiset{k}
    ensures forall j :: 0 <= j < i ==> Le(Last(blocks[j]), grown[0])
    ensures forall j :: i < j < |blocks| ==> Le(Last(grown), blocks[j][0])
  {
    assert grown[0] in multiset(grown) && Last(grown) in multiset(grown);
    assert BlockOk(blocks[i]);
    forall j | 0 <= j < i ensures Le(Last(blocks[j]), grown[0]) {
      assert maxes[j] == Last(blocks[j]);
      assert grown[0] == k || grown[0] in blocks[i];
    }
    forall j | i < j < |blocks| ensures Le(Last(grown), blocks[j][0]) {
      assert Le(Last(blocks[i]), blocks[j][0]);
      assert Last(grown) == k || Last(grown) in blocks[i];
    }
  }

  lemma GrownBlocksOk(blocks: seq<seq<Key>>, i: nat, grown: seq<Key>)
    requires BlocksOk(blocks) && i < |blocks| && BlockOk(grown)
    requires forall j :: 0 <= j < i ==> Le(Last(blocks[j]), grown[0])
    requires forall j :: i < j < |blocks| ==> Le(Last(grown), blocks[j][0])
    ensures BlocksOk(blocks[i := grown])
  {
  }

  lemma GrownKeys(blocks: seq<seq<Key>>, i: nat, grown: seq<Key>, k: Key)
    requires i < |blocks| && multiset(grown) == multiset(blocks[i]) + multiset{k}
    ensures Keys(blocks[i := grown]) == Keys(blocks) + multiset{k}
  {
    hide Keys;
    KeysReplaced(blocks, i, [grown]);
    KeysOfOne(grown);
    assert blocks[..i] + [grown] + blocks[i + 1..] == blocks[i := grown];
  }

  lemma GrownMaxesOk(blocks: seq<seq<Key>>, maxes: seq<Key>, i: nat, grown: seq<Key>)
    requires MaxesOk(blocks, maxes) && i < |blocks| && grown != []
    ensures |maxes| == |blocks| && MaxesOk(blocks[i := grown], maxes[i := Last(grown)])
  {
  }

  /** Splitting a block in two. */
  lemma SplitBlocksOk(blocks: seq<seq<Key>>, i: nat, grown: seq<Key>)
    requires BlocksOk(blocks) && i < |blocks| && Sorted(grown) && |grown| == LIMIT + 1
    requires forall j :: 0 <= j < i ==> Le(Last(blocks[j]), grown[0])
    requires forall j :: i < j < |blocks| ==> Le(Last(grown), blocks[j][0])
    ensures BlocksOk(blocks[..i] + [grown[..HALF], grown[HALF..]] + blocks[i + 1..])
    ensures multiset(grown[..HALF]) + multiset(grown[HALF..]) == multiset(grown)
  {
    assert grown == grown[..HALF] + grown[HALF..];
    var halves := [grown[..HALF], grown[HALF..]];
    var now := blocks[..i] + halves + blocks[i + 1..];
    forall x, y | 0 <= x < y < |now| ensures Le(Last(now[x]), now[y][0]) {
      assert now[x] == (if x < i then blocks[x] else if x <= i + 1 then halves[x - i] else blocks[x - 1]);
      assert now[y] == (if y < i then blocks[y] else if y <= i + 1 then halves[y - i] else blocks[y - 1]);
      SplitPair(blocks, i, grown, x, y);
    }
  }

  lemma SplitKeys(blocks: seq<seq<Key>>, i: nat, low: seq<Key>, high: seq<Key>, k: Key)
    requires i < |blocks| && multiset(low) + multiset(high) == multiset(blocks[i]) + multiset{k}
    ensures Keys(blocks[..i] + [low, high] + blocks[i + 1..]) == Keys(blocks) + multiset{k}
  {
    hide Keys;
    KeysReplaced(blocks, i, [low, high]);
    assert [low, high] == [low] + [high];
    KeysConcat([low], [high]);
    KeysOfOne(low);
    KeysOfOne(high);
  }

  lemma SplitMaxesOk(blocks: seq<seq<Key>>, maxes: seq<Key>, i: nat, low: seq<Key>, high: seq<Key>)
    requires MaxesOk(blocks, maxes) && i < |blocks| && low != [] && high != []
    ensures |maxes| == |blocks|
    ensures MaxesOk(blocks[..i] + [low, high] + blocks[i + 1..], maxes[..i] + [Last(low), Last(high)] + maxes[i + 1..])
  {
    hide Last;
    var now, tops := blocks[..i] + [low, high] + blocks[i + 1..], maxes[..i] + [Last(low), Last(high)] + maxes[i + 1..];
    forall j | 0 <= j < |now| ensures now[j] != [] && tops[j] == Last(now[j]) {
      if j < i {
        assert now[j] == blocks[j] && tops[j] == maxes[j];
      } else if j > i + 1 {
        assert now[j] == blocks[j - 1] && tops[j] == maxes[j - 1];
      }
    }
  }

  lemma SplitPair(blocks: seq<seq<Key>>, i: nat, grown: seq<Key>, x: nat, y: nat)
    requires BlocksOk(blocks) && i < |blocks| && Sorted(grown) && |grown| == LIMIT + 1 && x < y < |blocks| + 1
    requires forall j :: 0 <= j < i ==> Le(Last(blocks[j]), grown[0])
    requires forall j :: i < j < |blocks| ==> Le(Last(grown), blocks[j][0])
    ensures var halves := [grown[..HALF], grown[HALF..]];
            var a := if x < i then blocks[x] else if x <= i + 1 then halves[x - i] else blocks[x - 1];
            var b := if y < i then blocks[y] else if y <= i + 1 then halves[y - i] else blocks[y - 1];
            a != [] && b != [] && Le(Last(a), b[0])
  {
  }

  class Blocks {
    var blocks: seq<seq<Key>>
    var maxes: seq<Key>

    ghost predicate Valid()
      reads this
    {
      BlocksOk(blocks) && MaxesOk(blocks, maxes)
    }

    ghost function Contents(): multiset<Key>
      reads this
    {
      Keys(blocks)
    }

    constructor ()
      ensures Valid() && Contents() == multiset{}
    {
      blocks, maxes := [], [];
    }

    method Add(k: Key)
      requires Valid()
      modifies this
      ensures Valid() && Contents() == old(Contents()) + multiset{k}
    {
      if blocks == [] {
        blocks, maxes := [[k]], [k];
        KeysOfOne([k]);
        return;
      }
      MaxesSorted(blocks, maxes);
      var i := BisectLeft(maxes, k);
      if i == |blocks| {
        i := i - 1;
      }
      assert BlockOk(blocks[i]);
      var grown := Insort(blocks[i], k);
      GrownBlockFits(blocks, maxes, i, k, grown);
      if |grown| > LIMIT {
        Split(i, grown, k);
      } else {
        Grow(i, grown, k);
      }
    }

    method Grow(i: nat, grown: seq<Key>, ghost k: Key)
      requires Valid() && i < |blocks| && BlockOk(grown)
      requires multiset(grown) == multiset(blocks[i]) + multiset{k}
      requires forall j :: 0 <= j < i ==> Le(Last(blocks[j]), grown[0])
      requires forall j :: i < j < |blocks| ==> Le(Last(grown), blocks[j][0])
      modifies this
      ensures Valid() && Contents() == old(Contents()) + multiset{k}
    {
      hide BlocksOk, Sorted, Keys, MaxesOk, BlockOk;
      GrownKeys(blocks, i, grown, k);
      GrownBlocksOk(blocks, i, grown);
      GrownMaxesOk(blocks, maxes, i, grown);
      blocks := blocks[i := grown];
      maxes := maxes[i := Last(grown)];
    }

    method Split(i: nat, grown: seq<Key>, ghost k: Key)
      requires Valid() && i < |blocks| && Sorted(grown) && |grown| == LIMIT + 1
      requires multiset(grown) == multiset(blocks[i]) + multiset{k}
      requires forall j :: 0 <= j < i ==> Le(Last(blocks[j]), grown[0])
      requires forall j :: i < j < |blocks| ==> Le(Last(grown), blocks[j][0])
      modifies this
      ensures Valid() && Contents() == old(Contents()) + multiset{k}
    {
      hide BlocksOk, Sorted, Keys, MaxesOk;
      var low, high := grown[..HALF], grown[HALF..];
      SplitBlocksOk(blocks, i, grown);
      SplitKeys(blocks, i, low, high, k);
      SplitMaxesOk(blocks, maxes, i, low, high);
      maxes := maxes[..i] + [Last(low), Last(high)] + maxes[i + 1..];
      blocks := blocks[..i] + [low, high] + blocks[i + 1..];
    }

    /** The keys from `lower` up to but not including `upper`, in order, each as often as it is held. */
    method Range(lower: Key, upper: Key) returns (out: seq<Key>)
      requires Valid()
      ensures Sorted(out) && Picked(out, Contents(), lower, upper)
    {
      hide BlocksOk, Picked, Sorted;
      MaxesSorted(blocks, maxes);
      var i := BisectLeft(maxes, lower);
      out := [];
      BelowIsOut(blocks, maxes, i, lower, upper);
      while i < |blocks|
        invariant 0 <= i <= |blocks| && Sorted(out) && Picked(out, Keys(blocks[..i]), lower, upper)
        invariant i < |blocks| ==> blocks[i] != [] && AllLe(out, blocks[i][0])
      {
        BlockIsOk(blocks, i);
        var part, more := RangeIn(blocks[i], lower, upper);
        AppendPart(blocks, i, out, part, lower, upper);
        out := out + part;
        if !more {
          AboveIsOut(blocks, i, out, lower, upper);
          return;
        }
        i := i + 1;
      }
      assert blocks[..|blocks|] == blocks;
    }

    /** Removes one occurrence; a key that is not held is an error. */
    method Remove(k: Key) returns (ok: bool)
      requires Valid()
      modifies this
      ensures Valid() && (ok <==> k in old(Contents()))
      ensures Contents() == if ok then old(Contents()) - multiset{k} else old(Contents())
    {
      hide BlocksOk, Sorted;
      MaxesSorted(blocks, maxes);
      var i := BisectLeft(maxes, k);
      OnlyIn(blocks, maxes, i, k);
      if i == |blocks| {
        return false;
      }
      BlockIsOk(blocks, i);
      var block := blocks[i];
      var place := BisectLeft(block, k);
      Placed(block, place, k);
      if place == |block| || block[place] != k {
        return false;
      }
      TakeOut(i, place, k);
      ok := true;
    }

    method TakeOut(i: nat, place: nat, ghost k: Key)
      requires Valid() && i < |blocks| && place < |blocks[i]| && blocks[i][place] == k
      modifies this
      ensures Valid() && k in old(Contents()) && Contents() == old(Contents()) - multiset{k}
    {
      hide BlocksOk, Sorted, BlockOk, Keys, MaxesOk;
      var left := blocks[i][..place] + blocks[i][place + 1..];
      ShrunkKeys(blocks[i], place);
      WithoutKeys(blocks, i, left, k);
      WithoutOk(blocks, i, place);
      MaxesWithout(blocks, maxes, i, left);
      if left != [] {
        blocks, maxes := blocks[i := left], maxes[i := Last(left)];
      } else {
        blocks, maxes := blocks[..i] + blocks[i + 1..], maxes[..i] + maxes[i + 1..];
      }
    }
  }

  // ---- Ranges ----

  predicate Between(k: Key, lower: Key, upper: Key) { Le(lower, k) && Lt(k, upper) }

  /** `out` holds the keys of `m` in the range, each as often as `m` does. */
  ghost predicate Picked(out: seq<Key>, m: multiset<Key>, lower: Key, upper: Key) {
    forall k :: multiset(out)[k] == if Between(k, lower, upper) then m[k] else 0
  }

  lemma BlockIsOk(blocks: seq<seq<Key>>, i: nat)
    requires BlocksOk(blocks) && i < |blocks|
    ensures BlockOk(blocks[i]) && Sorted(blocks[i])
  {
  }

  lemma BelowIsOut(blocks: seq<seq<Key>>, maxes: seq<Key>, i: nat, lower: Key, upper: Key)
    requires BlocksOk(blocks) && MaxesOk(blocks, maxes) && i <= |blocks|
    requires forall j :: 0 <= j < i ==> Lt(maxes[j], lower)
    ensures Sorted([]) && Picked([], Keys(blocks[..i]), lower, upper)
    ensures i < |blocks| ==> blocks[i] != []
  {
    forall k | Between(k, lower, upper) ensures Keys(blocks[..i])[k] == 0 {
      KeyHasBlock(blocks[..i], k);
      forall j | 0 <= j < i ensures k !in blocks[..i][j] {
        assert BlockOk(blocks[j]) && maxes[j] == Last(blocks[j]);
      }
    }
  }

  lemma AppendPart(blocks: seq<seq<Key>>, i: nat, out: seq<Key>, part: seq<Key>, lower: Key, upper: Key)
    requires BlocksOk(blocks) && i < |blocks| && blocks[i] != [] && AllLe(out, blocks[i][0])
    requires Sorted(out) && Picked(out, Keys(blocks[..i]), lower, upper)
    requires Sorted(part) && Picked(part, multiset(blocks[i]), lower, upper)
    ensures Sorted(out + part) && Picked(out + part, Keys(blocks[..i + 1]), lower, upper)
    ensures i + 1 < |blocks| ==> blocks[i + 1] != [] && AllLe(out + part, blocks[i + 1][0])
  {
    assert blocks[..i + 1] == blocks[..i] + [blocks[i]];
    KeysConcat(blocks[..i], [blocks[i]]);
    KeysOfOne(blocks[i]);
    PartIsInside(blocks[i], part, lower, upper);
    hide Picked;
    BlockIsOk(blocks, i);
    if i + 1 < |blocks| {
      BlockIsOk(blocks, i + 1);
      assert Le(Last(blocks[i]), blocks[i + 1][0]);
    }
  }

  lemma PartIsInside(block: seq<Key>, part: seq<Key>, lower: Key, upper: Key)
    requires BlockOk(block) && Picked(part, multiset(block), lower, upper)
    ensures forall j :: 0 <= j < |part| ==> Le(block[0], part[j]) && Le(part[j], Last(block))
  {
    forall j | 0 <= j < |part| ensures Le(block[0], part[j]) && Le(part[j], Last(block)) {
      assert part[j] in multiset(part);
      assert part[j] in block;
    }
  }

  lemma AboveIsOut(blocks: seq<seq<Key>>, i: nat, out: seq<Key>, lower: Key, upper: Key)
    requires BlocksOk(blocks) && i < |blocks| && blocks[i] != [] && !Lt(Last(blocks[i]), upper)
    requires Picked(out, Keys(blocks[..i + 1]), lower, upper)
    ensures Picked(out, Keys(blocks), lower, upper)
  {
    hide Keys;
    assert blocks == blocks[..i + 1] + blocks[i + 1..];
    KeysConcat(blocks[..i + 1], blocks[i + 1..]);
    NoneAbove(blocks, i, lower, upper);
    PickedMore(out, Keys(blocks[..i + 1]), Keys(blocks[i + 1..]), lower, upper);
  }

  lemma PickedMore(out: seq<Key>, m: multiset<Key>, more: multiset<Key>, lower: Key, upper: Key)
    requires Picked(out, m, lower, upper) && forall k :: Between(k, lower, upper) ==> more[k] == 0
    ensures Picked(out, m + more, lower, upper)
  {
  }

  lemma NoneAbove(blocks: seq<seq<Key>>, i: nat, lower: Key, upper: Key)
    requires BlocksOk(blocks) && i < |blocks| && blocks[i] != [] && !Lt(Last(blocks[i]), upper)
    ensures forall k :: Between(k, lower, upper) ==> Keys(blocks[i + 1..])[k] == 0
  {
    var after := blocks[i + 1..];
    forall k | Between(k, lower, upper) ensures Keys(after)[k] == 0 {
      KeyHasBlock(after, k);
      forall j | 0 <= j < |after| ensures k !in after[j] {
        assert after[j] == blocks[i + 1 + j];
        assert BlockOk(blocks[i + 1 + j]) && Le(Last(blocks[i]), blocks[i + 1 + j][0]);
      }
    }
  }

  // ---- Removal ----

  /** A key that is held at all is held by the first block whose last key is not below it. */
  lemma OnlyIn(blocks: seq<seq<Key>>, maxes: seq<Key>, i: nat, k: Key)
    requires BlocksOk(blocks) && MaxesOk(blocks, maxes) && i <= |blocks|
    requires forall j :: 0 <= j < i ==> Lt(maxes[j], k)
    requires forall j :: i <= j < |blocks| ==> Le(k, maxes[j])
    ensures k in Keys(blocks) <==> i < |blocks| && k in blocks[i]
  {
    KeyHasBlock(blocks, k);
    forall j | 0 <= j < |blocks| && k in blocks[j] ensures i < |blocks| && k in blocks[i] {
      FoundEarlier(blocks, maxes, i, j, k);
    }
  }

  lemma FoundEarlier(blocks: seq<seq<Key>>, maxes: seq<Key>, i: nat, j: nat, k: Key)
    requires BlocksOk(blocks) && MaxesOk(blocks, maxes) && i <= |blocks| && j < |blocks| && k in blocks[j]
    requires forall j :: 0 <= j < i ==> Lt(maxes[j], k)
    requires forall j :: i <= j < |blocks| ==> Le(k, maxes[j])
    ensures i < |blocks| && k in blocks[i]
  {
    assert BlockOk(blocks[j]) && maxes[j] == Last(blocks[j]);
    WithinBlock(blocks[j], k);
    assert i <= j;
    if i < j {
      assert Le(Last(blocks[i]), blocks[j][0]) && maxes[i] == Last(blocks[i]);
      assert k == Last(blocks[i]);
    }
  }

  lemma WithinBlock(block: seq<Key>, k: Key)
    requires BlockOk(block) && k in block
    ensures Le(block[0], k) && Le(k, Last(block))
  {
  }

  lemma Placed(block: seq<Key>, place: nat, k: Key)
    requires Sorted(block) && place <= |block|
    requires forall j :: 0 <= j < place ==> Lt(block[j], k)
    requires forall j :: place <= j < |block| ==> Le(k, block[j])
    ensures k in block <==> place < |block| && block[place] == k
  {
    forall j | 0 <= j < |block| && block[j] == k ensures place < |block| && block[place] == k {
      assert place <= j;
      assert Le(k, block[place]) && (place < j ==> Le(block[place], block[j]));
    }
  }

  lemma ShrunkBlock(block: seq<Key>, place: nat)
    requires BlockOk(block) && place < |block|
    ensures var left := block[..place] + block[place + 1..];
            left != [] ==> BlockOk(left) && Le(block[0], left[0]) && Le(Last(left), Last(block))
  {
  }

  lemma ShrunkKeys(block: seq<Key>, place: nat)
    requires place < |block|
    ensures multiset(block[..place] + block[place + 1..]) == multiset(block) - multiset{block[place]}
    ensures block[place] in multiset(block)
  {
    assert block == block[..place] + [block[place]] + block[place + 1..];
  }

  /** The blocks without one key: its block is replaced, or dropped when that was its only key. */
  function Without(blocks: seq<seq<Key>>, i: nat, left: seq<Key>): seq<seq<Key>>
    requires i < |blocks|
  {
    if left != [] then blocks[i := left] else blocks[..i] + blocks[i + 1..]
  }

  lemma WithoutKeys(blocks: seq<seq<Key>>, i: nat, left: seq<Key>, k: Key)
    requires i < |blocks| && k in multiset(blocks[i]) && multiset(left) == multiset(blocks[i]) - multiset{k}
    ensures k in Keys(blocks) && Keys(Without(blocks, i, left)) == Keys(blocks) - multiset{k}
  {
    hide Keys;
    var rest := if left != [] then [left] else [];
    KeysReplaced(blocks, i, rest);
    KeysOfRest(left);
    assert Without(blocks, i, left) == blocks[..i] + rest + blocks[i + 1..];
    Exchange(Keys(blocks), multiset(blocks[i]), multiset(left), k);
  }

  lemma KeysOfRest(left: seq<Key>)
    ensures Keys(if left != [] then [left] else []) == multiset(left)
  {
    if left != [] {
      KeysOfOne(left);
    }
  }

  lemma Exchange(all: multiset<Key>, part: multiset<Key>, less: multiset<Key>, k: Key)
    requires (forall x :: x in part ==> all[x] >= part[x]) && k in part && less == part - multiset{k}
    ensures k in all && all - part + less == all - multiset{k}
  {
  }

  lemma MaxesWithout(blocks: seq<seq<Key>>, maxes: seq<Key>, i: nat, left: seq<Key>)
    requires MaxesOk(blocks, maxes) && i < |blocks|
    ensures |maxes| == |blocks|
    ensures MaxesOk(Without(blocks, i, left), if left != [] then maxes[i := Last(left)]
                    else maxes[..i] + maxes[i + 1..])
  {
    hide Last;
    if left == [] {
      var now, tops := blocks[..i] + blocks[i + 1..], maxes[..i] + maxes[i + 1..];
      forall j | 0 <= j < |now| ensures now[j] != [] && tops[j] == Last(now[j]) {
        var a := if j < i then j else j + 1;
        assert now[j] == blocks[a] && tops[j] == maxes[a];
      }
    }
  }

  lemma WithoutOk(blocks: seq<seq<Key>>, i: nat, place: nat)
    requires BlocksOk(blocks) && i < |blocks| && place < |blocks[i]|
    ensures BlocksOk(Without(blocks, i, blocks[i][..place] + blocks[i][place + 1..]))
  {
    var left := blocks[i][..place] + blocks[i][place + 1..];
    BlockIsOk(blocks, i);
    ShrunkBlock(blocks[i], place);
    hide BlocksOk, BlockOk;
    if left != [] {
      ShrunkBlocksOk(blocks, i, left);
    } else {
      FewerBlocksOk(blocks, i);
    }
  }

  lemma ShrunkBlocksOk(blocks: seq<seq<Key>>, i: nat, left: seq<Key>)
    requires BlocksOk(blocks) && i < |blocks| && BlockOk(blocks[i]) && BlockOk(left)
    requires Le(blocks[i][0], left[0]) && Le(Last(left), Last(blocks[i]))
    ensures BlocksOk(blocks[i := left])
  {
    var now := blocks[i := left];
    forall x, y | 0 <= x < y < |now| ensures Le(Last(now[x]), now[y][0]) {
      assert BlockOk(blocks[x]) && BlockOk(blocks[y]) && Le(Last(blocks[x]), blocks[y][0]);
    }
  }

  lemma FewerBlocksOk(blocks: seq<seq<Key>>, i: nat)
    requires BlocksOk(blocks) && i < |blocks|
    ensures BlocksOk(blocks[..i] + blocks[i + 1..])
  {
    var now := blocks[..i] + blocks[i + 1..];
    assert forall x :: 0 <= x < |now| ==> now[x] == blocks[if x < i then x else x + 1];
    forall x, y | 0 <= x < y < |now| ensures now[x] != [] && now[y] != [] && Le(Last(now[x]), now[y][0]) {
      var a, b := if x < i then x else x + 1, if y < i then y else y + 1;
      assert BlockOk(blocks[a]) && BlockOk(blocks[b]) && Le(Last(blocks[a]), blocks[b][0]);
    }
  }

  /** The part of one block, and whether the next block may still hold some. */
  method RangeIn(block: seq<Key>, lower: Key, upper: Key) returns (part: seq<Key>, more: bool)
    requires BlockOk(block)
    ensures Sorted(part) && Picked(part, multiset(block), lower, upper)
    ensures more <==> Lt(Last(block), upper)
  {
    var start := BisectLeft(block, lower);
    var stop := BisectLeft(block, upper);
    more := stop == |block|;
    part := if start <= stop then block[start..stop] else [];
    SliceIsPicked(block, start, stop, lower, upper);
  }

  lemma SliceIsPicked(block: seq<Key>, start: nat, stop: nat, lower: Key, upper: Key)
    requires Sorted(block) && start <= |block| && stop <= |block|
    requires forall j :: 0 <= j < start ==> Lt(block[j], lower)
    requires forall j :: start <= j < |block| ==> Le(lower, block[j])
    requires forall j :: 0 <= j < stop ==> Lt(block[j], upper)
    requires forall j :: stop <= j < |block| ==> Le(upper, block[j])
    ensures var part := if start <= stop then block[start..stop] else [];
            Sorted(part) && Picked(part, multiset(block), lower, upper)
  {
    if start <= stop {
      SliceIsMiddle(block, start, stop, lower, upper);
      MiddleIsPicked(block[..start], block[start..stop], block[stop..], lower, upper);
    } else {
      forall k | Between(k, lower, upper) ensures k !in block {
        NotBetween(block, start, stop, lower, upper, k);
      }
    }
  }

  lemma SliceIsMiddle(block: seq<Key>, start: nat, stop: nat, lower: Key, upper: Key)
    requires start <= stop <= |block|
    requires forall j :: 0 <= j < start ==> Lt(block[j], lower)
    requires forall j :: start <= j < |block| ==> Le(lower, block[j])
    requires forall j :: 0 <= j < stop ==> Lt(block[j], upper)
    requires forall j :: stop <= j < |block| ==> Le(upper, block[j])
    ensures block == block[..start] + block[start..stop] + block[stop..]
    ensures forall k :: k in block[..start] ==> Lt(k, lower)
    ensures forall k :: k in block[start..stop] ==> Between(k, lower, upper)
    ensures forall k :: k in block[stop..] ==> Le(upper, k)
  {
  }

  lemma MiddleIsPicked(a: seq<Key>, b: seq<Key>, c: seq<Key>, lower: Key, upper: Key)
    requires forall k :: k in a ==> Lt(k, lower)
    requires forall k :: k in b ==> Between(k, lower, upper)
    requires forall k :: k in c ==> Le(upper, k)
    ensures Picked(b, multiset(a + b + c), lower, upper)
  {
    forall k ensures multiset(b)[k] == if Between(k, lower, upper) then multiset(a + b + c)[k] else 0 {
      Counts(a, b, c, k);
      assert Between(k, lower, upper) ==> k !in a && k !in c;
    }
  }

  /** Where the end comes before the start, every key is below the one or not below the other. */
  lemma NotBetween(block: seq<Key>, start: nat, stop: nat, lower: Key, upper: Key, k: Key)
    requires stop < start <= |block| && Between(k, lower, upper)
    requires forall j :: 0 <= j < start ==> Lt(block[j], lower)
    requires forall j :: stop <= j < |block| ==> Le(upper, block[j])
    ensures k !in block
  {
    forall j | 0 <= j < |block| ensures block[j] != k {
      assert j < start || stop <= j;
    }
  }

  lemma Counts(a: seq<Key>, b: seq<Key>, c: seq<Key>, k: Key)
    ensures multiset(a + b + c)[k] == multiset(a)[k] + multiset(b)[k] + multiset(c)[k]
    ensures k !in a ==> multiset(a)[k] == 0
    ensures k !in b ==> multiset(b)[k] == 0
    ensures k !in c ==> multiset(c)[k] == 0
  {
  }
}
