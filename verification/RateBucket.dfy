/** The redemption bitmap: one bit per rate bucket, found lowest first, and the order of positions
    within a bucket. */
module RateBucket {
  import opened Arith
  import opened FixedPoint
  import opened RateBits
  import opened Reals

  function BucketOf(rateBps: nat, widthBps: nat, numBuckets: nat): nat
    requires numBuckets > 0
  {
    Min(rateBps / (if widthBps == 0 then 1 else widthBps), numBuckets - 1)
  }

  /** A bucket holds the rates of its own width, the last one all above; so a lower bucket only ever holds
      lower rates. */
  lemma BucketsOrderRates(a: nat, b: nat, widthBps: nat, numBuckets: nat)
    requires numBuckets > 0
    ensures BucketOf(a, widthBps, numBuckets) < numBuckets
    ensures BucketOf(a, widthBps, numBuckets) < BucketOf(b, widthBps, numBuckets) ==> a < b
    ensures var k, width := BucketOf(a, widthBps, numBuckets), Max(widthBps, 1);
            k * width <= a && (k < numBuckets - 1 ==> a < (k + 1) * width)
  {
    var width := Max(widthBps, 1);
    DivBounds(a, width);
    MulMonoNat(BucketOf(a, widthBps, numBuckets), a / width, width);
    if b <= a {
      DivMonoNat(b, a, width);
    }
  }

  predicate Marked(ws: seq<bv64>, b: nat) {
    b / 64 < |ws| && Bit(ws[b / 64], b % 64)
  }

  /** The buckets marked non-empty. */
  ghost function Members(ws: seq<bv64>): set<nat> {
    set b: nat | 0 <= b < 64 * |ws| && Marked(ws, b)
  }

  method Set(words: array<bv64>, b: nat)
    requires b < 64 * words.Length
    modifies words
    ensures Members(words[..]) == old(Members(words[..])) + {b}
  {
    hide Bit, Mask, Join;
    ghost var before := words[..];
    words[b / 64] := Join(words[b / 64], Mask(b % 64));
    forall c: nat | c < 64 * words.Length
      ensures Marked(words[..], c) <==> c == b || Marked(before, c)
    {
      SetBit(before[b / 64], b % 64, c % 64);
    }
  }

  method Clear(words: array<bv64>, b: nat)
    requires b < 64 * words.Length
    modifies words
    ensures Members(words[..]) == old(Members(words[..])) - {b}
  {
    hide Bit, Mask, Without;
    ghost var before := words[..];
    words[b / 64] := Without(words[b / 64], Mask(b % 64));
    forall c: nat | c < 64 * words.Length
      ensures Marked(words[..], c) <==> c != b && Marked(before, c)
    {
      ClearBit(before[b / 64], b % 64, c % 64);
    }
  }

  method IsSet(words: array<bv64>, b: nat) returns (r: bool)
    requires b < 64 * words.Length
    ensures r <==> b in Members(words[..])
  {
    hide Bit, Mask, Common;
    MaskReadsBit(words[b / 64], b % 64);
    return Common(words[b / 64], Mask(b % 64)) != 0;
  }

  /** `r` is the least member at or above `from`, if there is one. */
  ghost predicate IsLeastFrom(r: Option<nat>, s: set<nat>, from: nat) {
    match r
    case None => forall c <- s :: c < from
    case Some(b) => b in s && from <= b && forall c <- s :: from <= c ==> b <= c
  }

  /** No member lies in `[from, until)`. */
  ghost predicate NoneIn(ws: seq<bv64>, from: nat, until: nat) {
    forall c: nat :: from <= c < until ==> !Marked(ws, c)
  }

  /** The lowest bit of a word, as a bucket. */
  lemma LowestInWord(ws: seq<bv64>, i: nat, w: bv64, from: nat)
    requires i < |ws| && i * 64 <= from < i * 64 + 64
    requires forall j :: 0 <= j < 64 ==> (Bit(w, j) <==> j >= from - i * 64 && Bit(ws[i], j))
    ensures w != 0 ==> var b := i * 64 + TrailingZeros(w);
                       Marked(ws, b) && from <= b && NoneIn(ws, from, b)
    ensures w == 0 ==> NoneIn(ws, from, i * 64 + 64)
  {
    hide Bit, TrailingZeros;
    LowestBit(w);
    var z := TrailingZeros(w);
    LowestIs(w);
    forall c: nat | from <= c < i * 64 + z
      ensures !Marked(ws, c)
    {
      BucketAt(ws, i, c - i * 64);
    }
    if w != 0 {
      BucketAt(ws, i, z);
    }
  }

  lemma LowestIs(w: bv64)
    ensures TrailingZeros(w) <= 64 && (TrailingZeros(w) < 64 ==> Bit(w, TrailingZeros(w)))
    ensures forall j :: 0 <= j < TrailingZeros(w) ==> !Bit(w, j)
  {
    hide Bit;
  }

  lemma BucketAt(ws: seq<bv64>, i: nat, j: nat)
    requires i < |ws| && j < 64
    ensures Marked(ws, i * 64 + j) <==> Bit(ws[i], j)
  {
    hide Bit;
    assert (i * 64 + j) / 64 == i && (i * 64 + j) % 64 == j;
  }

  method FirstSet(words: array<bv64>) returns (r: Option<nat>)
    ensures IsLeastFrom(r, Members(words[..]), 0)
  {
    hide Bit, TrailingZeros;
    var i := 0;
    while i < words.Length
      invariant i <= words.Length && NoneIn(words[..], 0, i * 64)
    {
      LowestInWord(words[..], i, words[i], i * 64);
      if words[i] != 0 {
        return Some(i * 64 + TrailingZeros(words[i]));
      }
      i := i + 1;
    }
    return None;
  }

  method FirstSetFrom(words: array<bv64>, from: nat) returns (r: Option<nat>)
    ensures IsLeastFrom(r, Members(words[..]), from)
  {
    hide Bit, TrailingZeros, Common, From;
    if from >= words.Length * 64 {
      return None;
    }
    var start := from / 64;
    var first := Common(words[start], From(from % 64));
    forall j | 0 <= j < 64
      ensures Bit(first, j) <==> j >= from - start * 64 && Bit(words[start], j)
    {
      FromBit(words[start], from % 64, j);
    }
    LowestInWord(words[..], start, first, from);
    if first != 0 {
      return Some(start * 64 + TrailingZeros(first));
    }
    var i := start + 1;
    while i < words.Length
      invariant start < i <= words.Length && NoneIn(words[..], from, i * 64)
    {
      LowestInWord(words[..], i, words[i], i * 64);
      if words[i] != 0 {
        return Some(i * 64 + TrailingZeros(words[i]));
      }
      i := i + 1;
    }
    return None;
  }

  /** `visited` holds, in ascending order and once each, the members of `all` that are no longer in `left`,
      and all that are left lie behind them. */
  ghost predicate DrainedSoFar(all: set<nat>, left: set<nat>, visited: seq<nat>) {
    && left <= all
    && (forall b :: b in visited <==> b in all && b !in left)
    && (forall i, j :: 0 <= i < j < |visited| ==> visited[i] < visited[j])
    && (forall b, c :: b in visited && c in left ==> b < c)
  }

  lemma DrainStep(all: set<nat>, left: set<nat>, visited: seq<nat>, b: nat)
    requires DrainedSoFar(all, left, visited) && b in left && forall c <- left :: b <= c
    ensures DrainedSoFar(all, left - {b}, visited + [b])
  {
    var after := visited + [b];
    forall c
      ensures c in after <==> c in all && c !in left - {b}
    {
      assert c in after <==> c in visited || c == b;
    }
    forall i, j | 0 <= i < j < |after|
      ensures after[i] < after[j]
    {
      assert j < |visited| || (after[j] == b && visited[i] in visited);
    }
  }

  /** Find the next member, clear it, and scan on from there: every member is found once, in strictly
      ascending order, and the bitmap is empty in the end. */
  method Drain(words: array<bv64>) returns (visited: seq<nat>)
    modifies words
    ensures Members(words[..]) == {}
    ensures forall i, j :: 0 <= i < j < |visited| ==> visited[i] < visited[j]
    ensures forall b :: b in visited <==> b in old(Members(words[..]))
  {
    hide Members, DrainedSoFar;
    ghost var all := Members(words[..]);
    visited := [];
    var cursor := 0;
    DrainStart(all);
    var next := FirstSetFrom(words, cursor);
    while next.Some?
      invariant IsLeastFrom(next, Members(words[..]), cursor)
      invariant forall c <- Members(words[..]) :: cursor <= c
      invariant DrainedSoFar(all, Members(words[..]), visited)
      decreases |Members(words[..])|
    {
      MemberInRange(words[..], next.value);
      DrainStep(all, Members(words[..]), visited, next.value);
      Clear(words, next.value);
      visited, cursor := visited + [next.value], next.value;
      next := FirstSetFrom(words, cursor);
    }
    assert Members(words[..]) == {};
    DrainEnd(all, visited);
  }

  lemma DrainStart(all: set<nat>)
    ensures DrainedSoFar(all, all, [])
  {
  }

  lemma DrainEnd(all: set<nat>, visited: seq<nat>)
    requires DrainedSoFar(all, {}, visited)
    ensures forall i, j :: 0 <= i < j < |visited| ==> visited[i] < visited[j]
    ensures forall b :: b in visited <==> b in all
  {
  }

  lemma MemberInRange(ws: seq<bv64>, b: nat)
    requires b in Members(ws)
    ensures b < 64 * |ws|
  {
  }

  // ----- order within a bucket -------------------------------------------------------------------

  datatype Ordering = Less | Equal | Greater

  datatype Candidate = Candidate(ink: nat, art: nat)

  function CmpCollateralRatio(a: Candidate, b: Candidate): Ordering {
    var (lhs, rhs) := (a.ink * b.art, b.ink * a.art);
    if lhs < rhs then Less else if lhs == rhs then Equal else Greater
  }

  ghost function Ratio(c: Candidate): real
    requires c.art > 0
  {
    c.ink as real / c.art as real
  }

  /** Comparing cross products compares the exact ratios. */
  lemma CmpComparesRatios(a: Candidate, b: Candidate)
    requires a.art > 0 && b.art > 0
    ensures CmpCollateralRatio(a, b).Less? <==> Ratio(a) < Ratio(b)
    ensures CmpCollateralRatio(a, b).Equal? <==> Ratio(a) == Ratio(b)
  {
    RealOfProduct(a.ink, b.art);
    RealOfProduct(b.ink, a.art);
    CrossMultiply(a.ink as real, a.art as real, b.ink as real, b.art as real);
  }

  lemma CrossMultiply(p: real, q: real, r: real, s: real)
    requires q > 0.0 && s > 0.0
    ensures p * s < r * q <==> p / q < r / s
    ensures p * s == r * q <==> p / q == r / s
  {
    var (x, y) := (p / q, r / s);
    var qs := q * s;
    assert p * s == qs * x by {
      assert p == q * x;
    }
    assert r * q == qs * y by {
      assert r == s * y;
    }
    Cancel(x, y, qs);
    Cancel(y, x, qs);
  }

  function Reversed(o: Ordering): Ordering {
    match o
    case Less => Greater
    case Equal => Equal
    case Greater => Less
  }

  /** A total preorder on positions in debt, blind to scaling a position. */
  lemma CmpIsTotalPreorder(a: Candidate, b: Candidate, c: Candidate, k: nat)
    requires a.art > 0 && b.art > 0 && c.art > 0 && k > 0
    ensures CmpCollateralRatio(a, a).Equal?
    ensures CmpCollateralRatio(b, a) == Reversed(CmpCollateralRatio(a, b))
    ensures !CmpCollateralRatio(a, b).Greater? && !CmpCollateralRatio(b, c).Greater?
            ==> !CmpCollateralRatio(a, c).Greater?
    ensures CmpCollateralRatio(Candidate(k * a.ink, k * a.art), b) == CmpCollateralRatio(a, b)
  {
    hide Ratio;
    CmpComparesRatios(a, b);
    CmpComparesRatios(b, c);
    CmpComparesRatios(a, c);
    ScaledCmp(a, b, k);
  }

  lemma ScaledCmp(a: Candidate, b: Candidate, k: nat)
    requires k > 0
    ensures CmpCollateralRatio(Candidate(k * a.ink, k * a.art), b) == CmpCollateralRatio(a, b)
  {
    var (lhs, rhs) := (a.ink * b.art, b.ink * a.art);
    assert k * a.ink * b.art == k * lhs;
    assert b.ink * (k * a.art) == k * rhs;
    if lhs < rhs {
      MulMonoNat(lhs + 1, rhs, k);
    } else if rhs < lhs {
      MulMonoNat(rhs + 1, lhs, k);
    }
  }

  /** Insert behind everything that does not compare greater, so that equal positions keep their order. */
  function Inserted(sorted: seq<Candidate>, c: Candidate): seq<Candidate> {
    if sorted == [] then [c]
    else
      var n := |sorted| - 1;
      if CmpCollateralRatio(sorted[n], c).Greater? then Inserted(sorted[..n], c) + [sorted[n]] else sorted + [c]
  }

  /** The stable sort by collateral ratio. */
  function SortedByRatio(cs: seq<Candidate>): seq<Candidate> {
    if cs == [] then [] else Inserted(SortedByRatio(cs[..|cs| - 1]), cs[|cs| - 1])
  }

  /** No neighbours are out of order. */
  predicate InOrder(cs: seq<Candidate>) {
    forall n: nat {:trigger cs[n]} :: n + 1 < |cs| ==> !CmpCollateralRatio(cs[n], cs[n + 1]).Greater?
  }

  lemma OrderAppend(cs: seq<Candidate>, c: Candidate)
    requires InOrder(cs) && (cs == [] || !CmpCollateralRatio(cs[|cs| - 1], c).Greater?)
    ensures InOrder(cs + [c])
  {
    hide CmpCollateralRatio;
    var all := cs + [c];
    forall n: nat | n + 1 < |all|
      ensures !CmpCollateralRatio(all[n], all[n + 1]).Greater?
    {
      assert n + 1 < |cs| ==> !CmpCollateralRatio(cs[n], cs[n + 1]).Greater?;
    }
  }

  lemma OrderPrefix(cs: seq<Candidate>, k: nat)
    requires InOrder(cs) && k <= |cs|
    ensures InOrder(cs[..k])
  {
    hide CmpCollateralRatio;
  }

  lemma CmpReverses(a: Candidate, b: Candidate)
    ensures CmpCollateralRatio(b, a) == Reversed(CmpCollateralRatio(a, b))
  {
  }

  lemma {:induction false} InsertedKeepsOrder(sorted: seq<Candidate>, c: Candidate)
    requires InOrder(sorted)
    ensures InOrder(Inserted(sorted, c)) && |Inserted(sorted, c)| == |sorted| + 1
    ensures var last := Inserted(sorted, c)[|sorted|]; last == c || (sorted != [] && last == sorted[|sorted| - 1])
  {
    hide CmpCollateralRatio, InOrder;
    if sorted == [] {
      OrderAppend([], c);
      assert [] + [c] == [c];
    } else {
      var n := |sorted| - 1;
      if CmpCollateralRatio(sorted[n], c).Greater? {
        OrderPrefix(sorted, n);
        InsertedKeepsOrder(sorted[..n], c);
        CmpReverses(sorted[n], c);
        NeighboursOrdered(sorted, n);
        OrderAppend(Inserted(sorted[..n], c), sorted[n]);
      } else {
        OrderAppend(sorted, c);
      }
    }
  }

  lemma NeighboursOrdered(cs: seq<Candidate>, n: nat)
    requires InOrder(cs) && n < |cs|
    ensures n > 0 ==> !CmpCollateralRatio(cs[n - 1], cs[n]).Greater?
  {
    hide CmpCollateralRatio;
    if n > 0 {
      assert !CmpCollateralRatio(cs[n - 1], cs[n - 1 + 1]).Greater?;
    }
  }

  lemma {:induction false} InsertedAdds(sorted: seq<Candidate>, c: Candidate)
    ensures multiset(Inserted(sorted, c)) == multiset(sorted) + multiset{c}
  {
    hide CmpCollateralRatio;
    if sorted != [] {
      var n := |sorted| - 1;
      assert sorted == sorted[..n] + [sorted[n]];
      InsertedAdds(sorted[..n], c);
    }
  }

  lemma {:induction false} SortPermutes(cs: seq<Candidate>)
    ensures multiset(SortedByRatio(cs)) == multiset(cs)
  {
    hide Inserted;
    if cs != [] {
      var n := |cs| - 1;
      SortPermutes(cs[..n]);
      assert cs == cs[..n] + [cs[n]];
      InsertedAdds(SortedByRatio(cs[..n]), cs[n]);
    }
  }

  lemma EmptyInOrder()
    ensures InOrder([])
  {
  }

  lemma {:induction false} SortOrders(cs: seq<Candidate>)
    ensures InOrder(SortedByRatio(cs))
  {
    hide Inserted, InOrder;
    if cs == [] {
      EmptyInOrder();
    } else {
      SortOrders(cs[..|cs| - 1]);
      InsertedKeepsOrder(SortedByRatio(cs[..|cs| - 1]), cs[|cs| - 1]);
    }
  }

  /** Sorting redemption candidates gives the same candidates, in ascending collateral ratio. */
  lemma SortAscends(cs: seq<Candidate>)
    requires forall c <- cs :: c.art > 0
    ensures multiset(SortedByRatio(cs)) == multiset(cs)
    ensures forall c <- SortedByRatio(cs) :: c.art > 0
    ensures forall i, j :: 0 <= i <= j < |SortedByRatio(cs)|
                       ==> Ratio(SortedByRatio(cs)[i]) <= Ratio(SortedByRatio(cs)[j])
  {
    hide Ratio, SortedByRatio, InOrder;
    var sorted := SortedByRatio(cs);
    SortPermutes(cs);
    SortOrders(cs);
    forall c | c in sorted
      ensures c.art > 0
    {
      assert c in multiset(sorted);
    }
    forall i, j | 0 <= i <= j < |sorted|
      ensures Ratio(sorted[i]) <= Ratio(sorted[j])
    {
      SortedAscendsInRatio(sorted, i, j);
    }
  }

  /** The candidates of one collateral ratio, in the order they stand in. */
  function Alike(cs: seq<Candidate>, k: Candidate): seq<Candidate> {
    if cs == [] then []
    else
      var n := |cs| - 1;
      Alike(cs[..n], k) + (if CmpCollateralRatio(cs[n], k).Equal? then [cs[n]] else [])
  }

  lemma {:induction false} InsertedBehindAlike(sorted: seq<Candidate>, c: Candidate, k: Candidate)
    requires c.art > 0 && k.art > 0 && forall x <- sorted :: x.art > 0
    ensures Alike(Inserted(sorted, c), k)
         == Alike(sorted, k) + (if CmpCollateralRatio(c, k).Equal? then [c] else [])
  {
    hide CmpCollateralRatio;
    if sorted == [] {
      assert [c][..0] == [];
    } else {
      var n := |sorted| - 1;
      if CmpCollateralRatio(sorted[n], c).Greater? {
        InsertedBehindAlike(sorted[..n], c, k);
        var front := Inserted(sorted[..n], c);
        assert (front + [sorted[n]])[..|front|] == front;
        assert sorted[n] in sorted;
        NotBothAlike(sorted[n], c, k);
      } else {
        assert (sorted + [c])[..|sorted|] == sorted;
      }
    }
  }

  lemma NotBothAlike(a: Candidate, b: Candidate, k: Candidate)
    requires a.art > 0 && b.art > 0 && k.art > 0 && CmpCollateralRatio(a, b).Greater?
    ensures !(CmpCollateralRatio(a, k).Equal? && CmpCollateralRatio(b, k).Equal?)
  {
    hide CmpCollateralRatio, Ratio;
    CmpComparesRatios(a, b);
    CmpComparesRatios(a, k);
    CmpComparesRatios(b, k);
  }

  /** The sort is stable: candidates of equal ratio keep their order. */
  lemma {:induction false} SortIsStable(cs: seq<Candidate>, k: Candidate)
    requires k.art > 0 && forall c <- cs :: c.art > 0
    ensures Alike(SortedByRatio(cs), k) == Alike(cs, k)
  {
    hide CmpCollateralRatio, Inserted;
    if cs != [] {
      var n := |cs| - 1;
      SortIsStable(cs[..n], k);
      SortPermutes(cs[..n]);
      forall x | x in SortedByRatio(cs[..n])
        ensures x.art > 0
      {
        assert x in multiset(SortedByRatio(cs[..n]));
      }
      InsertedBehindAlike(SortedByRatio(cs[..n]), cs[n], k);
    }
  }

  /** Neighbours in order suffice: the whole sequence ascends in collateral ratio. */
  lemma {:induction false} SortedAscendsInRatio(cs: seq<Candidate>, i: nat, j: nat)
    requires forall c <- cs :: c.art > 0
    requires InOrder(cs)
    requires i <= j < |cs|
    ensures Ratio(cs[i]) <= Ratio(cs[j])
    decreases j
  {
    hide Ratio, CmpCollateralRatio;
    if i < j {
      SortedAscendsInRatio(cs, i, j - 1);
      CmpComparesRatios(cs[j - 1], cs[j]);
      assert !CmpCollateralRatio(cs[j - 1], cs[j - 1 + 1]).Greater?;
    }
  }
}
