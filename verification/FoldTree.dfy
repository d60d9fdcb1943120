/** The canonical fold tree: which ranges are nodes, which pairs may fold, and why folding converges. */
module FoldTree {
  import opened Ranges

  // ---------- nodes ----------

  /** Bitwise and of two naturals. */
  function BitAnd(a: nat, b: nat): nat {
    if a == 0 || b == 0 then 0
    else (if a % 2 == 1 && b % 2 == 1 then 1 else 0) + 2 * BitAnd(a / 2, b / 2)
  }

  predicate IsPow2(w: int) {
    w == 1 || (w > 1 && w % 2 == 0 && IsPow2(w / 2))
  }

  /** `_tree_node`: the width is a power of two and the range is aligned to it, counting blocks from 1. */
  predicate TreeNode(s: Span) {
    var w := s.Width();
    w > 0 && BitAnd(w, w - 1) == 0 && (s.lo - 1) % w == 0
  }

  lemma {:induction false} AndSelf(a: nat)
    ensures BitAnd(a, a) == a
  {
    if a > 0 {
      AndSelf(a / 2);
    }
  }

  /** The bit trick tests exactly for a power of two. */
  lemma {:induction false} BitTrick(w: int)
    requires w > 0
    ensures BitAnd(w, w - 1) == 0 <==> IsPow2(w)
  {
    if w > 1 {
      if w % 2 == 0 {
        BitTrick(w / 2);
        assert (w - 1) / 2 == w / 2 - 1;
      } else {
        assert (w - 1) / 2 == w / 2;
        AndSelf(w / 2);
      }
    }
  }

  // ---------- arithmetic of alignment ----------

  lemma DivMod(a: int, w: int)
    requires w > 0
    ensures a == w * (a / w) + a % w && 0 <= a % w < w
  {
  }

  lemma MulNonNegative(a: int, b: int)
    requires a >= 0 && b >= 0
    ensures a * b >= 0
  {
  }

  lemma BigMultiple(d: int, w: int)
    requires w > 0 && d != 0
    ensures d * w >= w || d * w <= -w
  {
    if d > 0 {
      MulNonNegative(d - 1, w);
      assert (d - 1) * w == d * w - w;
    } else {
      MulNonNegative(-d - 1, w);
      assert (-d - 1) * w == -(d * w) - w;
    }
  }

  lemma MultipleOf(q: int, w: int)
    requires w > 0
    ensures (q * w) % w == 0 && (q * w) / w == q
  {
    DivMod(q * w, w);
    var d := q - (q * w) / w;
    assert d * w == (q * w) % w;
    if d != 0 {
      BigMultiple(d, w);
    }
  }

  /** Aligned to 2w: aligned to w, at an even multiple. */
  lemma AlignedTwice(a: int, w: int)
    requires w > 0
    ensures a % (2 * w) == 0 <==> a % w == 0 && a / w % 2 == 0
  {
    DivMod(a, w);
    DivMod(a, 2 * w);
    if a % (2 * w) == 0 {
      var q := a / (2 * w);
      assert a == 2 * q * w;
      MultipleOf(2 * q, w);
    }
    if a % w == 0 && a / w % 2 == 0 {
      var q := a / w / 2;
      assert a == q * (2 * w);
      MultipleOf(q, 2 * w);
    }
  }

  lemma AlignedShift(a: int, b: int, w: int)
    requires w > 0 && a % w == 0
    ensures (a + b) % w == b % w
  {
    DivMod(a, w);
    DivMod(b, w);
    DivMod(a + b, w);
    var d := a / w + b / w - (a + b) / w;
    assert d * w == (a + b) % w - b % w;
    if d != 0 {
      BigMultiple(d, w);
    }
  }

  lemma AlignedDouble(a: int, w: int)
    requires w > 0 && a % w == 0
    ensures (2 * a) % w == 0
  {
    AlignedShift(a, a, w);
  }

  lemma AlignedTrans(a: int, b: int, c: int)
    requires b > 0 && c > 0 && a % b == 0 && b % c == 0
    ensures a % c == 0
  {
    DivMod(a, b);
    DivMod(b, c);
    assert a == a / b * (b / c) * c;
    MultipleOf(a / b * (b / c), c);
  }

  lemma {:induction false} SmallerPow2Divides(w: int, v: int)
    requires IsPow2(w) && IsPow2(v) && w <= v
    ensures v % w == 0
    decreases v
  {
    if w < v {
      SmallerPow2Below(w, v);
      SmallerPow2Divides(w, v / 2);
      AlignedDouble(v / 2, w);
      assert v == 2 * (v / 2);
    } else {
      MultipleOf(1, w);
    }
  }

  /** No power of two lies strictly between v/2 and v. */
  lemma {:induction false} SmallerPow2Below(w: int, v: int)
    requires IsPow2(w) && IsPow2(v) && w < v
    ensures IsPow2(v / 2) && w <= v / 2
    decreases v
  {
    if w > 1 {
      SmallerPow2Below(w / 2, v / 2);
    }
  }

  // ---------- siblings and parents ----------

  datatype Offer = Offer(left: Span, right: Span)
  {
    function Parent(): Span {
      Span(left.lo, right.hi)
    }
  }

  /** Two adjacent nodes of equal width, the left one at an even position. */
  predicate Siblings(o: Offer) {
    && TreeNode(o.left)
    && (o.left.lo - 1) / o.left.Width() % 2 == 0
    && o.right.lo == o.left.hi + 1
    && o.right.Width() == o.left.Width()
  }

  function LeftHalf(s: Span): Span {
    Span(s.lo, s.lo + s.Width() / 2 - 1)
  }

  function RightHalf(s: Span): Span {
    Span(s.lo + s.Width() / 2, s.hi)
  }

  /** Siblings are exactly the two halves of a node. */
  lemma {:induction false} SiblingsMakeANode(o: Offer)
    requires Siblings(o)
    ensures TreeNode(o.right) && TreeNode(o.Parent()) && o.Parent().Width() == 2 * o.left.Width()
  {
    var w := o.left.Width();
    BitTrick(w);
    BitTrick(2 * w);
    AlignedTwice(o.left.lo - 1, w);
    AlignedShift(o.left.lo - 1, w, w);
    MultipleOf(1, w);
  }

  lemma {:induction false} NodeSplits(s: Span)
    requires TreeNode(s) && s.lo < s.hi
    ensures Siblings(Offer(LeftHalf(s), RightHalf(s))) && Offer(LeftHalf(s), RightHalf(s)).Parent() == s
  {
    var w := s.Width() / 2;
    BitTrick(s.Width());
    assert s.Width() == 2 * w;
    BitTrick(w);
    AlignedTwice(s.lo - 1, w);
  }

  // ---------- which pairs are offered ----------

  predicate Offerable(have: set<Span>, floor: int, claimed: set<Span>, o: Offer) {
    && o.left in have && o.right in have
    && o.left.lo > floor
    && Siblings(o)
    && o.Parent() !in have && o.Parent() !in claimed
  }

  /** A pair that may be offered, from its bounds: two verified ranges of one width, a power of two, that meet at the
      middle of an aligned range twice as wide, above the floor, and that range neither verified nor claimed. */
  lemma OfferedPair(have: set<Span>, floor: int, claimed: set<Span>, o: Offer)
    ensures Offerable(have, floor, claimed, o) <==>
              && o.left in have && o.right in have && o.left.lo > floor
              && o.right.lo == o.left.hi + 1 && o.right.hi - o.right.lo == o.left.hi - o.left.lo
              && IsPow2(o.left.hi - o.left.lo + 1)
              && (o.left.lo - 1) % (2 * (o.left.hi - o.left.lo + 1)) == 0
              && Span(o.left.lo, o.right.hi) !in have && Span(o.left.lo, o.right.hi) !in claimed
  {
    var w := o.left.Width();
    if w > 0 {
      BitTrick(w);
      AlignedTwice(o.left.lo - 1, w);
    }
  }

  ghost predicate IndexesStarts(rows: seq<Span>, starts: map<int, seq<Span>>) {
    && (forall lo, s :: lo in starts && s in starts[lo] ==> s in rows && s.lo == lo)
    && (forall s :: s in rows ==> s.lo in starts && s in starts[s.lo])
  }

  method IndexByStart(rows: seq<Span>) returns (starts: map<int, seq<Span>>, have: set<Span>)
    ensures IndexesStarts(rows, starts)
    ensures forall s :: s in have <==> s in rows
  {
    starts, have := map[], {};
    for i := 0 to |rows|
      invariant IndexesStarts(rows[..i], starts)
      invariant forall s :: s in have <==> s in rows[..i]
    {
      var r := rows[i];
      assert rows[..i+1] == rows[..i] + [r];
      var sofar := if r.lo in starts then starts[r.lo] else [];
      starts := starts[r.lo := sofar + [r]];
      have := have + {r};
    }
    assert rows[..|rows|] == rows;
  }

  function AsSet(rows: seq<Span>): set<Span> {
    set s | s in rows
  }

  /** A pair the inner loop takes: r's right neighbour of equal width, its parent missing and unclaimed. */
  predicate Takes(r: Span, s: Span, have: set<Span>, claimed: set<Span>) {
    s.Width() == r.Width() && Span(r.lo, s.hi) !in have && Span(r.lo, s.hi) !in claimed
  }

  /** The inner loop for one left sibling; `full` says the limit was reached. */
  method OffersFrom(r: Span, nexts: seq<Span>, have: set<Span>, claimed: set<Span>, out: seq<Offer>, limit: int)
    returns (out': seq<Offer>, full: bool)
    requires out == [] || |out| < limit
    ensures out <= out' && forall k :: |out| <= k < |out'| ==> out'[k].left == r
    ensures forall o :: o in out' ==> o in out || (o.left == r && o.right in nexts && Takes(r, o.right, have, claimed))
    ensures !full ==> forall s :: s in nexts && Takes(r, s, have, claimed) ==> Offer(r, s) in out'
    ensures if full then out' != [] && |out'| >= limit && (|out'| <= limit || |out'| == 1) else out' == [] || |out'| < limit
  {
    out', full := out, false;
    for k := 0 to |nexts|
      invariant out <= out' && (out' == [] || |out'| < limit)
      invariant forall j :: |out| <= j < |out'| ==> out'[j].left == r
      invariant forall o :: o in out' ==> o in out || (o.left == r && o.right in nexts && Takes(r, o.right, have, claimed))
      invariant forall m :: 0 <= m < k && Takes(r, nexts[m], have, claimed) ==> Offer(r, nexts[m]) in out'
    {
      if Takes(r, nexts[k], have, claimed) {
        ghost var before := out';
        out' := out' + [Offer(r, nexts[k])];
        assert out'[|before|] == Offer(r, nexts[k]);
        assert forall o :: o in before ==> o in out';
        if |out'| >= limit {
          return out', true;
        }
      }
    }
  }

  /** An offer is a left sibling and a range it takes from those that start next to it. */
  lemma OfferableIs(rows: seq<Span>, starts: map<int, seq<Span>>, have: set<Span>, floor: int, claimed: set<Span>, o: Offer)
    requires IndexesStarts(rows, starts) && forall s :: s in have <==> s in rows
    ensures Offerable(have, floor, claimed, o)
       <==> && o.left in rows && LeftSibling(o.left, floor)
            && o.left.hi + 1 in starts && o.right in starts[o.left.hi+1] && Takes(o.left, o.right, have, claimed)
  {
    hide BitAnd;
  }

  predicate LeftSibling(r: Span, floor: int) {
    r.lo > floor && TreeNode(r) && (r.lo - 1) / r.Width() % 2 == 0
  }

  predicate RowsByLo(rows: seq<Span>) {
    forall i, j :: 0 <= i < j < |rows| ==> rows[i].lo <= rows[j].lo
  }

  predicate LowestFirst(out: seq<Offer>) {
    forall i, j :: 0 <= i < j < |out| ==> out[i].left.lo <= out[j].left.lo
  }

  lemma StillLowestFirst(before: seq<Offer>, out: seq<Offer>, r: Span)
    requires LowestFirst(before) && before <= out && forall o :: o in before ==> o.left.lo <= r.lo
    requires forall k :: |before| <= k < |out| ==> out[k].left == r
    ensures LowestFirst(out) && forall o :: o in out ==> o.left.lo <= r.lo
  {
    forall i, j | 0 <= i < j < |out| ensures out[i].left.lo <= out[j].left.lo {
      if i < |before| {
        assert out[i] == before[i] && before[i] in before;
        assert j < |before| ==> out[j] == before[j];
      }
    }
    forall o | o in out ensures o.left.lo <= r.lo {
      var k :| 0 <= k < |out| && out[k] == o;
      if k < |before| {
        assert before[k] == o;
      }
    }
  }

  lemma LaterRow(rows: seq<Span>, i: nat, s: Span)
    requires RowsByLo(rows) && i < |rows| && s in rows && s !in rows[..i]
    ensures rows[i].lo <= s.lo
  {
    forall j | 0 <= j < i ensures rows[j] != s {
      assert rows[..i][j] == rows[j];
    }
  }

  /** `foldable`: at most `limit` offers (one, when the limit is below one), and all of them when it
      returns fewer. */
  method Foldable(rows: seq<Span>, floor: int, claimed: set<Span>, limit: int) returns (out: seq<Offer>)
    ensures forall o :: o in out ==> Offerable(AsSet(rows), floor, claimed, o)
    ensures out == [] || |out| <= limit || |out| == 1
    ensures out == [] || |out| < limit ==> forall o :: Offerable(AsSet(rows), floor, claimed, o) ==> o in out
    ensures forall o :: o in out ==> o.left.lo > floor && Span(o.left.lo, o.right.hi) !in claimed
    ensures RowsByLo(rows) ==> LowestFirst(out)
    ensures RowsByLo(rows) ==> forall o :: Offerable(AsSet(rows), floor, claimed, o) && o !in out ==>
              out != [] && out[|out|-1].left.lo <= o.left.lo
  {
    var starts, have := IndexByStart(rows);
    assert have == AsSet(rows);
    out := WalkRows(rows, starts, have, floor, claimed, limit);
    OffersAreAbove(have, floor, claimed, out);
  }

  /** The walk over the indexed rows. */
  method WalkRows(rows: seq<Span>, starts: map<int, seq<Span>>, have: set<Span>, floor: int, claimed: set<Span>, limit: int)
    returns (out: seq<Offer>)
    requires IndexesStarts(rows, starts) && forall s :: s in have <==> s in rows
    ensures forall o :: o in out ==> Offerable(have, floor, claimed, o)
    ensures out == [] || |out| <= limit || |out| == 1
    ensures out == [] || |out| < limit ==> forall o :: Offerable(have, floor, claimed, o) ==> o in out
    ensures RowsByLo(rows) ==> LowestFirst(out)
    ensures RowsByLo(rows) ==> forall o :: Offerable(have, floor, claimed, o) && o !in out ==>
              out != [] && out[|out|-1].left.lo <= o.left.lo
  {
    hide Offerable, LeftSibling, Takes, IndexesStarts, WalkedTo, RowsByLo, LowestFirst;
    out := [];
    WalkStart(rows, have, floor, claimed);
    for i := 0 to |rows|
      invariant WalkedTo(rows, have, floor, claimed, out, i)
      invariant out == [] || |out| < limit
    {
      var r := rows[i];
      var before, full := out, false;
      if LeftSibling(r, floor) {
        var nexts := if r.hi + 1 in starts then starts[r.hi+1] else [];
        out, full := OffersFrom(r, nexts, have, claimed, out, limit);
        WalkOffers(rows, starts, have, floor, claimed, before, out, i, nexts, full);
      } else {
        WalkNoOffers(rows, starts, have, floor, claimed, out, i);
      }
      if full {
        return;
      }
    }
    WalkEnd(rows, have, floor, claimed, out);
  }

  lemma OffersAreAbove(have: set<Span>, floor: int, claimed: set<Span>, out: seq<Offer>)
    requires forall o :: o in out ==> Offerable(have, floor, claimed, o)
    ensures forall o :: o in out ==> o.left.lo > floor && Span(o.left.lo, o.right.hi) !in claimed
  {
  }

  /** What the walk has collected from the rows before i: real offers, all of those rows' offers, lowest first. */
  ghost predicate WalkedTo(rows: seq<Span>, have: set<Span>, floor: int, claimed: set<Span>, out: seq<Offer>, i: nat) {
    && i <= |rows|
    && (forall o :: o in out ==> Offerable(have, floor, claimed, o))
    && (forall o :: Offerable(have, floor, claimed, o) && o.left in rows[..i] ==> o in out)
    && (RowsByLo(rows) ==> LowestFirst(out) && forall o :: o in out && i < |rows| ==> o.left.lo <= rows[i].lo)
  }

  lemma WalkStart(rows: seq<Span>, have: set<Span>, floor: int, claimed: set<Span>)
    ensures WalkedTo(rows, have, floor, claimed, [], 0)
  {
  }

  lemma WalkEnd(rows: seq<Span>, have: set<Span>, floor: int, claimed: set<Span>, out: seq<Offer>)
    requires WalkedTo(rows, have, floor, claimed, out, |rows|) && forall s :: s in have <==> s in rows
    ensures forall o :: o in out <==> Offerable(have, floor, claimed, o)
    ensures RowsByLo(rows) ==> LowestFirst(out)
  {
    assert rows[..|rows|] == rows;
  }

  lemma WalkNoOffers(rows: seq<Span>, starts: map<int, seq<Span>>, have: set<Span>, floor: int, claimed: set<Span>,
                     out: seq<Offer>, i: nat)
    requires IndexesStarts(rows, starts) && forall s :: s in have <==> s in rows
    requires i < |rows| && WalkedTo(rows, have, floor, claimed, out, i) && !LeftSibling(rows[i], floor)
    ensures WalkedTo(rows, have, floor, claimed, out, i + 1)
  {
    hide TreeNode, LeftSibling;
    assert rows[..i+1] == rows[..i] + [rows[i]];
    forall o | Offerable(have, floor, claimed, o) ensures o.left != rows[i] {
      OfferableIs(rows, starts, have, floor, claimed, o);
    }
  }

  lemma OffersFromAreOfferable(rows: seq<Span>, starts: map<int, seq<Span>>, have: set<Span>, floor: int, claimed: set<Span>,
                               r: Span, o: Offer)
    requires IndexesStarts(rows, starts) && forall s :: s in have <==> s in rows
    requires r in rows && LeftSibling(r, floor) && o.left == r
    ensures Offerable(have, floor, claimed, o)
       <==> r.hi + 1 in starts && o.right in starts[r.hi+1] && Takes(r, o.right, have, claimed)
  {
    OfferableIs(rows, starts, have, floor, claimed, o);
  }

  /** What the inner loop adds for row i: all of its offers, or the first of them when the limit cuts it short. */
  lemma WalkOffers(rows: seq<Span>, starts: map<int, seq<Span>>, have: set<Span>, floor: int, claimed: set<Span>,
                   before: seq<Offer>, out: seq<Offer>, i: nat, nexts: seq<Span>, full: bool)
    requires IndexesStarts(rows, starts) && forall s :: s in have <==> s in rows
    requires i < |rows| && WalkedTo(rows, have, floor, claimed, before, i) && LeftSibling(rows[i], floor)
    requires nexts == if rows[i].hi + 1 in starts then starts[rows[i].hi+1] else []
    requires before <= out && forall k :: |before| <= k < |out| ==> out[k].left == rows[i]
    requires forall o :: o in out ==> o in before || (o.left == rows[i] && o.right in nexts && Takes(rows[i], o.right, have, claimed))
    requires !full ==> forall s :: s in nexts && Takes(rows[i], s, have, claimed) ==> Offer(rows[i], s) in out
    requires full ==> out != []
    ensures forall o :: o in out ==> Offerable(have, floor, claimed, o)
    ensures RowsByLo(rows) ==> LowestFirst(out)
    ensures !full ==> WalkedTo(rows, have, floor, claimed, out, i + 1)
    ensures full && RowsByLo(rows) ==>
              forall o :: Offerable(have, floor, claimed, o) && o !in out ==> out[|out|-1].left.lo <= o.left.lo
  {
    hide TreeNode, LeftSibling, Takes, Offerable, IndexesStarts;
    var r := rows[i];
    assert rows[..i+1] == rows[..i] + [r];
    assert forall o :: o in before ==> o in out;
    forall o: Offer | o.left == r
      ensures Offerable(have, floor, claimed, o) <==> o.right in nexts && Takes(r, o.right, have, claimed)
    {
      OffersFromAreOfferable(rows, starts, have, floor, claimed, r, o);
    }
    if RowsByLo(rows) {
      StillLowestFirst(before, out, r);
      if full {
        assert out[|out|-1] in out;
        forall o | Offerable(have, floor, claimed, o) && o !in out ensures r.lo <= o.left.lo {
          OfferLeftIsRow(rows, have, floor, claimed, o);
          LaterRow(rows, i, o.left);
        }
      }
    }
  }

  lemma OfferLeftIsRow(rows: seq<Span>, have: set<Span>, floor: int, claimed: set<Span>, o: Offer)
    requires Offerable(have, floor, claimed, o) && forall s :: s in have <==> s in rows
    ensures o.left in rows
  {
  }
}
