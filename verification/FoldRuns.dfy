/** Runs of folding, from single blocks 1..n with no spine and no fold claims: every run stops, after at
    most n-1 folds, and always at the same set of ranges. */
module FoldRuns {
  import opened Ranges
  import opened FoldTree

  function Leaves(n: nat): set<Span> {
    set h | 1 <= h <= n :: Span(h, h)
  }

  /** Every node of the tree that lies inside 1..n. */
  function Nodes(n: nat): set<Span> {
    set lo, hi | 1 <= lo <= n && lo <= hi <= n && TreeNode(Span(lo, hi)) :: Span(lo, hi)
  }

  predicate Offers(have: set<Span>, o: Offer) {
    Offerable(have, 0, {}, o)
  }

  ghost predicate Stuck(have: set<Span>) {
    forall o :: !Offers(have, o)
  }

  ghost predicate FoldsOnce(before: set<Span>, after: set<Span>) {
    exists o :: Offers(before, o) && after == before + {o.Parent()}
  }

  ghost predicate Run(n: nat, run: seq<set<Span>>) {
    && |run| > 0 && run[0] == Leaves(n)
    && forall i :: 0 <= i < |run| - 1 ==> FoldsOnce(run[i], run[i+1])
  }

  // ---------- what every state of a run holds ----------

  ghost function Folded(have: set<Span>): set<Span> {
    set s | s in have && s.lo < s.hi
  }

  lemma LeafIsNode(h: int)
    ensures TreeNode(Span(h, h))
  {
  }

  lemma {:induction false} RunInvariant(n: nat, run: seq<set<Span>>, i: nat)
    requires Run(n, run) && i < |run|
    ensures Leaves(n) <= run[i] <= Nodes(n)
    ensures |Folded(run[i])| == i
  {
    if i == 0 {
      LeavesAreNodes(n);
      assert Folded(run[0]) == {};
    } else {
      RunInvariant(n, run, i - 1);
      assert FoldsOnce(run[i-1], run[i]);
      var o :| Offers(run[i-1], o) && run[i] == run[i-1] + {o.Parent()};
      FoldAddsANode(n, run[i-1], o);
    }
  }

  lemma LeavesAreNodes(n: nat)
    ensures Leaves(n) <= Nodes(n)
  {
    forall s | s in Leaves(n) ensures s in Nodes(n) {
      LeafIsNode(s.lo);
    }
  }

  lemma FoldAddsANode(n: nat, have: set<Span>, o: Offer)
    requires have <= Nodes(n) && Offers(have, o)
    ensures have + {o.Parent()} <= Nodes(n)
    ensures |Folded(have + {o.Parent()})| == |Folded(have)| + 1
  {
    hide TreeNode;
    SiblingsMakeANode(o);
    assert o.Parent() in Nodes(n);
    assert Folded(have + {o.Parent()}) == Folded(have) + {o.Parent()};
  }

  // ---------- the bound: a folded node is known by its midpoint ----------

  function Midpoint(s: Span): int {
    s.lo - 1 + s.Width() / 2
  }

  lemma MidpointModWidth(s: Span, w: int)
    requires TreeNode(s) && 1 < s.Width() == w
    ensures Midpoint(s) % w == w / 2
  {
    AlignedShift(s.lo - 1, w / 2, w);
    SmallMod(w / 2, w);
  }

  lemma SmallMod(a: int, w: int)
    requires 0 <= a < w
    ensures a % w == a
  {
  }

  /** A wider node's midpoint is a multiple of every smaller power of two. */
  lemma {:induction false} MidpointModSmaller(t: Span, w: int)
    requires TreeNode(t) && IsPow2(w) && w < t.Width()
    ensures Midpoint(t) % w == 0
  {
    var v := t.Width();
    BitTrick(v);
    SmallerPow2Below(w, v);
    SmallerPow2Divides(w, v / 2);
    SmallerPow2Divides(w, v);
    AlignedTrans(t.lo - 1, v, w);
    AlignedShift(t.lo - 1, v / 2, w);
  }

  lemma WiderMidpointDiffers(s: Span, t: Span)
    requires TreeNode(s) && TreeNode(t) && 1 < s.Width() < t.Width()
    ensures Midpoint(s) != Midpoint(t)
  {
    hide BitAnd;
    BitTrick(s.Width());
    MidpointModWidth(s, s.Width());
    MidpointModSmaller(t, s.Width());
  }

  lemma MidpointsDistinct(s: Span, t: Span)
    requires TreeNode(s) && TreeNode(t) && 1 < s.Width() && 1 < t.Width() && Midpoint(s) == Midpoint(t)
    ensures s == t
  {
    if s.Width() < t.Width() {
      WiderMidpointDiffers(s, t);
    } else if t.Width() < s.Width() {
      WiderMidpointDiffers(t, s);
    }
  }

  /** Distinct folded nodes inside 1..n have distinct midpoints in 1..n-1, so there are at most n-1. */
  lemma {:induction false} AtMostMidpoints(nodes: set<Span>, mids: set<int>)
    requires forall s :: s in nodes ==> TreeNode(s) && 1 < s.Width() && Midpoint(s) in mids
    ensures |nodes| <= |mids|
  {
    if nodes != {} {
      var s :| s in nodes;
      forall t | t in nodes - {s} ensures Midpoint(t) in mids - {Midpoint(s)} {
        if Midpoint(t) == Midpoint(s) {
          MidpointsDistinct(s, t);
        }
      }
      AtMostMidpoints(nodes - {s}, mids - {Midpoint(s)});
    }
  }

  function OneTo(n: nat): (s: set<int>)
    ensures forall h :: h in s <==> 1 <= h <= n
    ensures |s| == n
  {
    if n == 0 then {} else OneTo(n - 1) + {n}
  }

  lemma {:induction false} FewFolds(n: nat, have: set<Span>)
    requires n > 0 && have <= Nodes(n)
    ensures |Folded(have)| <= n - 1
  {
    AtMostMidpoints(Folded(have), OneTo(n - 1));
  }

  // ---------- the fixed point ----------

  /** If nothing is offered, every node inside 1..n is there: its halves are, and they would be offered. */
  lemma {:induction false} StuckHasNode(n: nat, have: set<Span>, s: Span)
    requires Leaves(n) <= have && s in Nodes(n)
    requires Stuck(have)
    ensures s in have
    decreases s.hi - s.lo
  {
    if s.lo < s.hi {
      NodeSplits(s);
      var o := Offer(LeftHalf(s), RightHalf(s));
      SiblingsMakeANode(o);
      StuckHasNode(n, have, o.left);
      StuckHasNode(n, have, o.right);
      assert !Offers(have, o);
    } else {
      assert s in Leaves(n);
    }
  }

  /** At the full tree nothing is offered: a parent inside 1..n is a node, so it already exists. */
  lemma {:induction false} FullTreeIsStuck(n: nat, o: Offer)
    ensures !Offers(Nodes(n), o)
  {
    if Siblings(o) && o.left in Nodes(n) && o.right in Nodes(n) {
      SiblingsMakeANode(o);
    }
  }

  // ---------- how many folds that takes ----------

  /** The number of one-bits of n. */
  function Ones(n: nat): nat {
    if n == 0 then 0 else n % 2 + Ones(n / 2)
  }

  /** The node twice as wide, over twice the blocks. */
  function Doubled(s: Span): Span {
    Span(2 * s.lo - 1, 2 * s.hi)
  }

  lemma DoubledIsNode(s: Span)
    requires s.lo <= s.hi
    ensures TreeNode(Doubled(s)) <==> TreeNode(s)
  {
    var w, a := s.Width(), s.lo - 1;
    assert Doubled(s).Width() == 2 * w && Doubled(s).lo - 1 == 2 * a;
    BitTrick(w);
    BitTrick(2 * w);
    DivMod(a, w);
    DivMod(2 * a, 2 * w);
    if a % w == 0 {
      assert 2 * a == (a / w) * (2 * w);
      MultipleOf(a / w, 2 * w);
    }
    if (2 * a) % (2 * w) == 0 {
      assert a == ((2 * a) / (2 * w)) * w;
      MultipleOf((2 * a) / (2 * w), w);
    }
  }

  /** A node of more than one block is a doubled one. */
  lemma WideNodeIsDoubled(s: Span)
    requires TreeNode(s) && 1 <= s.lo < s.hi
    ensures exists t: Span :: t.lo <= t.hi && Doubled(t) == s
  {
    BitTrick(s.Width());
    var w := s.Width() / 2;
    AlignedTwice(s.lo - 1, w);
    DivMod(s.lo - 1, 2 * w);
    var q := (s.lo - 1) / (2 * w);
    assert s.lo - 1 == 2 * (w * q);
    var t := Span(w * q + 1, w * q + w);
    assert Doubled(t) == s;
  }

  lemma InNodes(n: nat, s: Span)
    ensures s in Nodes(n) <==> 1 <= s.lo <= s.hi <= n && TreeNode(s)
  {
  }

  predicate IsDouble(nodes: set<Span>, s: Span) {
    exists t :: t in nodes && Doubled(t) == s
  }

  /** The folded nodes inside 1..n are the doubled nodes inside 1..n/2. */
  lemma FoldedAreDoubled(n: nat, s: Span)
    ensures s in Folded(Nodes(n)) <==> IsDouble(Nodes(n / 2), s)
  {
    hide TreeNode, Nodes;
    InNodes(n, s);
    if s in Folded(Nodes(n)) {
      WideNodeIsDoubled(s);
      var t: Span :| t.lo <= t.hi && Doubled(t) == s;
      DoubledIsNode(t);
      InNodes(n / 2, t);
    }
    if t :| t in Nodes(n / 2) && Doubled(t) == s {
      InNodes(n / 2, t);
      DoubledIsNode(t);
    }
  }

  lemma {:induction false} DoublesAreAsMany(nodes: set<Span>, doubles: set<Span>)
    requires forall s :: s in doubles <==> IsDouble(nodes, s)
    ensures |doubles| == |nodes|
  {
    if nodes == {} {
      assert doubles == {};
    } else {
      var t :| t in nodes;
      assert Doubled(t) in doubles;
      forall s ensures s in doubles - {Doubled(t)} <==> IsDouble(nodes - {t}, s) {
        if u :| u in nodes - {t} && Doubled(u) == s {
          assert u != t && Doubled(u) != Doubled(t);
        }
      }
      DoublesAreAsMany(nodes - {t}, doubles - {Doubled(t)});
    }
  }

  lemma NodesAreLeavesAndFolded(n: nat)
    ensures |Nodes(n)| == n + |Folded(Nodes(n))|
  {
    LeavesAreNodes(n);
    assert Nodes(n) == Leaves(n) + Folded(Nodes(n)) by {
      forall s | s in Nodes(n) && s.lo == s.hi ensures s in Leaves(n) {
      }
    }
    assert Leaves(n) !! Folded(Nodes(n));
    LeafCount(n);
  }

  lemma {:induction false} LeafCount(n: nat)
    ensures |Leaves(n)| == n
  {
    if n == 0 {
      assert Leaves(0) == {};
    } else {
      LeafCount(n - 1);
      assert Leaves(n) == Leaves(n - 1) + {Span(n, n)};
    }
  }

  /** The full tree over 1..n has n minus the number of one-bits of n folded ranges. */
  lemma {:induction false} FoldedCount(n: nat)
    ensures |Folded(Nodes(n))| == n - Ones(n)
  {
    if n == 0 {
      assert Nodes(0) == {};
    } else {
      FoldedCount(n / 2);
      NodesAreLeavesAndFolded(n / 2);
      forall s ensures s in Folded(Nodes(n)) <==> IsDouble(Nodes(n / 2), s) {
        FoldedAreDoubled(n, s);
      }
      DoublesAreAsMany(Nodes(n / 2), Folded(Nodes(n)));
    }
  }

  /** Folding converges: no run is longer than n-1 folds, a run can end exactly at the full tree, and the
      number of folds that takes is the same for every order. */
  lemma {:induction false} FoldingConverges(n: nat, run: seq<set<Span>>)
    requires Run(n, run)
    ensures |run| - 1 <= if n == 0 then 0 else n - 1
    ensures Stuck(run[|run|-1]) <==> run[|run|-1] == Nodes(n)
    ensures run[|run|-1] == Nodes(n) ==> |run| - 1 == n - Ones(n)
  {
    var last := run[|run|-1];
    FoldedCount(n);
    RunInvariant(n, run, |run| - 1);
    if n == 0 {
      assert Nodes(0) == {};
    } else {
      FewFolds(n, last);
    }
    if Stuck(last) {
      forall s | s in Nodes(n) ensures s in last {
        StuckHasNode(n, last, s);
      }
    }
    forall o ensures !Offers(Nodes(n), o) {
      FullTreeIsStuck(n, o);
    }
  }
}
