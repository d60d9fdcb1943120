/** Laws of the frontier that hold for every set of rows, whatever order the walk reads them in. */
module FrontierLaws {
  import opened Ranges
  import opened Frontier

  predicate SameRank(a: End, b: End) {
    a.work == b.work && a.hi == b.hi
  }

  /** Adding rows never lowers the frontier. */
  lemma {:induction false} FrontierMonotone(rows: seq<VRow>, more: seq<VRow>, e: End, e': End)
    requires forall r :: r in rows ==> r in more
    requires IsFrontier(rows, e) && IsFrontier(more, e')
    ensures NotBetter(e, e')
  {
    var p :| IsChain(rows, p) && EndOf(p) == e;
    assert IsChain(more, p);
  }

  /** Two coordinators with the same verified set compute the same work and height, in any row order. */
  lemma {:induction false} FrontierOrderIndependent(rows: seq<VRow>, other: seq<VRow>, e: End, e': End)
    requires forall r :: r in rows <==> r in other
    requires IsFrontier(rows, e) && IsFrontier(other, e')
    ensures SameRank(e, e')
  {
    FrontierMonotone(rows, other, e, e');
    FrontierMonotone(other, rows, e', e);
  }

  /** Every height from 1 to the frontier is covered. */
  lemma {:induction false} FrontierCovers(rows: seq<VRow>, e: End, h: int)
    requires IsFrontier(rows, e) && 1 <= h <= e.hi
    ensures CoveredBy(rows, h)
  {
    var p :| IsChain(rows, p) && EndOf(p) == e;
    ChainCovers(rows, p, h);
  }

  /** Row r would extend a chain that ends where p ends. */
  predicate Continues(p: seq<VRow>, r: VRow) {
    if p == [] then Starts(r) else Seams(p[|p|-1], r)
  }

  // ---------- folding ----------

  /** m is the fold of a and b: joined boundaries, summed work. */
  predicate IsFoldOf(m: VRow, a: VRow, b: VRow) {
    && Seams(a, b)
    && m.lo == a.lo && m.inTip == a.inTip && m.inDigest == a.inDigest
    && m.hi == b.hi && m.outTip == b.outTip && m.outDigest == b.outDigest
    && m.Work() == a.Work() + b.Work()
  }

  /** The chain with every use of the fold m replaced by the two rows it folds. */
  function Unfolded(p: seq<VRow>, m: VRow, a: VRow, b: VRow): seq<VRow> {
    if p == [] then []
    else Unfolded(p[..|p|-1], m, a, b) + if p[|p|-1] == m then [a, b] else [p[|p|-1]]
  }

  /** q ends where p ends: same work and height, and a boundary the same rows continue. */
  predicate SameEnd(p: seq<VRow>, q: seq<VRow>) {
    && ChainWork(q) == ChainWork(p)
    && (p == [] <==> q == [])
    && (p != [] ==>
      var x, y := p[|p|-1], q[|q|-1];
      x.outTip == y.outTip && x.outDigest == y.outDigest && x.hi == y.hi)
  }

  lemma ExtendSameEnd(rows: seq<VRow>, p: seq<VRow>, q: seq<VRow>, r: VRow)
    requires IsChain(rows, q) && SameEnd(p, q) && r in rows && Continues(p, r)
    ensures IsChain(rows, q + [r]) && SameEnd(p + [r], q + [r])
  {
    ExtendChain(rows, q, r);
    assert (p + [r])[..|p|] == p;
  }

  lemma ExtendByFold(rows: seq<VRow>, p: seq<VRow>, q: seq<VRow>, m: VRow, a: VRow, b: VRow)
    requires IsChain(rows, q) && SameEnd(p, q)
    requires a in rows && b in rows && IsFoldOf(m, a, b) && Continues(p, m)
    ensures IsChain(rows, q + [a, b]) && SameEnd(p + [m], q + [a, b])
  {
    ExtendChain(rows, q, a);
    ExtendChain(rows, q + [a], b);
    assert q + [a] + [b] == q + [a, b];
    assert (p + [m])[..|p|] == p;
  }

  lemma {:induction false} UnfoldedIsChain(rows: seq<VRow>, folded: seq<VRow>, m: VRow, a: VRow, b: VRow, p: seq<VRow>)
    requires a in rows && b in rows && IsFoldOf(m, a, b)
    requires forall r :: r in folded <==> r in rows || r == m
    requires IsChain(folded, p)
    ensures IsChain(rows, Unfolded(p, m, a, b)) && SameEnd(p, Unfolded(p, m, a, b))
    decreases |p|
  {
    if p != [] {
      var init, last := p[..|p|-1], p[|p|-1];
      PrefixIsChain(folded, p);
      UnfoldedIsChain(rows, folded, m, a, b, init);
      assert p == init + [last] && Continues(init, last);
      var q := Unfolded(init, m, a, b);
      if last == m {
        ExtendByFold(rows, init, q, m, a, b);
      } else {
        assert last in rows;
        ExtendSameEnd(rows, init, q, last);
      }
    }
  }

  /** A fold of two seamed rows re-expresses them and moves nothing: the frontier's work and height stay. */
  lemma {:induction false} FoldNeutral(rows: seq<VRow>, folded: seq<VRow>, m: VRow, a: VRow, b: VRow, e: End, e': End)
    requires a in rows && b in rows && IsFoldOf(m, a, b)
    requires forall r :: r in folded <==> r in rows || r == m
    requires IsFrontier(rows, e) && IsFrontier(folded, e')
    ensures SameRank(e, e')
  {
    FrontierMonotone(rows, folded, e, e');
    var p :| IsChain(folded, p) && EndOf(p) == e';
    UnfoldedIsChain(rows, folded, m, a, b, p);
  }

  /** No row the walk has read, of non-negative work, continues any best chain: it would have won. */
  lemma {:induction false} NothingContinuesFrontier(rows: seq<VRow>, e: End, p: seq<VRow>, r: VRow)
    requires IsFrontier(rows, e) && IsChain(rows, p) && SameRank(EndOf(p), e)
    requires r in rows && WellFormedRow(r) && r.Work() >= 0
    ensures !Continues(p, r)
  {
    if Continues(p, r) {
      ExtendChain(rows, p, r);
    }
  }
}
