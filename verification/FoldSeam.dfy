/** Telling a fold from a proof: the walk in submission order over a compressed index of earlier ranges. */
module FoldSeam {
  import opened Ranges
  import opened FoldTree
  import Intervals

  /** Two earlier ranges meet exactly to form s. */
  ghost predicate JoinsEarlier(earlier: seq<Span>, s: Span) {
    exists m :: Span(s.lo, m) in earlier && Span(m + 1, s.hi) in earlier
  }

  /** by_start keeps only the widest range from each start; ends_at keeps every end. */
  ghost predicate Indexes(earlier: seq<Span>, byStart: map<int, int>, endsAt: map<int, set<int>>) {
    && (forall lo :: lo in byStart ==> Span(lo, byStart[lo]) in earlier)
    && (forall s :: s in earlier && 0 <= s.hi ==> s.lo in byStart && s.hi <= byStart[s.lo])
    && (forall lo, hi :: lo in endsAt && hi in endsAt[lo] ==> Span(lo, hi) in earlier)
    && (forall s :: s in earlier ==> s.lo in endsAt && s.hi in endsAt[s.lo])
  }

  /** `is_fold_seam` */
  predicate IsFoldSeam(s: Span, byStart: map<int, int>, endsAt: map<int, set<int>>) {
    s.lo in endsAt && exists m :: m in endsAt[s.lo] && m + 1 in byStart && byStart[m+1] == s.hi
  }

  /** A range the walk calls a fold always is the join of two earlier ranges. */
  lemma {:induction false} FoldSeamSound(earlier: seq<Span>, byStart: map<int, int>, endsAt: map<int, set<int>>, s: Span)
    requires Indexes(earlier, byStart, endsAt) && IsFoldSeam(s, byStart, endsAt)
    ensures JoinsEarlier(earlier, s)
  {
    var m :| m in endsAt[s.lo] && m + 1 in byStart && byStart[m+1] == s.hi;
    assert Span(s.lo, m) in earlier && Span(m + 1, s.hi) in earlier;
  }

  predicate AllNodes(spans: seq<Span>) {
    forall i :: 0 <= i < |spans| ==> TreeNode(spans[i]) && 1 <= spans[i].lo
  }

  lemma {:induction false} Pow2SumsAreEqual(a: int, b: int)
    requires IsPow2(a) && IsPow2(b) && IsPow2(a + b)
    ensures a == b
  {
    if a < b {
      SmallerPow2Below(b, a + b);
    } else if b < a {
      SmallerPow2Below(a, a + b);
    }
  }

  /** A node starting where a node of width w ends its left half is no wider than w. */
  lemma {:induction false} NoWiderRightNode(lo: int, w: int, t: Span)
    requires IsPow2(w) && (lo - 1) % (2 * w) == 0 && TreeNode(t) && t.lo == lo + w
    ensures t.Width() <= w
  {
    BitTrick(t.Width());
    HalfwayIsUnaligned(lo - 1, w);
    if t.Width() > w {
      DoubleDivides(w, t.Width());
      AlignedTrans(t.lo - 1, t.Width(), 2 * w);
    }
  }

  lemma HalfwayIsUnaligned(a: int, w: int)
    requires w > 0 && a % (2 * w) == 0
    ensures (a + w) % (2 * w) == w
  {
    AlignedShift(a, w, 2 * w);
  }

  lemma {:induction false} DoubleDivides(w: int, v: int)
    requires IsPow2(w) && IsPow2(v) && w < v
    ensures v % (2 * w) == 0
  {
    SmallerPow2Below(w, v);
    assert 2 * w / 2 == w && IsPow2(2 * w);
    SmallerPow2Divides(2 * w, v);
  }

  /** On a board of tree nodes the compressed index loses nothing: the test is exact. */
  lemma {:induction false} FoldSeamExactOnNodes(earlier: seq<Span>, byStart: map<int, int>, endsAt: map<int, set<int>>, s: Span)
    requires Indexes(earlier, byStart, endsAt) && AllNodes(earlier) && TreeNode(s)
    ensures IsFoldSeam(s, byStart, endsAt) <==> JoinsEarlier(earlier, s)
  {
    if IsFoldSeam(s, byStart, endsAt) {
      FoldSeamSound(earlier, byStart, endsAt, s);
    }
    if JoinsEarlier(earlier, s) {
      var m :| Span(s.lo, m) in earlier && Span(m + 1, s.hi) in earlier;
      WidestIsTheSibling(earlier, byStart, endsAt, s, m);
    }
  }

  lemma {:induction false} WidestIsTheSibling(earlier: seq<Span>, byStart: map<int, int>, endsAt: map<int, set<int>>, s: Span, m: int)
    requires Indexes(earlier, byStart, endsAt) && AllNodes(earlier) && TreeNode(s)
    requires Span(s.lo, m) in earlier && Span(m + 1, s.hi) in earlier
    ensures m + 1 in byStart && byStart[m+1] == s.hi
  {
    var l, r := Span(s.lo, m), Span(m + 1, s.hi);
    BitTrick(l.Width());
    BitTrick(r.Width());
    BitTrick(s.Width());
    Pow2SumsAreEqual(l.Width(), r.Width());
    assert TreeNode(r) && 0 <= r.hi;
    var widest := Span(m + 1, byStart[m+1]);
    assert widest in earlier && TreeNode(widest);
    NoWiderRightNode(s.lo, l.Width(), widest);
  }

  /** What submit demands of every range of the list: it is a single block, or tiled by the ranges before it. */
  ghost predicate AllPassGate(spans: seq<Span>) {
    forall i :: 0 <= i < |spans| ==> PassedGate(spans, i)
  }

  ghost predicate PassedGate(spans: seq<Span>, i: nat)
    requires i < |spans|
  {
    1 <= spans[i].lo <= spans[i].hi && (spans[i].lo == spans[i].hi || Intervals.Tiled(spans[..i], spans[i].lo, spans[i].hi))
  }

  /** Off the tree the walk can miss a fold that the board accepted: here [2..3] hides the [2..2] that [1..2] was folded
      from. */
  lemma HiddenSibling()
    ensures exists spans: seq<Span>, i: nat :: i < |spans| && AllPassGate(spans) && spans[i].lo < spans[i].hi
              && JoinsEarlier(spans[..i], spans[i]) && !ClassedFold(spans, i)
  {
    var spans := [Span(1, 1), Span(2, 2), Span(3, 3), Span(2, 3), Span(1, 2)];
    var earlier := spans[..4];
    assert earlier == [Span(1, 1), Span(2, 2), Span(3, 3), Span(2, 3)];
    assert earlier[0] == Span(1, 1) && earlier[1] == Span(2, 2) && earlier[3] == Span(2, 3);
    HiddenPasses(spans);
    assert Span(1, 1) in earlier && Span(1 + 1, 2) in earlier;
    forall m | Span(1, m) in earlier ensures !IsWidest(earlier, Span(m + 1, 2)) {
      assert m == 1 && Span(2, 3) in earlier;
    }
    assert spans[4] == Span(1, 2) && !ClassedFold(spans, 4);
  }

  lemma TiledByOwnBlocks(earlier: seq<Span>, lo: int, hi: int)
    requires forall h :: lo <= h <= hi ==> Span(h, h) in earlier
    ensures Intervals.Tiled(earlier, lo, hi)
  {
    forall h | lo <= h <= hi ensures Intervals.TiledAt(earlier, lo, hi, h) {
      assert Intervals.Inside(Span(h, h), lo, hi) && Span(h, h).Has(h);
    }
  }

  lemma HiddenPasses(spans: seq<Span>)
    requires spans == [Span(1, 1), Span(2, 2), Span(3, 3), Span(2, 3), Span(1, 2)]
    ensures AllPassGate(spans)
  {
    assert spans[..3] == [Span(1, 1), Span(2, 2), Span(3, 3)];
    assert spans[..4] == [Span(1, 1), Span(2, 2), Span(3, 3), Span(2, 3)];
    TiledByOwnBlocks(spans[..3], 2, 3);
    TiledByOwnBlocks(spans[..4], 1, 2);
    assert PassedGate(spans, 0) && PassedGate(spans, 1) && PassedGate(spans, 2) && PassedGate(spans, 3) && PassedGate(spans, 4);
  }

  /** The two index updates that follow each range. */
  method IndexAdd(ghost earlier: seq<Span>, byStart: map<int, int>, endsAt: map<int, set<int>>, s: Span)
    returns (byStart': map<int, int>, endsAt': map<int, set<int>>)
    requires Indexes(earlier, byStart, endsAt) && forall t :: t in earlier ==> 0 <= t.hi
    requires 0 <= s.hi
    ensures Indexes(earlier + [s], byStart', endsAt')
  {
    var ends := if s.lo in endsAt then endsAt[s.lo] else {};
    endsAt' := endsAt[s.lo := ends + {s.hi}];
    byStart' := byStart;
    if (if s.lo in byStart then byStart[s.lo] else -1) < s.hi {
      byStart' := byStart[s.lo := s.hi];
    }
  }

  /** The index the walk holds after any list of ranges. */
  lemma {:induction false} IndexExists(earlier: seq<Span>) returns (byStart: map<int, int>, endsAt: map<int, set<int>>)
    requires forall t :: t in earlier ==> 0 <= t.hi
    ensures Indexes(earlier, byStart, endsAt)
  {
    if earlier == [] {
      byStart, endsAt := map[], map[];
    } else {
      var init, s := earlier[..|earlier|-1], earlier[|earlier|-1];
      byStart, endsAt := IndexExists(init);
      assert earlier == init + [s];
      var ends := if s.lo in endsAt then endsAt[s.lo] else {};
      endsAt := endsAt[s.lo := ends + {s.hi}];
      if (if s.lo in byStart then byStart[s.lo] else -1) < s.hi {
        byStart := byStart[s.lo := s.hi];
      }
    }
  }

  /** The walk's class on tree nodes, over the list alone. */
  lemma FoldClassExactOnNodes(spans: seq<Span>, i: nat)
    requires i < |spans| && AllNodes(spans) && forall j :: 0 <= j < |spans| ==> spans[j].lo <= spans[j].hi
    ensures ClassedFold(spans, i) <==> spans[i].hi > spans[i].lo && JoinsEarlier(spans[..i], spans[i])
  {
    var byStart, endsAt := IndexExists(spans[..i]);
    IndexDeterminesVerdict(spans[..i], byStart, endsAt, spans[i]);
    FoldSeamExactOnNodes(spans[..i], byStart, endsAt, spans[i]);
  }

  lemma SinglesAndFourAreNodes()
    ensures forall h :: TreeNode(Span(h, h))
    ensures TreeNode(Span(1, 4))
  {
    BitTrick(1);
    BitTrick(4);
    assert IsPow2(2) && IsPow2(4);
  }

  lemma EmptyIndexes()
    ensures Indexes([], map[], map[])
  {
  }

  /** The positions of the folds: `fold_spans` walks the ranges in the order they were verified. */
  method FoldSpans(spans: seq<Span>) returns (isFold: seq<bool>)
    requires forall i :: 0 <= i < |spans| ==> 0 <= spans[i].hi
    ensures |isFold| == |spans|
    ensures forall i :: 0 <= i < |spans| ==> isFold[i] == ClassedFold(spans, i)
  {
    hide Indexes, IsFoldSeam, JoinsWidest;
    var byStart: map<int, int>, endsAt: map<int, set<int>> := map[], map[];
    EmptyIndexes();
    isFold := [];
    for i := 0 to |spans|
      invariant |isFold| == i
      invariant Indexes(spans[..i], byStart, endsAt)
      invariant forall k :: 0 <= k < i ==> isFold[k] == ClassedFold(spans, k)
    {
      var s := spans[i];
      assert spans[..i+1] == spans[..i] + [s];
      isFold := isFold + [s.hi > s.lo && IsFoldSeam(s, byStart, endsAt)];
      IndexDeterminesVerdict(spans[..i], byStart, endsAt, s);
      byStart, endsAt := IndexAdd(spans[..i], byStart, endsAt, s);
    }
  }

  /** Row i is classed as a fold: it is wide, some earlier range shares its start, and the widest earlier
      range from that one's end ends where row i does. */
  ghost predicate ClassedFold(spans: seq<Span>, i: nat)
    requires i < |spans|
  {
    spans[i].hi > spans[i].lo && JoinsWidest(spans[..i], spans[i])
  }

  ghost predicate JoinsWidest(earlier: seq<Span>, s: Span) {
    exists m :: Span(s.lo, m) in earlier && IsWidest(earlier, Span(m + 1, s.hi))
  }

  ghost predicate IsWidest(earlier: seq<Span>, s: Span) {
    s in earlier && forall t :: t in earlier && t.lo == s.lo ==> t.hi <= s.hi
  }

  lemma {:induction false} IndexDeterminesVerdict(earlier: seq<Span>, byStart: map<int, int>, endsAt: map<int, set<int>>, s: Span)
    requires Indexes(earlier, byStart, endsAt)
    requires forall i :: 0 <= i < |earlier| ==> 0 <= earlier[i].hi
    ensures IsFoldSeam(s, byStart, endsAt) <==> JoinsWidest(earlier, s)
  {
    if IsFoldSeam(s, byStart, endsAt) {
      var m :| m in endsAt[s.lo] && m + 1 in byStart && byStart[m+1] == s.hi;
      assert Span(s.lo, m) in earlier && IsWidest(earlier, Span(m + 1, s.hi));
    }
    if JoinsWidest(earlier, s) {
      var m :| Span(s.lo, m) in earlier && IsWidest(earlier, Span(m + 1, s.hi));
      assert m in endsAt[s.lo] && byStart[m+1] == s.hi;
    }
  }
}
