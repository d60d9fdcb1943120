/** Interval walks over the verified ranges, each proved against pointwise coverage. */
module Intervals {
  import opened Ranges
  import opened Sorting

  // ---------- heights ----------

  function Block(lo: int, hi: int): (s: set<int>)
    ensures forall h :: h in s <==> lo <= h <= hi
    ensures |s| == if lo <= hi then hi - lo + 1 else 0
    decreases hi - lo + 1
  {
    if lo > hi then {} else Block(lo, hi - 1) + {hi}
  }

  /** The distinct heights the spans cover. */
  function Heights(spans: seq<Span>): (s: set<int>)
    ensures forall h :: h in s <==> Covered(spans, h)
  {
    if spans == [] then {}
    else
      var init, last := spans[..|spans|-1], spans[|spans|-1];
      assert spans == init + [last];
      CoveredAppend(init, last);
      Heights(init) + Block(last.lo, last.hi)
  }

  lemma CoveredAppend(spans: seq<Span>, last: Span)
    ensures forall h :: Covered(spans + [last], h) <==> Covered(spans, h) || last.Has(h)
  {
    assert last in spans + [last];
    assert forall s :: s in spans + [last] <==> s in spans || s == last;
  }

  predicate Covered(spans: seq<Span>, h: int) {
    exists s :: s in spans && s.Has(h)
  }

  predicate WellFormed(spans: seq<Span>) {
    forall s :: s in spans ==> s.lo <= s.hi
  }

  predicate SortedLo(spans: seq<Span>) {
    forall i, j :: 0 <= i < j < |spans| ==> spans[i].lo <= spans[j].lo
  }

  lemma HeightsStep(spans: seq<Span>, i: nat)
    requires i < |spans|
    ensures Heights(spans[..i+1]) == Heights(spans[..i]) + Block(spans[i].lo, spans[i].hi)
  {
    assert spans[..i+1][..i] == spans[..i];
  }

  lemma SameHeights(a: seq<Span>, b: seq<Span>)
    requires forall s :: s in a <==> s in b
    ensures Heights(a) == Heights(b)
  {
    assert forall h :: Covered(a, h) <==> Covered(b, h);
  }

  // ---------- sorting ----------

  const BY_LO_HI: (Span, Span) -> bool := (a: Span, b: Span) => a.lo < b.lo || (a.lo == b.lo && a.hi <= b.hi)

  // ---------- counting distinct heights by merging ----------

  /** One step of the merge: a span either continues the current run or closes it. */
  predicate Detached(cur: Span, s: Span) {
    s.lo > cur.hi + 1
  }

  function Grown(cur: Span, s: Span): Span {
    Span(cur.lo, if s.hi > cur.hi then s.hi else cur.hi)
  }

  lemma GrownBlock(cur: Span, s: Span)
    requires cur.lo <= s.lo <= cur.hi + 1 && s.lo <= s.hi
    ensures Block(cur.lo, cur.hi) + Block(s.lo, s.hi) == Block(cur.lo, Grown(cur, s).hi)
  {
  }

  /** The heights walked so far are those of the closed runs and of the current run above them. */
  ghost predicate MergeState(walked: set<int>, closed: set<int>, cur: Span) {
    && cur.lo <= cur.hi
    && walked == closed + Block(cur.lo, cur.hi)
    && forall h :: h in closed ==> h < cur.lo
  }

  lemma MergeSize(walked: set<int>, closed: set<int>, cur: Span)
    requires MergeState(walked, closed, cur)
    ensures |walked| == |closed| + cur.Width()
  {
    assert closed !! Block(cur.lo, cur.hi);
  }

  lemma MergeNext(walked: set<int>, closed: set<int>, cur: Span, s: Span)
    requires MergeState(walked, closed, cur) && s.lo <= s.hi && cur.lo <= s.lo
    ensures Detached(cur, s) ==> MergeState(walked + Block(s.lo, s.hi), walked, s)
    ensures !Detached(cur, s) ==> MergeState(walked + Block(s.lo, s.hi), closed, Grown(cur, s))
  {
    if !Detached(cur, s) {
      GrownBlock(cur, s);
    }
  }

  lemma FirstRun(spans: seq<Span>)
    requires spans != [] && WellFormed(spans)
    ensures MergeState(Heights(spans[..1]), {}, spans[0])
  {
    HeightsStep(spans, 0);
  }

  /** The merge loop over spans in order: the number of distinct heights they cover. */
  method MergedCount(spans: seq<Span>) returns (total: int)
    requires WellFormed(spans) && SortedLo(spans)
    ensures total == |Heights(spans)|
  {
    hide Covered, MergeState;
    total := 0;
    if spans == [] {
      return;
    }
    var cur := spans[0];
    ghost var closed: set<int> := {};
    FirstRun(spans);
    for i := 1 to |spans|
      invariant total == |closed|
      invariant MergeState(Heights(spans[..i]), closed, cur)
      invariant cur.lo <= spans[i-1].lo
    {
      var s := spans[i];
      assert s in spans && cur.lo <= s.lo;
      HeightsStep(spans, i);
      MergeNext(Heights(spans[..i]), closed, cur, s);
      if Detached(cur, s) {
        MergeSize(Heights(spans[..i]), closed, cur);
        total := total + cur.Width();
        closed := Heights(spans[..i]);
        cur := s;
      } else {
        cur := Grown(cur, s);
      }
    }
    assert spans[..|spans|] == spans;
    MergeSize(Heights(spans), closed, cur);
    total := total + cur.Width();
  }

  /** `proven_count` (and `folded_count`, over the folds): the number of distinct heights covered. */
  method ProvenCount(rows: seq<Span>) returns (total: int)
    requires WellFormed(rows)
    ensures total == |Heights(rows)|
  {
    var spans := Sorted(BY_LO_HI, rows);
    SortedIsSorted(BY_LO_HI, rows);
    SameHeights(spans, rows);
    total := MergedCount(spans);
  }

  // ---------- the fold gate: greedy tiling ----------

  predicate Inside(s: Span, lo: int, hi: int) {
    lo <= s.lo && s.hi <= hi
  }

  /** Every height of lo..hi is covered by a verified range that lies inside lo..hi. */
  ghost predicate Tiled(rows: seq<Span>, lo: int, hi: int) {
    forall h :: lo <= h <= hi ==> TiledAt(rows, lo, hi, h)
  }

  ghost predicate TiledAt(rows: seq<Span>, lo: int, hi: int, h: int) {
    exists s :: s in rows && Inside(s, lo, hi) && s.Has(h)
  }

  /** The farthest end of a range that starts by reach+1 and passes reach. */
  method FarthestReach(rows: seq<Span>, reach: int) returns (next: Option<int>)
    ensures next.Some? ==> exists s :: s in rows && s.lo <= reach + 1 && s.hi == next.value && s.hi > reach
    ensures next.None? ==> forall s :: s in rows ==> !(s.lo <= reach + 1 && s.hi > reach)
  {
    next := None;
    for i := 0 to |rows|
      invariant next.Some? ==> exists s :: s in rows && s.lo <= reach + 1 && s.hi == next.value && s.hi > reach
      invariant next.None? ==> forall k :: 0 <= k < i ==> !(rows[k].lo <= reach + 1 && rows[k].hi > reach)
    {
      var s := rows[i];
      if s.lo <= reach + 1 && s.hi > reach && (next.None? || s.hi > next.value) {
        next := Some(s.hi);
      }
    }
  }

  function RowsInside(rows: seq<Span>, lo: int, hi: int): (r: seq<Span>)
    ensures forall s :: s in r <==> s in rows && Inside(s, lo, hi)
  {
    if rows == [] then []
    else
      assert rows == [rows[0]] + rows[1..];
      (if Inside(rows[0], lo, hi) then [rows[0]] else []) + RowsInside(rows[1..], lo, hi)
  }

  /** `_tiled_by_verified`: the greedy walk accepts exactly the spans with no uncovered height. */
  method TiledByVerified(rows: seq<Span>, lo: int, hi: int) returns (ok: bool)
    requires lo <= hi
    ensures ok <==> Tiled(rows, lo, hi)
  {
    var inside := RowsInside(rows, lo, hi);
    var reach := lo - 1;
    while reach < hi
      invariant lo - 1 <= reach <= hi
      invariant forall h :: lo <= h <= reach ==> TiledAt(rows, lo, hi, h)
    {
      var next := FarthestReach(inside, reach);
      if next.None? {
        assert !TiledAt(rows, lo, hi, reach + 1);
        return false;
      }
      var s :| s in inside && s.lo <= reach + 1 && s.hi == next.value && s.hi > reach;
      assert forall h :: reach < h <= next.value ==> s.Has(h);
      reach := next.value;
    }
    return true;
  }

  // ---------- the sponsorship sweep ----------

  ghost predicate AllCovered(rows: seq<Span>, lo: int, hi: int) {
    forall h :: lo <= h <= hi ==> Covered(rows, h)
  }

  /** The sweep of `_sponsor_mark_proven`, over the ranges in lo order: is the whole span covered? */
  method SweepCovered(rows: seq<Span>, lo: int, hi: int) returns (whole: bool)
    requires lo <= hi && SortedLo(rows)
    ensures whole <==> AllCovered(rows, lo, hi)
  {
    var need := lo;
    var i := 0;
    while i < |rows|
      invariant 0 <= i <= |rows| && lo <= need <= hi
      invariant forall h :: lo <= h < need ==> Covered(rows, h)
      invariant forall k :: 0 <= k < i ==> rows[k].hi < need || rows[k].lo > hi
    {
      var r := rows[i];
      if r.lo <= hi && r.hi >= lo {         // the query returns only ranges that overlap the span
        if r.lo > need {
          break;
        }
        CoversFrom(rows, r, need);
        need := if r.hi + 1 > need then r.hi + 1 else need;
        if need > hi {
          return true;
        }
      }
      i := i + 1;
    }
    assert !Covered(rows, need);
    return false;
  }

  lemma CoversFrom(rows: seq<Span>, r: Span, need: int)
    requires r in rows && r.lo <= need
    ensures forall h :: need <= h <= r.hi ==> Covered(rows, h)
  {
    assert forall h :: need <= h <= r.hi ==> r.Has(h);
  }
}
