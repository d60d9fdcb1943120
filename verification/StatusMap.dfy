/** The block map: every block's furthest state, painted into a buffer, read out as runs, and counted by
    bisecting the runs. */
module StatusMap {
  import opened Ranges

  const PROVEN := 3
  const FOLDED := 4
  const ANCHORED := 5

  /** One row as the map sees it. */
  datatype Mark = Mark(span: Span, fold: bool)

  predicate MarkedAt(marks: seq<Mark>, fold: bool, h: int) {
    exists i :: 0 <= i < |marks| && marks[i].fold == fold && marks[i].span.Has(h)
  }

  /** A block's furthest state: anchored over folded over proven. `anchored` is the height of the genesis proof
      (0 when the map shows one prover's work). Block 0 has none. */
  ghost function Furthest(marks: seq<Mark>, anchored: int, h: int): int {
    if h < 1 then 0
    else if h <= anchored then ANCHORED
    else if MarkedAt(marks, true, h) then FOLDED
    else if MarkedAt(marks, false, h) then PROVEN
    else 0
  }

  /** What one mark says of its blocks, as the byte served: 3 proven, 4 folded. */
  function CodeOf(m: Mark): int {
    if m.fold then 4 else 3
  }

  /** A block's byte is the greatest code over it: 5 up to the genesis proof's height, above that the greatest of the marks
      over it, and 0 when there is none. */
  lemma GreatestCodeWins(marks: seq<Mark>, anchored: int, h: int)
    requires h >= 1
    ensures var code := Furthest(marks, anchored, h);
            && (h <= anchored <==> code == 5)
            && (forall m :: m in marks && m.span.lo <= h <= m.span.hi ==> CodeOf(m) <= code)
            && (code == 0 || code == 5 || exists m :: m in marks && m.span.lo <= h <= m.span.hi && CodeOf(m) == code)
  {
    forall m | m in marks && m.span.lo <= h <= m.span.hi ensures MarkedAt(marks, m.fold, h) {
      var i :| 0 <= i < |marks| && marks[i] == m;
      assert marks[i].span.Has(h);
    }
    forall fold | MarkedAt(marks, fold, h) ensures exists m :: m in marks && m.span.lo <= h <= m.span.hi && m.fold == fold {
      var i :| 0 <= i < |marks| && marks[i].fold == fold && marks[i].span.Has(h);
      assert marks[i] in marks;
    }
  }

  function MaxOf(a: int, b: int): int {
    if a > b then a else b
  }

  function Top(marks: seq<Mark>, tip: int, spineHi: int): (t: int)
    ensures tip <= t && spineHi <= t
    ensures forall i :: 0 <= i < |marks| ==> marks[i].span.hi <= t
    ensures t == tip || t == spineHi || exists i :: 0 <= i < |marks| && marks[i].span.hi == t
  {
    if marks == [] then MaxOf(tip, spineHi)
    else
      assert marks == marks[..|marks|-1] + [marks[|marks|-1]];
      MaxOf(Top(marks[..|marks|-1], tip, spineHi), marks[|marks|-1].span.hi)
  }

  /** Painting one stretch of the buffer with one code. */
  method Paint(st: array<int>, lo: int, hi: int, code: int)
    requires 0 <= lo && hi < st.Length
    modifies st
    ensures forall h :: 0 <= h < st.Length ==> st[h] == if lo <= h <= hi then code else old(st[h])
  {
    var h := lo;
    while h <= hi
      invariant lo <= h && (h <= hi + 1 || h == lo)
      invariant forall k :: 0 <= k < st.Length ==> st[k] == if lo <= k < h then code else old(st[k])
    {
      st[h] := code;
      h := h + 1;
    }
  }

  /** The painting half of `block_status`: proofs first, folds over them, the genesis proof over both. */
  method PaintStatus(marks: seq<Mark>, tip: int, spineHi: int, wholeBoard: bool) returns (st: array<int>)
    requires 0 <= tip && 0 <= spineHi
    ensures fresh(st) && st.Length == Top(marks, tip, spineHi) + 1
    ensures forall h :: 0 <= h < st.Length ==> st[h] == Furthest(marks, if wholeBoard then spineHi else 0, h)
  {
    st := new int[Top(marks, tip, spineHi) + 1](_ => 0);
    for i := 0 to |marks|
      invariant fresh(st) && st.Length == Top(marks, tip, spineHi) + 1
      invariant forall h :: 0 <= h < st.Length ==>
        st[h] == if h >= 1 && MarkedAt(marks[..i], false, h) then PROVEN else 0
    {
      MarkedAtStep(marks, false, i);
      if !marks[i].fold {
        Paint(st, MaxOf(1, marks[i].span.lo), marks[i].span.hi, PROVEN);
      }
    }
    assert marks[..|marks|] == marks;
    for i := 0 to |marks|
      invariant fresh(st) && st.Length == Top(marks, tip, spineHi) + 1
      invariant forall h :: 0 <= h < st.Length ==>
        st[h] == if h >= 1 && MarkedAt(marks[..i], true, h) then FOLDED
                 else if h >= 1 && MarkedAt(marks, false, h) then PROVEN else 0
    {
      MarkedAtStep(marks, true, i);
      if marks[i].fold {
        Paint(st, MaxOf(1, marks[i].span.lo), marks[i].span.hi, FOLDED);
      }
    }
    if wholeBoard && spineHi != 0 {
      Paint(st, 1, spineHi, ANCHORED);
    }
  }

  lemma MarkedAtStep(marks: seq<Mark>, fold: bool, i: nat)
    requires i < |marks|
    ensures forall h :: MarkedAt(marks[..i+1], fold, h)
              <==> MarkedAt(marks[..i], fold, h) || (marks[i].fold == fold && marks[i].span.Has(h))
  {
    assert marks[..i+1] == marks[..i] + [marks[i]];
    forall h
      ensures MarkedAt(marks[..i+1], fold, h)
              <==> MarkedAt(marks[..i], fold, h) || (marks[i].fold == fold && marks[i].span.Has(h))
    {
      if MarkedAt(marks[..i], fold, h) {
        var j :| 0 <= j < i && marks[..i][j].fold == fold && marks[..i][j].span.Has(h);
        assert marks[..i+1][j] == marks[..i][j];
      }
      if marks[i].fold == fold && marks[i].span.Has(h) {
        assert marks[..i+1][i] == marks[i];
      }
    }
  }

  // ---------- runs ----------

  datatype StatusRun = StatusRun(lo: int, hi: int, code: int)

  predicate InSomeRun(runs: seq<StatusRun>, h: int) {
    exists k :: 0 <= k < |runs| && runs[k].lo <= h <= runs[k].hi
  }

  predicate Ordered(runs: seq<StatusRun>) {
    && (forall k :: 0 <= k < |runs| ==> runs[k].lo <= runs[k].hi)
    && (forall k, m :: 0 <= k < m < |runs| ==> runs[k].hi < runs[m].lo)
  }

  /** A stretch of one non-zero code. */
  ghost predicate IsRun(st: seq<int>, r: StatusRun) {
    && 0 <= r.lo <= r.hi < |st| && r.code != 0
    && (forall h :: r.lo <= h <= r.hi ==> st[h] == r.code)
  }

  /** A run that the code continues on neither side. */
  ghost predicate IsMaximal(st: seq<int>, r: StatusRun) {
    && IsRun(st, r)
    && (r.lo > 0 ==> st[r.lo-1] != r.code)
    && (r.hi + 1 < |st| ==> st[r.hi+1] != r.code)
  }

  /** The runs are in order and disjoint, and together say what every block's code is. */
  ghost predicate Decodes(st: seq<int>, runs: seq<StatusRun>) {
    && Ordered(runs)
    && (forall k :: 0 <= k < |runs| ==> IsRun(st, runs[k]))
    && (forall h :: 0 <= h < |st| && st[h] != 0 ==> InSomeRun(runs, h))
  }

  ghost predicate AllMaximal(st: seq<int>, runs: seq<StatusRun>) {
    forall k :: 0 <= k < |runs| ==> IsMaximal(st, runs[k])
  }

  /** The maximal runs among the first i bytes, where no run is being cut. */
  ghost predicate RunsUpTo(st: seq<int>, runs: seq<StatusRun>, i: int) {
    && 0 <= i <= |st|
    && (0 < i < |st| ==> st[i] != st[i-1] || st[i] == 0)
    && (forall k :: 0 <= k < |runs| ==> IsMaximal(st, runs[k]) && runs[k].hi < i)
    && (forall k, m :: 0 <= k < m < |runs| ==> runs[k].hi < runs[m].lo)
    && (forall h :: 0 <= h < i && st[h] != 0 ==> InSomeRun(runs, h))
  }

  lemma NoRunHere(st: seq<int>, runs: seq<StatusRun>, i: int)
    requires RunsUpTo(st, runs, i) && i < |st| && st[i] == 0
    ensures RunsUpTo(st, runs, i + 1)
  {
  }

  lemma OneMoreRun(st: seq<int>, runs: seq<StatusRun>, i: int, j: int)
    requires RunsUpTo(st, runs, i) && i < j <= |st| && st[i] != 0 && (forall h :: i <= h < j ==> st[h] == st[i])
    requires j < |st| ==> st[j] != st[i]
    ensures RunsUpTo(st, runs + [StatusRun(i, j - 1, st[i])], j)
  {
    var run := StatusRun(i, j - 1, st[i]);
    var more := runs + [run];
    assert IsMaximal(st, run);
    hide IsMaximal;
    forall h | 0 <= h < j && st[h] != 0 ensures InSomeRun(more, h) {
      if h < i {
        var k :| 0 <= k < |runs| && runs[k].lo <= h <= runs[k].hi;
        assert more[k] == runs[k];
      } else {
        assert more[|runs|].lo <= h <= more[|runs|].hi;
      }
    }
  }

  lemma AllRuns(st: seq<int>, runs: seq<StatusRun>)
    requires RunsUpTo(st, runs, |st|)
    ensures Decodes(st, runs) && AllMaximal(st, runs)
  {
  }

  /** What re.finditer finds: the maximal repeats of a non-zero byte. */
  method FindRuns(st: seq<int>) returns (runs: seq<StatusRun>)
    ensures Decodes(st, runs) && AllMaximal(st, runs)
  {
    runs := [];
    var i := 0;
    assert RunsUpTo(st, runs, 0);
    hide RunsUpTo, Decodes, AllMaximal;
    while i < |st|
      invariant 0 <= i <= |st| && RunsUpTo(st, runs, i)
    {
      if st[i] == 0 {
        NoRunHere(st, runs, i);
        i := i + 1;
      } else {
        var j := i + 1;
        while j < |st| && st[j] == st[i]
          invariant i < j <= |st|
          invariant forall h :: i <= h < j ==> st[h] == st[i]
        {
          j := j + 1;
        }
        OneMoreRun(st, runs, i, j);
        runs := runs + [StatusRun(i, j - 1, st[i])];
        i := j;
      }
    }
    AllRuns(st, runs);
  }

  // ---------- counting by bisection ----------

  /** Blocks of lo..hi that are proven, folded or anchored. */
  function CountProven(st: seq<int>, lo: int, hi: int): int
    decreases hi - lo + 1
  {
    if lo > hi then 0
    else CountProven(st, lo, hi - 1) + (if 0 <= hi < |st| && st[hi] >= PROVEN then 1 else 0)
  }

  lemma {:induction false} CountSplit(st: seq<int>, lo: int, mid: int, hi: int)
    requires lo <= mid + 1 && mid <= hi
    ensures CountProven(st, lo, hi) == CountProven(st, lo, mid) + CountProven(st, mid + 1, hi)
    decreases hi - mid
  {
    if mid < hi {
      CountSplit(st, lo, mid, hi - 1);
    }
  }

  lemma {:induction false} CountUniform(st: seq<int>, lo: int, hi: int, proven: bool)
    requires lo <= hi + 1
    requires forall h :: lo <= h <= hi ==> (proven <==> 0 <= h < |st| && st[h] >= PROVEN)
    ensures CountProven(st, lo, hi) == if proven then hi - lo + 1 else 0
    decreases hi - lo + 1
  {
    if lo <= hi {
      CountUniform(st, lo, hi - 1, proven);
    }
  }

  /** bisect_left over the runs' upper ends. */
  method BisectLeft(runs: seq<StatusRun>, x: int) returns (i: nat)
    requires forall k, m :: 0 <= k < m < |runs| ==> runs[k].hi < runs[m].hi
    ensures i <= |runs|
    ensures forall k :: 0 <= k < i ==> runs[k].hi < x
    ensures forall k :: i <= k < |runs| ==> x <= runs[k].hi
  {
    i := 0;
    var hi := |runs|;
    while i < hi
      invariant i <= hi <= |runs|
      invariant forall k :: 0 <= k < i ==> runs[k].hi < x
      invariant forall k :: hi <= k < |runs| ==> x <= runs[k].hi
    {
      var mid := (i + hi) / 2;
      if runs[mid].hi < x {
        i := mid + 1;
      } else {
        hi := mid;
      }
    }
  }

  /** The last height of lo..hi that the runs before i account for. */
  function CountedTo(runs: seq<StatusRun>, i: nat, lo: int, hi: int): int
    requires i <= |runs|
  {
    if i == 0 || runs[i-1].hi < lo then lo - 1
    else if runs[i-1].hi > hi then hi
    else runs[i-1].hi
  }

  lemma GapHasNoRun(runs: seq<StatusRun>, i: nat, h: int)
    requires Ordered(runs) && i <= |runs|
    requires (i > 0 ==> runs[i-1].hi < h) && (i < |runs| ==> h < runs[i].lo)
    ensures !InSomeRun(runs, h)
  {
    forall k | 0 <= k < |runs| ensures !(runs[k].lo <= h <= runs[k].hi) {
      if k < i {
        assert k < i - 1 ==> runs[k].hi < runs[i-1].lo;
      } else {
        assert i < k ==> runs[i].hi < runs[k].lo;
      }
    }
  }

  /** Between one run and the next nothing is proven. */
  lemma GapIsEmpty(st: seq<int>, runs: seq<StatusRun>, i: nat, lo: int, hi: int)
    requires Decodes(st, runs) && i <= |runs| && lo <= hi + 1
    requires (i > 0 ==> runs[i-1].hi < lo) && (i < |runs| ==> hi < runs[i].lo)
    ensures CountProven(st, lo, hi) == 0
  {
    forall h | lo <= h <= hi ensures !(0 <= h < |st| && st[h] >= PROVEN) {
      GapHasNoRun(runs, i, h);
    }
    CountUniform(st, lo, hi, false);
  }

  lemma RunCounts(st: seq<int>, r: StatusRun, a: int, b: int)
    requires IsRun(st, r) && r.lo <= a <= b <= r.hi
    ensures CountProven(st, a, b) == if r.code >= PROVEN then b - a + 1 else 0
  {
    CountUniform(st, a, b, r.code >= PROVEN);
  }

  /** The stretch of run r inside lo..hi. */
  function Clip(r: StatusRun, lo: int, hi: int): Span {
    Span(MaxOf(r.lo, lo), if r.hi < hi then r.hi else hi)
  }

  lemma RunAdds(st: seq<int>, runs: seq<StatusRun>, i: nat, lo: int, hi: int)
    requires Decodes(st, runs)
    requires i < |runs| && lo <= hi && lo <= runs[i].hi && runs[i].lo <= hi
    ensures CountProven(st, lo, CountedTo(runs, i + 1, lo, hi))
         == CountProven(st, lo, CountedTo(runs, i, lo, hi))
            + if runs[i].code >= PROVEN then Clip(runs[i], lo, hi).Width() else 0
  {
    var clip, c := Clip(runs[i], lo, hi), CountedTo(runs, i, lo, hi);
    GapBefore(st, runs, i, lo, hi);
    RunCounts(st, runs[i], clip.lo, clip.hi);
    CountSplit(st, lo, c, clip.lo - 1);
    CountSplit(st, lo, clip.lo - 1, clip.hi);
    assert clip.hi == CountedTo(runs, i + 1, lo, hi);
  }

  lemma GapBefore(st: seq<int>, runs: seq<StatusRun>, i: nat, lo: int, hi: int)
    requires Decodes(st, runs)
    requires i < |runs| && lo <= hi && lo <= runs[i].hi && runs[i].lo <= hi
    ensures var c := CountedTo(runs, i, lo, hi);
            lo - 1 <= c < Clip(runs[i], lo, hi).lo && CountProven(st, c + 1, Clip(runs[i], lo, hi).lo - 1) == 0
  {
    var c := CountedTo(runs, i, lo, hi);
    assert i > 0 ==> runs[i-1].hi < runs[i].lo;
    if runs[i].lo > lo {
      GapIsEmpty(st, runs, i, c + 1, runs[i].lo - 1);
    }
  }

  lemma GapAfter(st: seq<int>, runs: seq<StatusRun>, i: nat, lo: int, hi: int)
    requires Decodes(st, runs) && i <= |runs| && lo <= hi && (i < |runs| ==> hi < runs[i].lo)
    ensures CountProven(st, lo, hi) == CountProven(st, lo, CountedTo(runs, i, lo, hi))
  {
    var c := CountedTo(runs, i, lo, hi);
    if c < hi {
      GapIsEmpty(st, runs, i, c + 1, hi);
    }
    CountSplit(st, lo, c, hi);
  }

  lemma HisIncrease(st: seq<int>, runs: seq<StatusRun>)
    requires Decodes(st, runs)
    ensures forall k, m :: 0 <= k < m < |runs| ==> runs[k].hi < runs[m].hi
  {
  }

  lemma NothingBelow(st: seq<int>, lo: int, hi: int)
    ensures hi < lo ==> CountProven(st, lo, hi) == 0
  {
  }

  /** `_proven_in`: bisecting the runs gives the same count as looking at every block of the span. */
  method ProvenIn(ghost st: seq<int>, runs: seq<StatusRun>, lo: int, hi: int) returns (n: int)
    requires Decodes(st, runs) && lo <= hi
    ensures n == CountProven(st, lo, hi)
  {
    HisIncrease(st, runs);
    hide Decodes, CountProven;
    var i := BisectLeft(runs, lo);
    n := 0;
    NothingBelow(st, lo, CountedTo(runs, i, lo, hi));
    while i < |runs| && runs[i].lo <= hi
      invariant 0 <= i <= |runs|
      invariant forall k :: i <= k < |runs| ==> lo <= runs[k].hi
      invariant n == CountProven(st, lo, CountedTo(runs, i, lo, hi))
    {
      var r := runs[i];
      RunAdds(st, runs, i, lo, hi);
      if r.code >= PROVEN {
        n := n + (if r.hi < hi then r.hi else hi) - MaxOf(r.lo, lo) + 1;
      }
      i := i + 1;
    }
    GapAfter(st, runs, i, lo, hi);
  }

  // ---------- the map against the rows ----------

  /** `block_status`: for some buffer holding every block's furthest state, its maximal runs. */
  method BlockStatus(marks: seq<Mark>, tip: int, spineHi: int, wholeBoard: bool)
    returns (runs: seq<StatusRun>, ghost st: seq<int>)
    requires 0 <= tip && 0 <= spineHi
    ensures Decodes(st, runs) && AllMaximal(st, runs)
    ensures Shows(st, marks, if wholeBoard then spineHi else 0)
  {
    var painted := PaintStatus(marks, tip, spineHi, wholeBoard);
    st := painted[..];
    runs := FindRuns(painted[..]);
  }

  /** st holds the furthest state of every block, and reaches past all of them. */
  ghost predicate Shows(st: seq<int>, marks: seq<Mark>, anchored: int) {
    && anchored < |st|
    && (forall i :: 0 <= i < |marks| ==> marks[i].span.hi < |st|)
    && (forall h :: 0 <= h < |st| ==> st[h] == Furthest(marks, anchored, h))
  }

  ghost function ShownIn(marks: seq<Mark>, anchored: int, lo: int, hi: int): (s: set<int>)
    ensures forall h :: h in s <==> lo <= h <= hi && Furthest(marks, anchored, h) != 0
    decreases hi - lo + 1
  {
    if lo > hi then {}
    else ShownIn(marks, anchored, lo, hi - 1) + (if Furthest(marks, anchored, hi) != 0 then {hi} else {})
  }

  /** What `_proven_in` returns over a board's runs is the number of blocks of the span that have a state. */
  lemma {:induction false} CountIsBlocks(st: seq<int>, marks: seq<Mark>, anchored: int, lo: int, hi: int)
    requires Shows(st, marks, anchored)
    ensures CountProven(st, lo, hi) == |ShownIn(marks, anchored, lo, hi)|
    decreases hi - lo + 1
  {
    if lo <= hi {
      CountIsBlocks(st, marks, anchored, lo, hi - 1);
    }
  }
}
