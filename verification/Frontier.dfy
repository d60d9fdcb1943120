/** The most-work genesis-anchored chain: what a chain is, and the walk that selects the best one. */
module Frontier {
  import opened Ranges

  /** The walk's answer: the height reached, the tip hash there, the cumulative work, the leaf count. */
  datatype End = End(hi: int, tip: string, work: int, leaves: int)

  const EMPTY: End := End(0, GENESIS_TIP, 0, 0)

  // ---------- chains: the specification ----------

  /** A row that can begin a chain. */
  predicate Starts(r: VRow) {
    r.Chainable() && r.GenesisAnchored()
  }

  /** Row b continues row a: the tip hash, the full boundary digest (S1/F1) and the height (H9) agree. */
  predicate Seams(a: VRow, b: VRow) {
    b.Chainable() && b.inTip == a.outTip && Str(a.outDigest) == Str(b.inDigest) && b.lo == a.hi + 1
  }

  ghost predicate IsChain(rows: seq<VRow>, p: seq<VRow>) {
    && (forall i :: 0 <= i < |p| ==> p[i] in rows)
    && (p != [] ==> Starts(p[0]))
    && (forall i :: 0 < i < |p| ==> Seams(p[i-1], p[i]))
  }

  function ChainWork(p: seq<VRow>): int {
    if p == [] then 0 else ChainWork(p[..|p|-1]) + p[|p|-1].Work()
  }

  function EndOf(p: seq<VRow>): End {
    if p == [] then EMPTY
    else var r := p[|p|-1]; End(r.hi, r.outTip, ChainWork(p), r.Leaves())
  }

  /** More work wins; equal work goes to the taller chain. */
  predicate NotBetter(a: End, b: End) {
    a.work < b.work || (a.work == b.work && a.hi <= b.hi)
  }

  /** e is realised by a chain of `rows`, and no chain of `rows` beats it. */
  ghost predicate IsFrontier(rows: seq<VRow>, e: End) {
    && (exists p :: IsChain(rows, p) && EndOf(p) == e)
    && (forall p :: IsChain(rows, p) ==> NotBetter(EndOf(p), e))
  }

  predicate SortedByLo(rows: seq<VRow>) {
    forall i, j :: 0 <= i < j < |rows| ==> rows[i].lo <= rows[j].lo
  }

  // ---------- chains: basic facts ----------

  lemma PrefixIsChain(rows: seq<VRow>, p: seq<VRow>)
    requires IsChain(rows, p) && p != []
    ensures IsChain(rows, p[..|p|-1])
  {
  }

  lemma ExtendChain(rows: seq<VRow>, p: seq<VRow>, r: VRow)
    requires IsChain(rows, p) && r in rows
    requires if p == [] then Starts(r) else Seams(p[|p|-1], r)
    ensures IsChain(rows, p + [r])
    ensures ChainWork(p + [r]) == ChainWork(p) + r.Work()
    ensures EndOf(p + [r]) == End(r.hi, r.outTip, ChainWork(p) + r.Work(), r.Leaves())
  {
    WorkAppend(p, r);
    LinksAppend(p, r);
    hide Seams, Starts, ChainWork;
    var q := p + [r];
    forall i | 0 <= i < |q| ensures q[i] in rows {
      assert q[i] == if i < |p| then p[i] else r;
    }
  }

  lemma LinksAppend(p: seq<VRow>, r: VRow)
    requires forall i :: 0 < i < |p| ==> Seams(p[i-1], p[i])
    requires p == [] || Seams(p[|p|-1], r)
    ensures var q := p + [r]; forall i :: 0 < i < |q| ==> Seams(q[i-1], q[i])
  {
    hide Seams;
    var q := p + [r];
    forall i | 0 < i < |q| ensures Seams(q[i-1], q[i]) {
      assert q[i-1] == p[i-1] && q[i] == if i < |p| then p[i] else r;
    }
  }

  lemma WorkAppend(p: seq<VRow>, r: VRow)
    ensures ChainWork(p + [r]) == ChainWork(p) + r.Work()
  {
    assert (p + [r])[..|p|] == p;
  }

  /** A chain covers every height from 1 to its end. */
  lemma {:induction false} ChainCovers(rows: seq<VRow>, p: seq<VRow>, h: int)
    requires IsChain(rows, p) && 1 <= h <= EndOf(p).hi
    ensures CoveredBy(rows, h)
    decreases |p|
  {
    var r := p[|p|-1];
    var k :| 0 <= k < |rows| && rows[k] == r;
    if r.lo <= h {
      assert rows[k].Covers(h);
    } else {
      PrefixIsChain(rows, p);
      ChainCovers(rows, p[..|p|-1], h);
    }
  }

  // ---------- chains and their work, from the stored columns ----------

  /** The sum of a nullable work column. */
  function StoredWork(column: seq<Option<int>>): int {
    if column == [] then 0
    else StoredWork(column[1..]) + match column[0] case Some(w) => w case None => 0
  }

  function WorkColumn(p: seq<VRow>): seq<Option<int>> {
    seq(|p|, i requires 0 <= i < |p| => p[i].work)
  }

  /** Row b is boundary-continuous with row a: the next height, the same tip hash, and a non-empty in-digest that is
      the other's out-digest. A NULL out-digest reads as the text None. */
  predicate Joined(a: VRow, b: VRow) {
    && b.lo == a.hi + 1 && b.inTip == a.outTip
    && match b.inDigest
       case None => false
       case Some(d) => d != "" && d == match a.outDigest case Some(e) => e case None => "None"
  }

  /** Rows of the table, from the genesis boundary on, each continuing the one before. */
  ghost predicate GenuineChain(rows: seq<VRow>, p: seq<VRow>) {
    && (forall i :: 0 <= i < |p| ==> p[i] in rows)
    && (p != [] ==> p[0].lo == 1 && p[0].inTip == GENESIS_TIP && p[0].inDigest.Some? && p[0].inDigest != Some(""))
    && (forall i :: 0 < i < |p| ==> Joined(p[i-1], p[i]))
  }

  lemma ChainsAreGenuine(rows: seq<VRow>, p: seq<VRow>)
    ensures IsChain(rows, p) <==> GenuineChain(rows, p)
  {
  }

  lemma {:induction false} StoredWorkAppend(column: seq<Option<int>>, w: Option<int>)
    ensures StoredWork(column + [w]) == StoredWork(column) + match w case Some(v) => v case None => 0
  {
    if column == [] {
      assert column + [w] == [w];
    } else {
      assert (column + [w])[1..] == column[1..] + [w];
      StoredWorkAppend(column[1..], w);
    }
  }

  lemma {:induction false} WorkIsStored(p: seq<VRow>)
    ensures ChainWork(p) == StoredWork(WorkColumn(p))
  {
    if p != [] {
      var init, last := p[..|p|-1], p[|p|-1];
      WorkIsStored(init);
      assert WorkColumn(p) == WorkColumn(init) + [last.work];
      StoredWorkAppend(WorkColumn(init), last.work);
    }
  }

  /** e is where a genuine chain ends, with that chain's stored work and its last row's leaf count. */
  ghost predicate EndsGenuine(p: seq<VRow>, e: End) {
    && e.work == StoredWork(WorkColumn(p))
    && if p == [] then e.hi == 0 && e.tip == GENESIS_TIP && e.leaves == 0
       else
         var last := p[|p|-1];
         e.hi == last.hi && e.tip == last.outTip && e.leaves == match last.leaves case Some(n) => n case None => 0
  }

  /** The answer, from the stored columns: a genuine chain realises it, and no genuine chain has more stored work, nor as
      much and a greater height. */
  ghost predicate Heaviest(rows: seq<VRow>, e: End) {
    && (exists p :: GenuineChain(rows, p) && EndsGenuine(p, e))
    && (forall p: seq<VRow> :: GenuineChain(rows, p) ==>
          var work := StoredWork(WorkColumn(p));
          work < e.work || (work == e.work && (if p == [] then 0 else p[|p|-1].hi) <= e.hi))
  }

  lemma FrontierIsHeaviest(rows: seq<VRow>, e: End)
    requires IsFrontier(rows, e)
    ensures Heaviest(rows, e)
  {
    hide Starts, Seams, Joined;
    var p :| IsChain(rows, p) && EndOf(p) == e;
    ChainsAreGenuine(rows, p);
    WorkIsStored(p);
    assert EndsGenuine(p, e);
    forall q: seq<VRow> | GenuineChain(rows, q)
      ensures var work := StoredWork(WorkColumn(q));
              work < e.work || (work == e.work && (if q == [] then 0 else q[|q|-1].hi) <= e.hi)
    {
      ChainsAreGenuine(rows, q);
      WorkIsStored(q);
      assert NotBetter(EndOf(q), e);
    }
  }

  // ---------- the walk ----------

  /** Row j can be reached from genesis, with w the greatest work of any chain that ends there. */
  ghost predicate BestAt(rows: seq<VRow>, j: nat, w: int)
    requires j < |rows|
  {
    && (exists p :: EndsAt(rows, p, j) && ChainWork(p) == w)
    && (forall p :: EndsAt(rows, p, j) ==> ChainWork(p) <= w)
  }

  ghost predicate EndsAt(rows: seq<VRow>, p: seq<VRow>, j: nat)
    requires j < |rows|
  {
    p != [] && IsChain(rows, p) && p[|p|-1] == rows[j]
  }

  /** The rows before i have their entry in `best` exactly when a chain reaches them. */
  ghost predicate BestUpTo(rows: seq<VRow>, best: map<nat, int>, i: nat) {
    && i <= |rows|
    && (forall j :: j in best ==> j < i && BestAt(rows, j, best[j]))
    && (forall j, p :: 0 <= j < i && EndsAt(rows, p, j) ==> j in best)
  }

  /** Among the chains ending in the first i rows (and the empty one), f is a best one, and it ends at
      the earliest row where a chain that good ends. */
  ghost predicate SelectedUpTo(rows: seq<VRow>, i: nat, f: End) {
    && i <= |rows|
    && NotBetter(EMPTY, f)
    && (forall j, p :: 0 <= j < i && EndsAt(rows, p, j) ==> NotBetter(EndOf(p), f))
    && (f == EMPTY || exists j, p :: 0 <= j < i && EndsAt(rows, p, j) && EndOf(p) == f && BeatsEarlier(rows, j, f))
  }

  /** Every chain that ends before row j is strictly worse than f. */
  ghost predicate BeatsEarlier(rows: seq<VRow>, j: nat, f: End)
    requires j <= |rows|
  {
    forall k, q :: 0 <= k < j && EndsAt(rows, q, k) ==> !NotBetter(f, EndOf(q))
  }

  /** by_out: the indices of the rows with each out-boundary tip, in row order. */
  ghost predicate IndexesOutTips(rows: seq<VRow>, byOut: map<string, seq<nat>>, n: nat) {
    && n <= |rows|
    && (forall t, k :: t in byOut && 0 <= k < |byOut[t]| ==> byOut[t][k] < n && rows[byOut[t][k]].outTip == t)
    && (forall j :: 0 <= j < n ==> rows[j].outTip in byOut && j in byOut[rows[j].outTip])
  }

  method IndexByOutTip(rows: seq<VRow>) returns (byOut: map<string, seq<nat>>)
    ensures IndexesOutTips(rows, byOut, |rows|)
  {
    byOut := map[];
    for i := 0 to |rows|
      invariant IndexesOutTips(rows, byOut, i)
    {
      var t := rows[i].outTip;
      var sofar := if t in byOut then byOut[t] else [];
      ghost var before := byOut;
      byOut := byOut[t := sofar + [i]];
      forall j | 0 <= j < i + 1
        ensures rows[j].outTip in byOut && j in byOut[rows[j].outTip]
      {
        if j == i {
          assert byOut[t][|sofar|] == i;
        } else if rows[j].outTip == t {
          var k :| 0 <= k < |before[t]| && before[t][k] == j;
          assert byOut[t][k] == j;
        }
      }
    }
  }

  /** The best predecessor's work, over the rows whose out-tip is row i's in-tip. */
  method BestPredecessor(rows: seq<VRow>, byOut: map<string, seq<nat>>, best: map<nat, int>, i: nat)
    returns (bestPred: Option<int>)
    requires WellFormedRows(rows) && SortedByLo(rows)
    requires i < |rows| && rows[i].Chainable()
    requires IndexesOutTips(rows, byOut, |rows|)
    requires forall j :: j in best ==> j < i
    ensures bestPred.Some? ==> exists j :: j in best && Seams(rows[j], rows[i]) && best[j] == bestPred.value
    ensures forall j :: j in best && Seams(rows[j], rows[i]) ==> bestPred.Some? && best[j] <= bestPred.value
  {
    bestPred := None;
    var preds := if rows[i].inTip in byOut then byOut[rows[i].inTip] else [];
    hide Seams, BestOf;
    NothingSeen(rows, best, i, preds);
    for k := 0 to |preds|
      invariant BestOf(rows, best, i, preds, k, bestPred)
    {
      var p := preds[k];
      SeamCheck(rows[p], rows[i]);
      BestStep(rows, best, i, preds, k, bestPred);
      if Str(rows[p].outDigest) == Str(rows[i].inDigest) && rows[p].hi + 1 == rows[i].lo && p in best {
        if bestPred.None? || best[p] > bestPred.value {
          bestPred := Some(best[p]);
        }
      }
    }
    AllSeamingSeen(rows, byOut, best, i, preds, bestPred);
  }

  /** The greatest entry among the first k rows of the list that seam onto row i. */
  ghost predicate BestOf(rows: seq<VRow>, best: map<nat, int>, i: nat, preds: seq<nat>, k: nat, bestPred: Option<int>)
    requires i < |rows| && k <= |preds| && (forall j :: j in best ==> j < i) && forall m :: 0 <= m < |preds| ==> preds[m] < |rows|
  {
    && (bestPred.Some? ==> exists j :: j in best && Seams(rows[j], rows[i]) && best[j] == bestPred.value)
    && (forall m :: 0 <= m < k && preds[m] in best && Seams(rows[preds[m]], rows[i]) ==>
          bestPred.Some? && best[preds[m]] <= bestPred.value)
  }

  lemma NothingSeen(rows: seq<VRow>, best: map<nat, int>, i: nat, preds: seq<nat>)
    requires i < |rows| && (forall j :: j in best ==> j < i) && forall m :: 0 <= m < |preds| ==> preds[m] < |rows|
    ensures BestOf(rows, best, i, preds, 0, None)
  {
  }

  lemma BestStep(rows: seq<VRow>, best: map<nat, int>, i: nat, preds: seq<nat>, k: nat, bestPred: Option<int>)
    requires i < |rows| && k < |preds| && (forall j :: j in best ==> j < i) && forall m :: 0 <= m < |preds| ==> preds[m] < |rows|
    requires BestOf(rows, best, i, preds, k, bestPred)
    ensures var p := preds[k];
            BestOf(rows, best, i, preds, k + 1,
                   if p in best && Seams(rows[p], rows[i]) && (bestPred.None? || best[p] > bestPred.value) then Some(best[p])
                   else bestPred)
  {
    hide Seams;
  }

  lemma AllSeamingSeen(rows: seq<VRow>, byOut: map<string, seq<nat>>, best: map<nat, int>, i: nat, preds: seq<nat>,
                       bestPred: Option<int>)
    requires i < |rows| && rows[i].Chainable() && IndexesOutTips(rows, byOut, |rows|) && forall j :: j in best ==> j < i
    requires preds == if rows[i].inTip in byOut then byOut[rows[i].inTip] else []
    requires BestOf(rows, best, i, preds, |preds|, bestPred)
    ensures bestPred.Some? ==> exists j :: j in best && Seams(rows[j], rows[i]) && best[j] == bestPred.value
    ensures forall j :: j in best && Seams(rows[j], rows[i]) ==> bestPred.Some? && best[j] <= bestPred.value
  {
    hide Seams;
    forall j | j in best && Seams(rows[j], rows[i]) ensures bestPred.Some? && best[j] <= bestPred.value {
      SeamCheck(rows[j], rows[i]);
      assert j in preds;
    }
  }

  lemma SeamCheck(a: VRow, b: VRow)
    requires b.Chainable()
    ensures Seams(a, b) <==> b.inTip == a.outTip && Str(a.outDigest) == Str(b.inDigest) && a.hi + 1 == b.lo
  {
  }

  /** What the walk computes for row i from the entries of the rows before it. */
  ghost predicate WalkValue(rows: seq<VRow>, best: map<nat, int>, i: nat, cw: Option<int>)
    requires i < |rows| && forall j :: j in best ==> j < i
  {
    var r := rows[i];
    if !r.Chainable() then cw.None?
    else if r.GenesisAnchored() then cw == Some(r.Work())
    else
      && (cw.Some? ==> exists j :: j in best && Seams(rows[j], r) && best[j] + r.Work() == cw.value)
      && (forall j :: j in best && Seams(rows[j], r) ==> cw.Some? && best[j] + r.Work() <= cw.value)
  }

  /** The value the walk computes for row i is the greatest work of any chain ending there. */
  lemma WalkStep(rows: seq<VRow>, best: map<nat, int>, i: nat, cw: Option<int>)
    requires WellFormedRows(rows) && SortedByLo(rows)
    requires i < |rows| && BestUpTo(rows, best, i) && WalkValue(rows, best, i, cw)
    ensures if cw.Some? then BestAt(rows, i, cw.value) else forall p :: !EndsAt(rows, p, i)
    ensures BestUpTo(rows, if cw.Some? then best[i := cw.value] else best, i + 1)
  {
    forall p | EndsAt(rows, p, i)
      ensures cw.Some? && ChainWork(p) <= cw.value
    {
      ChainEndingAt(rows, best, i, cw, p);
    }
    if cw.Some? {
      var p := ChainWithValue(rows, best, i, cw.value);
    }
  }

  lemma ChainWithValue(rows: seq<VRow>, best: map<nat, int>, i: nat, w: int) returns (p: seq<VRow>)
    requires i < |rows| && BestUpTo(rows, best, i) && WalkValue(rows, best, i, Some(w))
    ensures EndsAt(rows, p, i) && ChainWork(p) == w
  {
    var r := rows[i];
    if r.GenesisAnchored() {
      ExtendChain(rows, [], r);
      p := [] + [r];
    } else {
      var j :| j in best && Seams(rows[j], r) && best[j] + r.Work() == w;
      assert BestAt(rows, j, best[j]);
      var q :| EndsAt(rows, q, j) && ChainWork(q) == best[j];
      ExtendChain(rows, q, r);
      p := q + [r];
    }
  }

  lemma ChainEndingAt(rows: seq<VRow>, best: map<nat, int>, i: nat, cw: Option<int>, p: seq<VRow>)
    requires WellFormedRows(rows) && SortedByLo(rows)
    requires i < |rows| && BestUpTo(rows, best, i) && WalkValue(rows, best, i, cw)
    requires EndsAt(rows, p, i)
    ensures cw.Some? && ChainWork(p) <= cw.value
  {
    var r := rows[i];
    if |p| == 1 {
      assert ChainWork(p[..0]) == 0;
    } else {
      // The predecessor ends below r.lo, so it was walked before row i.
      var q := p[..|p|-1];
      PrefixIsChain(rows, p);
      var last := q[|q|-1];
      assert Seams(last, r);
      var k :| 0 <= k < |rows| && rows[k] == last;
      assert WellFormedRow(rows[k]);
      assert k < i;
      assert EndsAt(rows, q, k);
    }
  }

  /** One row of the walk: its greatest cumulative work, or None when no chain reaches it. */
  method RowValue(rows: seq<VRow>, byOut: map<string, seq<nat>>, best: map<nat, int>, i: nat)
    returns (cw: Option<int>)
    requires WellFormedRows(rows) && SortedByLo(rows)
    requires i < |rows| && IndexesOutTips(rows, byOut, |rows|)
    requires forall j :: j in best ==> j < i
    ensures WalkValue(rows, best, i, cw)
  {
    var r := rows[i];
    if !r.Chainable() {
      return None;
    }
    if r.GenesisAnchored() {
      return Some(r.Work());
    }
    var bestPred := BestPredecessor(rows, byOut, best, i);
    return if bestPred.Some? then Some(bestPred.value + r.Work()) else None;
  }

  /** `_frontier_chain`: the dynamic program over the rows in lo order. */
  method FrontierChain(rows: seq<VRow>) returns (f: End)
    requires WellFormedRows(rows) && SortedByLo(rows)
    ensures IsFrontier(rows, f)
    ensures Heaviest(rows, f)
    ensures SelectedUpTo(rows, |rows|, f)
  {
    var byOut := IndexByOutTip(rows);
    var best: map<nat, int> := map[];
    f := EMPTY;
    for i := 0 to |rows|
      invariant BestUpTo(rows, best, i)
      invariant SelectedUpTo(rows, i, f)
    {
      var r := rows[i];
      var cw := RowValue(rows, byOut, best, i);
      WalkStep(rows, best, i, cw);
      ghost var before := f;
      if cw.Some? {
        best := best[i := cw.value];
        if cw.value > f.work || (cw.value == f.work && r.hi > f.hi) {
          f := End(r.hi, r.outTip, cw.value, r.Leaves());
        }
      }
      SelectStep(rows, i, cw, before, f);
    }
    SelectedIsFrontier(rows, f);
    FrontierIsHeaviest(rows, f);
  }

  lemma SelectStep(rows: seq<VRow>, i: nat, cw: Option<int>, before: End, after: End)
    requires i < |rows| && SelectedUpTo(rows, i, before)
    requires if cw.Some? then BestAt(rows, i, cw.value) else forall p :: !EndsAt(rows, p, i)
    requires cw.None? ==> after == before
    requires cw.Some? ==>
               var e := End(rows[i].hi, rows[i].outTip, cw.value, rows[i].Leaves());
               after == if NotBetter(e, before) then before else e
    ensures SelectedUpTo(rows, i + 1, after)
  {
    if after != before {
      var p :| EndsAt(rows, p, i) && ChainWork(p) == cw.value;
      assert EndOf(p) == after;
      assert BeatsEarlier(rows, i, after);
    }
  }

  lemma SelectedIsFrontier(rows: seq<VRow>, f: End)
    requires SelectedUpTo(rows, |rows|, f)
    ensures IsFrontier(rows, f)
  {
    if f == EMPTY {
      assert IsChain(rows, []) && EndOf([]) == EMPTY;
    }
    forall p | IsChain(rows, p)
      ensures NotBetter(EndOf(p), f)
    {
      if p != [] {
        var j :| 0 <= j < |rows| && rows[j] == p[|p|-1];
        assert EndsAt(rows, p, j);
      }
    }
  }
}
