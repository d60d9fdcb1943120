/** Who is credited with which blocks: proofs against folds, and the proved columns against the headline. */
module Credit {
  import opened Ranges
  import opened Intervals
  import opened Contributions
  import FoldSeam
  import FoldTree
  import Rotation

  // ---------- who is credited with what ----------

  /** Row i re-expresses blocks that two earlier rows, meeting inside it, had proved. */
  ghost predicate JoinsTwo(rows: seq<VRow>, i: nat)
    requires i < |rows|
  {
    exists a, b :: 0 <= a < i && 0 <= b < i && rows[a].lo == rows[i].lo && rows[a].hi + 1 == rows[b].lo && rows[b].hi == rows[i].hi
  }

  ghost predicate NodesOnly(rows: seq<VRow>) {
    FoldSeam.AllNodes(SpansOf(rows))
  }

  lemma JoinsTwoIs(rows: seq<VRow>, i: nat)
    requires i < |rows|
    ensures JoinsTwo(rows, i) <==> FoldSeam.JoinsEarlier(SpansOf(rows)[..i], SpansOf(rows)[i])
  {
    var earlier, s := SpansOf(rows)[..i], SpansOf(rows)[i];
    if JoinsTwo(rows, i) {
      var a, b :| 0 <= a < i && 0 <= b < i && rows[a].lo == rows[i].lo && rows[a].hi + 1 == rows[b].lo && rows[b].hi == rows[i].hi;
      assert earlier[a] == Span(s.lo, rows[a].hi) && earlier[b] == Span(rows[a].hi + 1, s.hi);
    }
    if FoldSeam.JoinsEarlier(earlier, s) {
      var m :| Span(s.lo, m) in earlier && Span(m + 1, s.hi) in earlier;
      var a :| 0 <= a < i && earlier[a] == Span(s.lo, m);
      var b :| 0 <= b < i && earlier[b] == Span(m + 1, s.hi);
    }
  }

  /** On rows that are tree nodes, a row counts as a proof exactly when it joins no two earlier rows. */
  lemma ProofUnlessJoin(rows: seq<VRow>, i: nat)
    requires WellFormedRows(rows) && NodesOnly(rows) && i < |rows|
    ensures FoldSeam.ClassedFold(SpansOf(rows), i) <==> JoinsTwo(rows, i)
  {
    var spans := SpansOf(rows);
    JoinsTwoIs(rows, i);
    forall j | 0 <= j < |spans| ensures spans[j].lo <= spans[j].hi {
      assert WellFormedRow(rows[j]);
    }
    FoldSeam.FoldClassExactOnNodes(spans, i);
    assert WellFormedRow(rows[i]);
    if JoinsTwo(rows, i) {
      var a, b :| 0 <= a < i && 0 <= b < i && rows[a].lo == rows[i].lo && rows[a].hi + 1 == rows[b].lo && rows[b].hi == rows[i].hi;
      assert WellFormedRow(rows[a]) && WellFormedRow(rows[b]);
    }
  }

  /** The blocks a key is credited with are exactly those of its rows that join no two earlier rows. */
  lemma CreditIsForProofs(rows: seq<VRow>, edges: Rotation.Edges, k: Key, h: int)
    requires WellFormedRows(rows) && NodesOnly(rows)
    ensures h in ProvedHeights(rows, edges, k) <==>
              exists i :: 0 <= i < |rows| && Rotation.Resolve(edges, rows[i].pubkey) == k && !JoinsTwo(rows, i) && rows[i].lo <= h <= rows[i].hi
  {
    hide Rotation.Resolve, JoinsTwo, FoldSeam.ClassedFold;
    forall i | 0 <= i < |rows| ensures FoldSeam.ClassedFold(SpansOf(rows), i) <==> JoinsTwo(rows, i) {
      ProofUnlessJoin(rows, i);
    }
    if h in ProvedHeights(rows, edges, k) {
      var i :| 0 <= i < |rows| && ProofBy(rows, edges, k, i) && rows[i].Covers(h);
    }
    if i :| 0 <= i < |rows| && Rotation.Resolve(edges, rows[i].pubkey) == k && !JoinsTwo(rows, i) && rows[i].lo <= h <= rows[i].hi {
      assert ProofBy(rows, edges, k, i) && rows[i].Covers(h);
    }
  }

  /** A key is credited with no block exactly when each of its rows joins two earlier ones: who only folds proves
      nothing. */
  lemma FolderProvesNothing(rows: seq<VRow>, edges: Rotation.Edges, k: Key)
    requires WellFormedRows(rows) && NodesOnly(rows)
    ensures ProvedHeights(rows, edges, k) == {} <==>
              forall i :: 0 <= i < |rows| && Rotation.Resolve(edges, rows[i].pubkey) == k ==> JoinsTwo(rows, i)
  {
    hide Rotation.Resolve, JoinsTwo, ProvedHeights;
    forall h ensures h in ProvedHeights(rows, edges, k) <==>
        exists i :: 0 <= i < |rows| && Rotation.Resolve(edges, rows[i].pubkey) == k && !JoinsTwo(rows, i) && rows[i].lo <= h <= rows[i].hi
    {
      CreditIsForProofs(rows, edges, k, h);
    }
    forall i | 0 <= i < |rows| && Rotation.Resolve(edges, rows[i].pubkey) == k && !JoinsTwo(rows, i)
      ensures rows[i].lo in ProvedHeights(rows, edges, k)
    {
      assert WellFormedRow(rows[i]);
    }
  }

  ghost predicate JoinBy(rows: seq<VRow>, edges: Rotation.Edges, k: Key, i: nat)
    requires i < |rows|
  {
    Rotation.Resolve(edges, rows[i].pubkey) == k && JoinsTwo(rows, i)
  }

  ghost function JoinsOf(rows: seq<VRow>, edges: Rotation.Edges, k: Key, n: nat): set<nat>
    requires n <= |rows|
  {
    set i: nat | i < n && JoinBy(rows, edges, k, i)
  }

  /** A key's folds are its rows that join two earlier ones. */
  lemma {:induction false} FoldsAreJoins(rows: seq<VRow>, edges: Rotation.Edges, k: Key, n: nat)
    requires WellFormedRows(rows) && NodesOnly(rows) && n <= |rows|
    ensures FoldsUpTo(rows, edges, k, n) == |JoinsOf(rows, edges, k, n)|
  {
    hide Rotation.Resolve, JoinsTwo, FoldSeam.ClassedFold;
    if n == 0 {
      assert JoinsOf(rows, edges, k, 0) == {};
    } else {
      FoldsAreJoins(rows, edges, k, n - 1);
      ProofUnlessJoin(rows, n - 1);
      NextJoin(rows, edges, k, n - 1);
    }
  }

  lemma NextJoin(rows: seq<VRow>, edges: Rotation.Edges, k: Key, n: nat)
    requires n < |rows|
    ensures |JoinsOf(rows, edges, k, n + 1)|
         == |JoinsOf(rows, edges, k, n)| + if JoinBy(rows, edges, k, n) then 1 else 0
  {
    hide JoinBy;
    var before := JoinsOf(rows, edges, k, n);
    if JoinBy(rows, edges, k, n) {
      assert JoinsOf(rows, edges, k, n + 1) == before + {n};
    } else {
      assert JoinsOf(rows, edges, k, n + 1) == before;
    }
  }

  function SpineSteps(spine: seq<Key>, edges: Rotation.Edges, k: Key, n: nat): set<nat>
    requires n <= |spine|
  {
    set i: nat | i < n && Rotation.Resolve(edges, spine[i]) == k
  }

  /** A key's anchored count is its spine steps. */
  lemma {:induction false} AnchorsAreSteps(spine: seq<Key>, edges: Rotation.Edges, k: Key, n: nat)
    requires n <= |spine|
    ensures AnchorsUpTo(spine, edges, k, n) == |SpineSteps(spine, edges, k, n)|
  {
    hide Rotation.Resolve;
    if n == 0 {
      assert SpineSteps(spine, edges, k, 0) == {};
    } else {
      AnchorsAreSteps(spine, edges, k, n - 1);
      NextStep(spine, edges, k, n - 1);
    }
  }

  lemma NextStep(spine: seq<Key>, edges: Rotation.Edges, k: Key, n: nat)
    requires n < |spine|
    ensures |SpineSteps(spine, edges, k, n + 1)|
         == |SpineSteps(spine, edges, k, n)| + if Rotation.Resolve(edges, spine[n]) == k then 1 else 0
  {
    hide Rotation.Resolve;
    var before := SpineSteps(spine, edges, k, n);
    if Rotation.Resolve(edges, spine[n]) == k {
      assert SpineSteps(spine, edges, k, n + 1) == before + {n};
    } else {
      assert SpineSteps(spine, edges, k, n + 1) == before;
    }
  }

  // ---------- exactly when the columns sum to the headline ----------

  lemma {:induction false} SumProvedTakes(totals: map<Key, Totals>, k: Key)
    requires k in totals
    ensures SumProved(totals) == totals[k].proved + SumProved(totals - {k})
    decreases |totals|
  {
    var j :| j in totals && SumProved(totals) == totals[j].proved + SumProved(totals - {j});
    if j != k {
      SumProvedTakes(totals - {j}, k);
      SumProvedTakes(totals - {k}, j);
      assert totals - {j} - {k} == totals - {k} - {j};
    }
  }

  /** No height is in two parts. */
  ghost predicate PartsDisjoint(parts: map<Key, set<int>>) {
    forall j, k :: j in parts && k in parts && j != k ==> parts[j] !! parts[k]
  }

  ghost predicate PartsCover(parts: map<Key, set<int>>, heights: set<int>) {
    forall h :: h in heights <==> InSome(parts, h)
  }

  /** Parts that together are the heights sum to their number if they are disjoint, and to more if they are not. */
  lemma {:induction false} PartsSum(heights: set<int>, totals: map<Key, Totals>, parts: map<Key, set<int>>)
    requires totals.Keys == parts.Keys && PartsCover(parts, heights)
    requires forall k :: k in totals ==> totals[k].proved == |parts[k]|
    ensures |heights| <= SumProved(totals)
    ensures |heights| == SumProved(totals) <==> PartsDisjoint(parts)
    decreases |totals|
  {
    if totals == map[] {
      assert forall h :: !InSome(parts, h);
      assert forall h :: h !in heights;
      assert heights == {};
    } else {
      var k :| k in totals;
      SumProvedTakes(totals, k);
      var others := heights * OtherHeights(parts, k, heights);
      OthersCovered(parts, k, heights);
      PartsSum(others, totals - {k}, parts - {k});
      DisjointSplits(parts, k, others);
      SizeOfUnion(others, parts[k]);
    }
  }

  lemma SizeOfUnion(a: set<int>, b: set<int>)
    ensures |a + b| == |a| + |b| - |b * a|
  {
    assert a + b == a + (b - a);
    assert b == (b - a) + (b * a);
  }

  ghost function OtherHeights(parts: map<Key, set<int>>, k: Key, heights: set<int>): set<int> {
    set h | h in heights && InSome(parts - {k}, h)
  }

  lemma OthersCovered(parts: map<Key, set<int>>, k: Key, heights: set<int>)
    requires k in parts && PartsCover(parts, heights)
    ensures PartsCover(parts - {k}, heights * OtherHeights(parts, k, heights))
    ensures heights == heights * OtherHeights(parts, k, heights) + parts[k]
  {
    forall h | h in parts[k] ensures h in heights {
      assert InSome(parts, h);
    }
    forall h | InSome(parts - {k}, h) ensures InSome(parts, h) {
      var j :| j in parts - {k} && h in (parts - {k})[j];
      assert j in parts && h in parts[j];
    }
    forall h | h in heights && h !in parts[k] ensures InSome(parts - {k}, h) {
      InSomeOther(parts, k, h);
    }
  }

  lemma DisjointSplits(parts: map<Key, set<int>>, k: Key, others: set<int>)
    requires k in parts && PartsCover(parts - {k}, others)
    ensures PartsDisjoint(parts) <==> PartsDisjoint(parts - {k}) && |parts[k] * others| == 0
  {
    if PartsDisjoint(parts) {
      forall h | h in others ensures h !in parts[k] {
        assert InSome(parts - {k}, h);
        var j :| j in parts - {k} && h in (parts - {k})[j];
        assert parts[j] !! parts[k];
      }
      assert parts[k] * others == {};
    }
    if PartsDisjoint(parts - {k}) && |parts[k] * others| == 0 {
      assert parts[k] * others == {};
      forall j | j in parts && j != k ensures parts[j] !! parts[k] {
        forall h | h in parts[j] ensures h !in parts[k] {
          assert j in parts - {k} && h in (parts - {k})[j];
          assert InSome(parts - {k}, h) && h in others;
          assert h !in parts[k] * others;
        }
      }
      forall i, j | i in parts && j in parts && i != j ensures parts[i] !! parts[j] {
        if i != k && j != k {
          assert (parts - {k})[i] !! (parts - {k})[j];
        }
      }
    }
  }

  /** Row i counts as a proof of h by key k: it joins no two earlier rows. */
  ghost predicate ProofRow(rows: seq<VRow>, edges: Rotation.Edges, k: Key, h: int, i: nat)
    requires i < |rows|
  {
    Rotation.Resolve(edges, rows[i].pubkey) == k && !JoinsTwo(rows, i) && rows[i].lo <= h <= rows[i].hi
  }

  ghost predicate ProvedBy(rows: seq<VRow>, edges: Rotation.Edges, k: Key, h: int) {
    exists i :: 0 <= i < |rows| && ProofRow(rows, edges, k, h, i)
  }

  lemma ProofIsBy(rows: seq<VRow>, edges: Rotation.Edges, i: nat, h: int)
    requires i < |rows| && !JoinsTwo(rows, i) && rows[i].lo <= h <= rows[i].hi
    ensures ProvedBy(rows, edges, Rotation.Resolve(edges, rows[i].pubkey), h)
  {
    assert ProofRow(rows, edges, Rotation.Resolve(edges, rows[i].pubkey), h, i);
  }

  lemma ProvedByCovers(rows: seq<VRow>, edges: Rotation.Edges, k: Key, h: int)
    requires ProvedBy(rows, edges, k, h)
    ensures h in Heights(SpansOf(rows))
  {
    var i :| 0 <= i < |rows| && ProofRow(rows, edges, k, h, i);
    assert SpansOf(rows)[i].Has(h) && SpansOf(rows)[i] in SpansOf(rows);
  }

  /** No block lies in rows of two heads that both join nothing. */
  ghost predicate OneProverEach(rows: seq<VRow>, edges: Rotation.Edges) {
    forall i, j :: 0 <= i < |rows| && 0 <= j < |rows| && !JoinsTwo(rows, i) && !JoinsTwo(rows, j)
                   && rows[i].lo <= rows[j].hi && rows[j].lo <= rows[i].hi ==>
      Rotation.Resolve(edges, rows[i].pubkey) == Rotation.Resolve(edges, rows[j].pubkey)
  }

  /** Every row of more than one block joins two earlier rows. */
  ghost predicate WideRowsAreJoins(rows: seq<VRow>) {
    forall i :: 0 <= i < |rows| && rows[i].lo < rows[i].hi ==> JoinsTwo(rows, i)
  }

  /** Under every covered block lies a row that joins nothing. */
  lemma {:induction false} CoveredHasProof(rows: seq<VRow>, i: nat, h: int) returns (j: nat)
    requires i < |rows| && rows[i].lo <= h <= rows[i].hi
    ensures j < |rows| && !JoinsTwo(rows, j) && rows[j].lo <= h <= rows[j].hi
    decreases i
  {
    j := i;
    if JoinsTwo(rows, i) {
      var a, b :| 0 <= a < i && 0 <= b < i && rows[a].lo == rows[i].lo && rows[a].hi + 1 == rows[b].lo && rows[b].hi == rows[i].hi;
      j := CoveredHasProof(rows, if h <= rows[a].hi then a else b, h);
    }
  }

  lemma CreditIsProvedBy(rows: seq<VRow>, edges: Rotation.Edges, k: Key, h: int)
    requires WellFormedRows(rows) && NodesOnly(rows)
    ensures h in ProvedHeights(rows, edges, k) <==> ProvedBy(rows, edges, k, h)
  {
    hide Rotation.Resolve, JoinsTwo, ProvedHeights, NodesOnly;
    CreditIsForProofs(rows, edges, k, h);
    forall i | 0 <= i < |rows|
      ensures ProofRow(rows, edges, k, h, i) <==>
                Rotation.Resolve(edges, rows[i].pubkey) == k && !JoinsTwo(rows, i) && rows[i].lo <= h <= rows[i].hi
    {
    }
  }

  /** On tree nodes, the proved columns sum to exactly the number of covered blocks if and only if no block was proved under
      two heads; otherwise they sum to more. */
  lemma ColumnsAreHeadlineExactly(rows: seq<VRow>, edges: Rotation.Edges, totals: map<Key, Totals>)
    requires WellFormedRows(rows) && NodesOnly(rows)
    requires forall k :: k in totals ==> totals[k].proved == |ProvedHeights(rows, edges, k)|
    requires forall k :: k !in totals ==> ProvedHeights(rows, edges, k) == {}
    ensures |Heights(SpansOf(rows))| <= SumProved(totals)
    ensures SumProved(totals) == |Heights(SpansOf(rows))| <==> OneProverEach(rows, edges)
  {
    hide Rotation.Resolve, ProvedHeights, NodesOnly, PartsCover, PartsDisjoint, OneProverEach, ProvedBy, Heights, SpansOf, SumProved;
    var parts := map k | k in totals :: ProvedHeights(rows, edges, k);
    var heights := Heights(SpansOf(rows));
    forall k, h ensures h in ProvedHeights(rows, edges, k) <==> ProvedBy(rows, edges, k, h) {
      CreditIsProvedBy(rows, edges, k, h);
    }
    CreditCovers(rows, edges, parts, heights);
    PartsSum(heights, totals, parts);
    DisjointIsOneProver(rows, edges, parts);
  }

  lemma CreditCovers(rows: seq<VRow>, edges: Rotation.Edges, parts: map<Key, set<int>>, heights: set<int>)
    requires heights == Heights(SpansOf(rows))
    requires forall k, h :: k !in parts ==> !ProvedBy(rows, edges, k, h)
    requires forall k, h :: k in parts ==> (h in parts[k] <==> ProvedBy(rows, edges, k, h))
    ensures PartsCover(parts, heights)
  {
    hide Rotation.Resolve, JoinsTwo, ProvedBy;
    var spans := SpansOf(rows);
    forall h | h in heights ensures InSome(parts, h) {
      var s :| s in spans && s.Has(h);
      var n :| 0 <= n < |rows| && spans[n] == s;
      var i := CoveredHasProof(rows, n, h);
      var k := Rotation.Resolve(edges, rows[i].pubkey);
      ProofIsBy(rows, edges, i, h);
      assert k in parts && h in parts[k];
    }
    forall h | InSome(parts, h) ensures h in heights {
      var k :| k in parts && h in parts[k];
      assert ProvedBy(rows, edges, k, h);
      ProvedByCovers(rows, edges, k, h);
    }
  }

  lemma DisjointIsOneProver(rows: seq<VRow>, edges: Rotation.Edges, parts: map<Key, set<int>>)
    requires WellFormedRows(rows)
    requires forall k, h :: k !in parts ==> !ProvedBy(rows, edges, k, h)
    requires forall k, h :: k in parts ==> (h in parts[k] <==> ProvedBy(rows, edges, k, h))
    ensures PartsDisjoint(parts) <==> OneProverEach(rows, edges)
  {
    hide Rotation.Resolve, JoinsTwo;
    if PartsDisjoint(parts) {
      forall i, j | 0 <= i < |rows| && 0 <= j < |rows| && !JoinsTwo(rows, i) && !JoinsTwo(rows, j)
                    && rows[i].lo <= rows[j].hi && rows[j].lo <= rows[i].hi
        ensures Rotation.Resolve(edges, rows[i].pubkey) == Rotation.Resolve(edges, rows[j].pubkey)
      {
        var a, b := Rotation.Resolve(edges, rows[i].pubkey), Rotation.Resolve(edges, rows[j].pubkey);
        var h := if rows[i].lo >= rows[j].lo then rows[i].lo else rows[j].lo;
        assert WellFormedRow(rows[i]) && WellFormedRow(rows[j]);
        ProofIsBy(rows, edges, i, h);
        ProofIsBy(rows, edges, j, h);
        assert a in parts && b in parts && h in parts[a] && h in parts[b];
      }
    }
    if OneProverEach(rows, edges) {
      forall a, b | a in parts && b in parts && a != b ensures parts[a] !! parts[b] {
        forall h | h in parts[a] ensures h !in parts[b] {
          var i :| 0 <= i < |rows| && ProofRow(rows, edges, a, h, i);
          forall j | 0 <= j < |rows| ensures !ProofRow(rows, edges, b, h, j) {
          }
          assert !ProvedBy(rows, edges, b, h);
        }
      }
    }
  }

  const WIDE := [Row(1, 1, 7), Row(2, 2, 7), Row(3, 3, 7), Row(4, 4, 7), Row(1, 4, 8)]

  function Row(lo: int, hi: int, pk: Key): VRow {
    VRow(lo, hi, "", "", None, None, None, None, pk, 0.0)
  }

  /** A wide node submitted over single blocks, without its halves, passes the gate but joins no two rows: its submitter is
      credited with all of its blocks. */
  lemma WideWithoutHalvesIsCredited()
    ensures NodesOnly(WIDE) && Tiled(SpansOf(WIDE)[..4], 1, 4) && ProvedHeights(WIDE, map[], 8) == {1, 2, 3, 4}
  {
    hide NodesOnly, ProvedHeights, JoinsTwo, Tiled;
    WideRows();
    assert Rotation.Resolve(map[], 8) == 8 && Rotation.Resolve(map[], 7) == 7;
    hide Rotation.Resolve;
    forall h ensures h in ProvedHeights(WIDE, map[], 8) <==> h in {1, 2, 3, 4} {
      CreditIsForProofs(WIDE, map[], 8, h);
    }
  }

  lemma WideRows()
    ensures WellFormedRows(WIDE) && NodesOnly(WIDE) && Tiled(SpansOf(WIDE)[..4], 1, 4) && !JoinsTwo(WIDE, 4)
    ensures |WIDE| == 5 && WIDE[4] == Row(1, 4, 8) && forall i :: 0 <= i < 4 ==> WIDE[i] == Row(i + 1, i + 1, 7)
  {
    hide NodesOnly, Tiled;
    assert WIDE[0] == Row(1, 1, 7) && WIDE[1] == Row(2, 2, 7) && WIDE[2] == Row(3, 3, 7) && WIDE[3] == Row(4, 4, 7);
    WideNodes();
    assert forall i :: 0 <= i < 4 ==> SpansOf(WIDE)[..4][i] == Span(WIDE[i].lo, WIDE[i].hi);
    WideIsTiled(SpansOf(WIDE)[..4]);
  }

  lemma WideNodes()
    ensures NodesOnly(WIDE)
  {
    FoldSeam.SinglesAndFourAreNodes();
    hide FoldTree.TreeNode;
    var spans := SpansOf(WIDE);
    forall i | 0 <= i < |spans| ensures FoldTree.TreeNode(spans[i]) && 1 <= spans[i].lo {
      assert i == 0 || i == 1 || i == 2 || i == 3 || i == 4;
    }
  }

  lemma WideIsTiled(spans: seq<Span>)
    requires |spans| == 4 && forall i :: 0 <= i < 4 ==> spans[i] == Span(i + 1, i + 1)
    ensures Tiled(spans, 1, 4)
  {
    forall h | 1 <= h <= 4 ensures TiledAt(spans, 1, 4, h) {
      assert spans[h-1] in spans && Inside(spans[h-1], 1, 4) && spans[h-1].Has(h);
    }
  }
}
