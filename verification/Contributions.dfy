/** Per-contributor totals: blocks proved, ranges folded, spine steps anchored, under the key's current head. */
module Contributions {
  import opened Ranges
  import opened Sorting
  import opened Intervals
  import FoldSeam
  import Rotation

  datatype Item = Item(pk: Key, span: Span)

  datatype Totals = Totals(proved: int, folded: int, anchored: int)

  const BY_KEY: (Item, Item) -> bool :=
    (a: Item, b: Item) => a.pk < b.pk || (a.pk == b.pk && BY_LO_HI(a.span, b.span))

  /** The distinct heights of one key's items, among the first i. */
  function KeyHeights(items: seq<Item>, i: nat, pk: Key): set<int>
    requires i <= |items|
  {
    if i == 0 then {}
    else
      KeyHeights(items, i - 1, pk)
      + (if items[i-1].pk == pk then Block(items[i-1].span.lo, items[i-1].span.hi) else {})
  }

  predicate HasKey(items: seq<Item>, i: nat, pk: Key)
    requires i <= |items|
  {
    exists j :: 0 <= j < i && items[j].pk == pk
  }

  function GetOr0(m: map<Key, int>, k: Key): int {
    if k in m then m[k] else 0
  }

  // ---------- the merge over one ordered sequence ----------

  predicate WellFormedItems(items: seq<Item>) {
    forall i :: 0 <= i < |items| ==> items[i].span.lo <= items[i].span.hi
  }

  ghost predicate Finished(items: seq<Item>, i: nat, out: map<Key, int>, k: Key)
    requires i <= |items|
  {
    && (k in out <==> HasKey(items, i, k))
    && (k in out ==> out[k] == |KeyHeights(items, i, k)|)
  }

  ghost predicate OthersFinished(items: seq<Item>, i: nat, out: map<Key, int>, pk: Key)
    requires i <= |items|
  {
    forall k {:trigger Finished(items, i, out, k)} :: k != pk ==> Finished(items, i, out, k)
  }

  /** What the merge holds after i items: every key but the current one is finished. */
  ghost predicate KeyedMerge(items: seq<Item>, i: nat, out: map<Key, int>, pk: Key, cur: Span, closed: set<int>) {
    && 0 < i <= |items| && pk == items[i-1].pk && cur.lo <= items[i-1].span.lo
    && MergeState(KeyHeights(items, i, pk), closed, cur)
    && GetOr0(out, pk) == |closed|
    && OthersFinished(items, i, out, pk)
  }

  /** Closing the current run adds its width to the key's total. */
  function Close(out: map<Key, int>, pk: Key, cur: Span): map<Key, int> {
    out[pk := GetOr0(out, pk) + cur.Width()]
  }

  lemma OtherKeyStays(items: seq<Item>, i: nat, out: map<Key, int>, out': map<Key, int>, k: Key)
    requires i < |items| && items[i].pk != k && Finished(items, i, out, k)
    requires (k in out <==> k in out') && GetOr0(out, k) == GetOr0(out', k)
    ensures Finished(items, i + 1, out', k)
  {
  }

  lemma CloseFinishes(items: seq<Item>, i: nat, out: map<Key, int>, pk: Key, cur: Span, closed: set<int>)
    requires KeyedMerge(items, i, out, pk, cur, closed)
    ensures forall k {:trigger Finished(items, i, Close(out, pk, cur), k)} :: Finished(items, i, Close(out, pk, cur), k)
  {
    MergeSize(KeyHeights(items, i, pk), closed, cur);
    assert items[i-1].pk == pk && HasKey(items, i, pk);
    forall k ensures Finished(items, i, Close(out, pk, cur), k) {
      if k != pk {
        assert Finished(items, i, out, k);
      }
    }
  }

  lemma SameKeyStep(items: seq<Item>, i: nat, out: map<Key, int>, cur: Span, closed: set<int>)
    requires i < |items| && SortedBy(BY_KEY, items) && WellFormedItems(items)
    requires KeyedMerge(items, i, out, items[i].pk, cur, closed)
    ensures var s, pk := items[i].span, items[i].pk;
            if Detached(cur, s) then
              KeyedMerge(items, i + 1, Close(out, pk, cur), pk, s, KeyHeights(items, i, pk))
            else KeyedMerge(items, i + 1, out, pk, Grown(cur, s), closed)
  {
    hide OthersFinished, MergeState;
    var s, pk := items[i].span, items[i].pk;
    assert BY_KEY(items[i-1], items[i]);
    MergeNext(KeyHeights(items, i, pk), closed, cur, s);
    MergeSize(KeyHeights(items, i, pk), closed, cur);
    var out' := if Detached(cur, s) then Close(out, pk, cur) else out;
    OthersStay(items, i, out, out', pk);
  }

  lemma OthersStay(items: seq<Item>, i: nat, out: map<Key, int>, out': map<Key, int>, pk: Key)
    requires i < |items| && items[i].pk == pk && OthersFinished(items, i, out, pk)
    requires forall k :: k != pk ==> (k in out <==> k in out') && (k in out ==> out[k] == out'[k])
    ensures OthersFinished(items, i + 1, out', pk)
  {
    forall k {:trigger Finished(items, i + 1, out', k)} | k != pk ensures Finished(items, i + 1, out', k) {
      assert Finished(items, i, out, k);
      OtherKeyStays(items, i, out, out', k);
    }
  }

  lemma KeyIsNew(items: seq<Item>, i: nat)
    requires 0 < i < |items| && SortedBy(BY_KEY, items) && items[i].pk != items[i-1].pk
    ensures !HasKey(items, i, items[i].pk) && KeyHeights(items, i, items[i].pk) == {}
  {
    forall j | 0 <= j < i ensures items[j].pk != items[i].pk {
      assert BY_KEY(items[i-1], items[i]);
      assert j < i - 1 ==> BY_KEY(items[j], items[i-1]);
    }
    NoHeights(items, i, items[i].pk);
  }

  lemma {:induction false} NoHeights(items: seq<Item>, i: nat, pk: Key)
    requires i <= |items| && !HasKey(items, i, pk)
    ensures KeyHeights(items, i, pk) == {}
  {
    if i > 0 {
      assert items[i-1].pk != pk;
      NoHeights(items, i - 1, pk);
    }
  }

  lemma NewKeyStep(items: seq<Item>, i: nat, out: map<Key, int>, pk: Key, cur: Span, closed: set<int>)
    requires i < |items| && SortedBy(BY_KEY, items) && WellFormedItems(items)
    requires KeyedMerge(items, i, out, pk, cur, closed) && items[i].pk != pk
    ensures KeyedMerge(items, i + 1, Close(out, pk, cur), items[i].pk, items[i].span, {})
  {
    var next, out' := items[i].pk, Close(out, pk, cur);
    CloseFinishes(items, i, out, pk, cur, closed);
    KeyIsNew(items, i);
    assert Finished(items, i, out', next);
    OthersStay(items, i, out', out', next);
  }

  /** The loop of `contributions_by_pubkey` over the items ordered by (key, lo, hi). */
  method MergeByKey(items: seq<Item>) returns (out: map<Key, int>)
    requires SortedBy(BY_KEY, items) && WellFormedItems(items)
    ensures forall k :: k in out <==> HasKey(items, |items|, k)
    ensures forall k :: k in out ==> out[k] == |KeyHeights(items, |items|, k)|
  {
    out := map[];
    if items == [] {
      return;
    }
    var curPk, cur := items[0].pk, items[0].span;
    ghost var closed: set<int> := {};
    FirstItem(items);
    for i := 1 to |items|
      invariant KeyedMerge(items, i, out, curPk, cur, closed)
    {
      var pk, s := items[i].pk, items[i].span;
      if pk != curPk {
        NewKeyStep(items, i, out, curPk, cur, closed);
        out := Close(out, curPk, cur);
        curPk, cur, closed := pk, s, {};
      } else {
        SameKeyStep(items, i, out, cur, closed);
        if Detached(cur, s) {
          out := Close(out, curPk, cur);
          closed := KeyHeights(items, i, pk);
          cur := s;
        } else {
          cur := Grown(cur, s);
        }
      }
    }
    CloseFinishes(items, |items|, out, curPk, cur, closed);
    out := Close(out, curPk, cur);
    assert forall k {:trigger Finished(items, |items|, out, k)} :: Finished(items, |items|, out, k);
    forall k ensures k in out <==> HasKey(items, |items|, k) {
      assert Finished(items, |items|, out, k);
    }
    forall k | k in out ensures out[k] == |KeyHeights(items, |items|, k)| {
      assert Finished(items, |items|, out, k);
    }
  }

  lemma FirstItem(items: seq<Item>)
    requires items != [] && WellFormedItems(items)
    ensures KeyedMerge(items, 1, map[], items[0].pk, items[0].span, {})
  {
    assert KeyHeights(items, 0, items[0].pk) == {};
    assert OthersFinished(items, 1, map[], items[0].pk);
  }

  // ---------- the whole report ----------

  function SpansOf(rows: seq<VRow>): (r: seq<Span>)
    ensures |r| == |rows| && forall i :: 0 <= i < |rows| ==> r[i] == Span(rows[i].lo, rows[i].hi)
  {
    seq(|rows|, i requires 0 <= i < |rows| => Span(rows[i].lo, rows[i].hi))
  }

  /** Row i is a proof, not a fold, and its key's head is pk. */
  ghost predicate ProofBy(rows: seq<VRow>, edges: Rotation.Edges, pk: Key, i: nat)
    requires i < |rows|
  {
    !FoldSeam.ClassedFold(SpansOf(rows), i) && Rotation.Resolve(edges, rows[i].pubkey) == pk
  }

  ghost predicate FoldBy(rows: seq<VRow>, edges: Rotation.Edges, pk: Key, i: nat)
    requires i < |rows|
  {
    FoldSeam.ClassedFold(SpansOf(rows), i) && Rotation.Resolve(edges, rows[i].pubkey) == pk
  }

  /** One of the first n rows is a proof of height h under pk. */
  ghost predicate Proves(rows: seq<VRow>, edges: Rotation.Edges, pk: Key, n: nat, h: int)
    requires n <= |rows|
  {
    exists i :: 0 <= i < n && ProofBy(rows, edges, pk, i) && rows[i].Covers(h)
  }

  /** The distinct heights of the proofs whose key resolves to pk. */
  ghost function ProvedHeights(rows: seq<VRow>, edges: Rotation.Edges, pk: Key): (s: set<int>)
    ensures forall h :: h in s <==> Proves(rows, edges, pk, |rows|, h)
  {
    ProvedHeightsUpToAre(rows, edges, pk, |rows|);
    ProvedHeightsUpTo(rows, edges, pk, |rows|)
  }

  ghost function ProvedHeightsUpTo(rows: seq<VRow>, edges: Rotation.Edges, pk: Key, n: nat): set<int>
    requires n <= |rows|
  {
    if n == 0 then {}
    else
      ProvedHeightsUpTo(rows, edges, pk, n - 1)
      + (if ProofBy(rows, edges, pk, n - 1) then Block(rows[n-1].lo, rows[n-1].hi) else {})
  }

  lemma {:induction false} ProvedHeightsUpToAre(rows: seq<VRow>, edges: Rotation.Edges, pk: Key, n: nat)
    requires n <= |rows|
    ensures forall h :: h in ProvedHeightsUpTo(rows, edges, pk, n) <==> Proves(rows, edges, pk, n, h)
  {
    if n > 0 {
      hide ProofBy, Proves;
      ProvedHeightsUpToAre(rows, edges, pk, n - 1);
      forall h ensures h in ProvedHeightsUpTo(rows, edges, pk, n) <==> Proves(rows, edges, pk, n, h) {
        ProvesStep(rows, edges, pk, n, h);
      }
    }
  }

  lemma ProvesStep(rows: seq<VRow>, edges: Rotation.Edges, pk: Key, n: nat, h: int)
    requires 0 < n <= |rows|
    ensures Proves(rows, edges, pk, n, h)
            <==> Proves(rows, edges, pk, n - 1, h) || (ProofBy(rows, edges, pk, n - 1) && rows[n-1].Covers(h))
  {
    hide ProofBy;
    if Proves(rows, edges, pk, n, h) {
      var i :| 0 <= i < n && ProofBy(rows, edges, pk, i) && rows[i].Covers(h);
      assert i < n - 1 ==> Proves(rows, edges, pk, n - 1, h);
    }
  }

  ghost function FoldsUpTo(rows: seq<VRow>, edges: Rotation.Edges, pk: Key, n: nat): nat
    requires n <= |rows|
  {
    if n == 0 then 0
    else FoldsUpTo(rows, edges, pk, n - 1) + (if FoldBy(rows, edges, pk, n - 1) then 1 else 0)
  }

  function AnchorsUpTo(spine: seq<Key>, edges: Rotation.Edges, pk: Key, n: nat): nat
    requires n <= |spine|
  {
    if n == 0 then 0
    else AnchorsUpTo(spine, edges, pk, n - 1) + (if Rotation.Resolve(edges, spine[n-1]) == pk then 1 else 0)
  }

  /** Splits the rows, in submission order, into fold counts and proof items under resolved keys. */
  method Split(rows: seq<VRow>, edges: Rotation.Edges) returns (folded: map<Key, int>, items: seq<Item>)
    requires WellFormedRows(rows)
    ensures forall k :: GetOr0(folded, k) == FoldsUpTo(rows, edges, k, |rows|)
    ensures WellFormedItems(items)
    ensures forall x :: x in items <==> exists i :: 0 <= i < |rows| && ItemAt(rows, edges, i, x)
  {
    hide FoldSeam.ClassedFold, Rotation.Resolve;
    var isFold := FoldSeam.FoldSpans(SpansOf(rows));
    folded, items := map[], [];
    for i := 0 to |rows|
      invariant forall k :: GetOr0(folded, k) == FoldsUpTo(rows, edges, k, i)
      invariant WellFormedItems(items)
      invariant forall x :: x in items <==> exists j :: 0 <= j < i && ItemAt(rows, edges, j, x)
    {
      var pk := Rotation.ResolvePubkey(edges, rows[i].pubkey);
      if isFold[i] {
        folded := folded[pk := GetOr0(folded, pk) + 1];
      } else {
        var x := Item(pk, Span(rows[i].lo, rows[i].hi));
        assert ItemAt(rows, edges, i, x);
        items := items + [x];
      }
    }
  }

  ghost predicate ItemAt(rows: seq<VRow>, edges: Rotation.Edges, i: nat, x: Item)
    requires i < |rows|
  {
    ProofBy(rows, edges, x.pk, i) && x.span == Span(rows[i].lo, rows[i].hi)
  }

  lemma {:induction false} KeyHeightsAre(items: seq<Item>, i: nat, pk: Key)
    requires i <= |items|
    ensures forall h :: h in KeyHeights(items, i, pk) <==> exists j :: 0 <= j < i && items[j].pk == pk && items[j].span.Has(h)
  {
    if i > 0 {
      KeyHeightsAre(items, i - 1, pk);
    }
  }

  lemma ItemHeights(rows: seq<VRow>, edges: Rotation.Edges, items: seq<Item>, pk: Key)
    requires forall x :: x in items <==> exists i :: 0 <= i < |rows| && ItemAt(rows, edges, i, x)
    ensures KeyHeights(items, |items|, pk) == ProvedHeights(rows, edges, pk)
  {
    KeyHeightsAre(items, |items|, pk);
    forall h ensures h in KeyHeights(items, |items|, pk) <==> h in ProvedHeights(rows, edges, pk) {
      if h in KeyHeights(items, |items|, pk) {
        var j :| 0 <= j < |items| && items[j].pk == pk && items[j].span.Has(h);
        assert items[j] in items;
      }
      if h in ProvedHeights(rows, edges, pk) {
        var i :| 0 <= i < |rows| && ProofBy(rows, edges, pk, i) && rows[i].Covers(h);
        var x := Item(pk, Span(rows[i].lo, rows[i].hi));
        assert ItemAt(rows, edges, i, x);
        assert x in items;
        var j :| 0 <= j < |items| && items[j] == x;
        assert items[j].span.Has(h);
      }
    }
  }

  /** `contributions_by_pubkey`: `rows` in the order they were verified, `spine` the keys of the spine steps. */
  method ContributionsByPubkey(rows: seq<VRow>, spine: seq<Key>, edges: Rotation.Edges)
    returns (totals: map<Key, Totals>)
    requires WellFormedRows(rows)
    ensures forall k :: k in totals ==> totals[k] == Totals(|ProvedHeights(rows, edges, k)|,
                          FoldsUpTo(rows, edges, k, |rows|), AnchorsUpTo(spine, edges, k, |spine|))
    ensures forall k :: k !in totals ==> ProvedHeights(rows, edges, k) == {}
    ensures forall k :: k !in totals ==> FoldsUpTo(rows, edges, k, |rows|) == AnchorsUpTo(spine, edges, k, |spine|) == 0
  {
    var folded, items := Split(rows, edges);
    var anchored: map<Key, int> := map[];
    for i := 0 to |spine|
      invariant forall k :: GetOr0(anchored, k) == AnchorsUpTo(spine, edges, k, i)
    {
      var pk := Rotation.ResolvePubkey(edges, spine[i]);
      anchored := anchored[pk := GetOr0(anchored, pk) + 1];
    }
    var proved := MergeSorted(rows, edges, items);
    totals := map k | k in proved.Keys + folded.Keys + anchored.Keys ::
      Totals(GetOr0(proved, k), GetOr0(folded, k), GetOr0(anchored, k));
  }

  /** The sort by (key, lo, hi), then the merge. */
  method MergeSorted(ghost rows: seq<VRow>, ghost edges: Rotation.Edges, items: seq<Item>) returns (proved: map<Key, int>)
    requires WellFormedItems(items)
    requires forall x :: x in items <==> exists i :: 0 <= i < |rows| && ItemAt(rows, edges, i, x)
    ensures forall k :: GetOr0(proved, k) == |ProvedHeights(rows, edges, k)|
  {
    var sorted := Sorted(BY_KEY, items);
    SortedIsSorted(BY_KEY, items);
    assert forall i :: 0 <= i < |sorted| ==> sorted[i] in items;
    proved := MergeByKey(sorted);
    forall k ensures GetOr0(proved, k) == |ProvedHeights(rows, edges, k)| {
      ItemHeights(rows, edges, sorted, k);
      if k !in proved {
        NoHeights(sorted, |sorted|, k);
      }
    }
  }

  // ---------- the columns against the headline ----------

  ghost function SumProved(totals: map<Key, Totals>): int {
    if totals == map[] then 0
    else var k :| k in totals; totals[k].proved + SumProved(totals - {k})
  }

  ghost predicate InSome(parts: map<Key, set<int>>, h: int) {
    exists k :: k in parts && h in parts[k]
  }

  lemma SplitSize(heights: set<int>, part: set<int>)
    ensures |heights| <= |heights - part| + |part|
  {
    assert part == (part - heights) + (heights * part);
    assert heights == (heights - part) + (heights * part);
  }

  lemma InSomeOther(parts: map<Key, set<int>>, k: Key, h: int)
    requires k in parts && InSome(parts, h) && h !in parts[k]
    ensures InSome(parts - {k}, h)
  {
    var k' :| k' in parts && h in parts[k'];
    assert k' in parts - {k} && h in (parts - {k})[k'];
  }

  /** Heights spread over the keys number at most the sum of the keys' counts. */
  lemma {:induction false} UnionBound(heights: set<int>, totals: map<Key, Totals>, parts: map<Key, set<int>>)
    requires totals.Keys == parts.Keys
    requires forall k :: k in totals ==> totals[k].proved == |parts[k]|
    requires forall h :: h in heights ==> InSome(parts, h)
    ensures |heights| <= SumProved(totals)
    decreases |totals|
  {
    if totals == map[] {
      assert forall h :: h !in heights;
      assert heights == {};
    } else {
      var k :| k in totals && SumProved(totals) == totals[k].proved + SumProved(totals - {k});
      forall h | h in heights - parts[k] ensures InSome(parts - {k}, h) {
        InSomeOther(parts, k, h);
      }
      UnionBound(heights - parts[k], totals - {k}, parts - {k});
      SplitSize(heights, parts[k]);
    }
  }

  /** Every covered height also has its own single-block row. */
  ghost predicate Leafed(rows: seq<VRow>) {
    forall h :: CoveredBy(rows, h) ==> exists i :: 0 <= i < |rows| && rows[i].lo == h && rows[i].hi == h
  }

  /** On a board where only single blocks introduce coverage, the proved columns sum to at least the headline. */
  lemma {:induction false} ProvedSumsToHeadline(rows: seq<VRow>, edges: Rotation.Edges, totals: map<Key, Totals>)
    requires WellFormedRows(rows) && Leafed(rows)
    requires forall k :: k in totals ==> totals[k].proved == |ProvedHeights(rows, edges, k)|
    requires forall k :: k !in totals ==> ProvedHeights(rows, edges, k) == {}
    ensures |Heights(SpansOf(rows))| <= SumProved(totals)
  {
    var parts := map k | k in totals :: ProvedHeights(rows, edges, k);
    var heights := Heights(SpansOf(rows));
    forall h | h in heights ensures InSome(parts, h) {
      var k := CoveredHeightHasProver(rows, edges, h);
      assert k in totals && h in parts[k];
    }
    UnionBound(heights, totals, parts);
  }

  lemma CoveredHeightHasProver(rows: seq<VRow>, edges: Rotation.Edges, h: int) returns (k: Key)
    requires Leafed(rows) && h in Heights(SpansOf(rows))
    ensures h in ProvedHeights(rows, edges, k)
  {
    var s :| s in SpansOf(rows) && s.Has(h);
    var n :| 0 <= n < |rows| && SpansOf(rows)[n] == s;
    assert rows[n].Covers(h) && CoveredBy(rows, h);
    var i :| 0 <= i < |rows| && rows[i].lo == h && rows[i].hi == h;
    k := Rotation.Resolve(edges, rows[i].pubkey);
    assert ProofBy(rows, edges, k, i) && rows[i].Covers(h);
    assert Proves(rows, edges, k, |rows|, h);
  }
}
