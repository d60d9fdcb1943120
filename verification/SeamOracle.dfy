/** The fuzz harness's independent oracle: a depth-first search that collects the end of every
    genesis-anchored simple path. It enumerates exactly the ends of chains, so the walk's answer is
    always one of them and the greatest of them. */
module SeamOracle {
  import opened Ranges
  import opened Frontier

  function Below(n: nat): (s: set<nat>)
    ensures forall i: nat :: i in s <==> i < n
  {
    if n == 0 then {} else Below(n - 1) + {n - 1}
  }

  function NodeEnd(r: VRow, work: int): End {
    End(r.hi, r.outTip, work, r.Leaves())
  }

  /** dfs: the end of this node, then every unused row that seams onto it. */
  function Dfs(rows: seq<VRow>, node: nat, used: set<nat>, acc: int): set<End>
    requires node < |rows|
    decreases Below(|rows|) - used, 1, 0
  {
    var w := acc + rows[node].Work();
    {NodeEnd(rows[node], w)} + DfsNext(rows, node, used, w, 0)
  }

  function DfsNext(rows: seq<VRow>, node: nat, used: set<nat>, w: int, j: nat): set<End>
    requires node < |rows| && j <= |rows|
    decreases Below(|rows|) - used, 0, |rows| - j
  {
    if j == |rows| then {}
    else
      (if j !in used && Seams(rows[node], rows[j]) then
         assert j in Below(|rows|) - used;
         Dfs(rows, j, used + {j}, w)
       else {})
      + DfsNext(rows, node, used, w, j + 1)
  }

  function DfsStarts(rows: seq<VRow>, j: nat): set<End>
    requires j <= |rows|
    decreases |rows| - j
  {
    if j == |rows| then {}
    else (if Starts(rows[j]) then Dfs(rows, j, {j}, 0) else {}) + DfsStarts(rows, j + 1)
  }

  /** legit_end_tuples: the empty frontier is always legitimate. */
  function LegitEnds(rows: seq<VRow>): set<End> {
    {EMPTY} + DfsStarts(rows, 0)
  }

  // ---------- every collected end belongs to a chain ----------

  ghost predicate EndOfSome(rows: seq<VRow>, e: End) {
    exists p :: IsChain(rows, p) && EndOf(p) == e
  }

  lemma {:induction false} DfsSound(rows: seq<VRow>, node: nat, used: set<nat>, q: seq<VRow>, e: End)
    requires node < |rows| && IsChain(rows, q)
    requires if q == [] then Starts(rows[node]) else Seams(q[|q|-1], rows[node])
    requires e in Dfs(rows, node, used, ChainWork(q))
    ensures EndOfSome(rows, e)
    decreases Below(|rows|) - used, 1, 0
  {
    var p := q + [rows[node]];
    ExtendChain(rows, q, rows[node]);
    if e == EndOf(p) {
    } else {
      DfsNextSound(rows, node, used, p, 0, e);
    }
  }

  lemma {:induction false} DfsNextSound(rows: seq<VRow>, node: nat, used: set<nat>, p: seq<VRow>, j: nat, e: End)
    requires node < |rows| && j <= |rows| && EndsAt(rows, p, node)
    requires e in DfsNext(rows, node, used, ChainWork(p), j)
    ensures EndOfSome(rows, e)
    decreases Below(|rows|) - used, 0, |rows| - j
  {
    if j !in used && Seams(rows[node], rows[j]) && e in Dfs(rows, j, used + {j}, ChainWork(p)) {
      assert j in Below(|rows|) - used;
      DfsSound(rows, j, used + {j}, p, e);
    } else {
      DfsNextSound(rows, node, used, p, j + 1, e);
    }
  }

  lemma {:induction false} DfsStartsSound(rows: seq<VRow>, j: nat, e: End)
    requires j <= |rows| && e in DfsStarts(rows, j)
    ensures EndOfSome(rows, e)
    decreases |rows| - j
  {
    if Starts(rows[j]) && e in Dfs(rows, j, {j}, 0) {
      DfsSound(rows, j, {j}, [], e);
    } else {
      DfsStartsSound(rows, j + 1, e);
    }
  }

  // ---------- every chain's end is collected ----------

  lemma {:induction false} DfsNextContains(rows: seq<VRow>, node: nat, used: set<nat>, w: int, j: nat, k: nat)
    requires node < |rows| && j <= k < |rows| && k !in used && Seams(rows[node], rows[k])
    ensures Dfs(rows, k, used + {k}, w) <= DfsNext(rows, node, used, w, j)
    decreases k - j
  {
    if j < k {
      DfsNextContains(rows, node, used, w, j + 1, k);
    }
  }

  lemma {:induction false} DfsStartsContains(rows: seq<VRow>, j: nat, k: nat)
    requires j <= k < |rows| && Starts(rows[k])
    ensures Dfs(rows, k, {k}, 0) <= DfsStarts(rows, j)
    decreases k - j
  {
    if j < k {
      DfsStartsContains(rows, j + 1, k);
    }
  }

  lemma NextIndex(rows: seq<VRow>, p: seq<VRow>, i: nat) returns (k: nat)
    requires WellFormedRows(rows) && IsChain(rows, p) && i + 1 < |p|
    ensures k < |rows| && rows[k] == p[i+1] && Seams(p[i], rows[k]) && p[i].lo < rows[k].lo
  {
    assert Seams(p[i], p[i+1]);
    var n: nat :| n < |rows| && rows[n] == p[i];
    assert WellFormedRow(rows[n]);
    k :| k < |rows| && rows[k] == p[i+1];
  }

  /** Seams strictly raise lo, so a chain's next row is never one the search has used. */
  lemma {:induction false} DfsComplete(rows: seq<VRow>, p: seq<VRow>, i: nat, node: nat, used: set<nat>)
    requires WellFormedRows(rows) && IsChain(rows, p) && i < |p| && node < |rows| && rows[node] == p[i]
    requires forall u :: u in used ==> u < |rows| && rows[u].lo <= p[i].lo
    ensures EndOf(p) in Dfs(rows, node, used, ChainWork(p[..i]))
    decreases |p| - i
  {
    assert p[..i+1][..i] == p[..i];
    var w := ChainWork(p[..i+1]);
    assert w == ChainWork(p[..i]) + rows[node].Work();
    if i + 1 == |p| {
      assert p[..i+1] == p;
    } else {
      var k := NextIndex(rows, p, i);
      DfsComplete(rows, p, i + 1, k, used + {k});
      DfsNextContains(rows, node, used, w, 0, k);
    }
  }

  /** The oracle collects exactly the ends of chains. */
  lemma {:induction false} OracleIsExact(rows: seq<VRow>, e: End)
    requires WellFormedRows(rows)
    ensures e in LegitEnds(rows) <==> EndOfSome(rows, e)
  {
    if e in LegitEnds(rows) {
      if e == EMPTY {
        assert IsChain(rows, []);
      } else {
        DfsStartsSound(rows, 0, e);
      }
    }
    if EndOfSome(rows, e) {
      var p :| IsChain(rows, p) && EndOf(p) == e;
      if p != [] {
        var k: nat :| k < |rows| && rows[k] == p[0];
        DfsComplete(rows, p, 0, k, {k});
        DfsStartsContains(rows, 0, k);
      }
    }
  }

  /** The campaign's soundness check, for every set of rows: the walk's answer is legitimate and maximal. */
  lemma {:induction false} WalkMatchesOracle(rows: seq<VRow>, f: End)
    requires WellFormedRows(rows)
    ensures IsFrontier(rows, f) <==> f in LegitEnds(rows) && forall e :: e in LegitEnds(rows) ==> NotBetter(e, f)
  {
    forall e ensures e in LegitEnds(rows) <==> EndOfSome(rows, e) {
      OracleIsExact(rows, e);
    }
    if f in LegitEnds(rows) && forall e :: e in LegitEnds(rows) ==> NotBetter(e, f) {
      forall p | IsChain(rows, p) ensures NotBetter(EndOf(p), f) {
        assert EndOfSome(rows, EndOf(p));
      }
    }
  }
}
