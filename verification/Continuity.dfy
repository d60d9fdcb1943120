/** Integrity check 3: the single-block records from 1 to the spine's tip link up, one by one. It is a
    second statement of the seam rule, made height by height instead of by walking chains. */
module Continuity {
  import opened Ranges
  import opened Frontier

  predicate Single(r: VRow, h: int) {
    r.lo == h && r.hi == h
  }

  /** A NULL digest reads as the empty text. */
  function Text(s: Option<string>): string {
    if s.Some? then s.value else ""
  }

  predicate TipLinks(p: VRow, r: VRow) {
    p.outTip == r.inTip
  }

  predicate DigestLinks(p: VRow, r: VRow) {
    Text(p.outDigest) != "" && Text(p.outDigest) == Text(r.inDigest)
  }

  // ---------- the specification, height by height ----------

  ghost predicate HasRecord(rows: seq<VRow>, h: int) {
    exists r :: r in rows && Single(r, h)
  }

  ghost predicate HeightLinks(rows: seq<VRow>, h: int) {
    && (exists r :: r in rows && Single(r, h) && Text(r.inDigest) != "")
    && (h == 1 ==> exists r :: r in rows && Single(r, h) && r.inTip == GENESIS_TIP)
    && (h != 1 && HasRecord(rows, h - 1) ==>
      && (exists p, r :: p in rows && r in rows && Single(p, h - 1) && Single(r, h) && TipLinks(p, r))
      && (exists p, r :: p in rows && r in rows && Single(p, h - 1) && Single(r, h) && DigestLinks(p, r)))
  }

  ghost predicate HeightPasses(rows: seq<VRow>, allowed: set<int>, h: int) {
    if HasRecord(rows, h) then HeightLinks(rows, h) else h in allowed
  }

  /** Every height below k passes. */
  ghost predicate AllPass(rows: seq<VRow>, allowed: set<int>, k: int) {
    forall h :: 1 <= h < k ==> HeightPasses(rows, allowed, h)
  }

  ghost predicate Passes(rows: seq<VRow>, n: int, allowed: set<int>, spineTip: Option<string>) {
    && AllPass(rows, allowed, n + 1)
    && (exists r :: r in rows && Single(r, n) && Some(r.outTip) == spineTip)
  }

  /** A height with records links, from the stored columns: some record has a digest, the first height has one from the
      genesis tip, and any other follows its predecessor, when that has records, by some pair's tips and by some pair's
      non-empty digests. */
  lemma LinksFromColumns(rows: seq<VRow>, h: int)
    ensures HeightLinks(rows, h) <==>
              && (exists r :: r in rows && r.lo == h == r.hi && r.inDigest.Some? && r.inDigest.value != "")
              && (h == 1 ==> exists r :: r in rows && r.lo == h == r.hi && r.inTip == GENESIS_TIP)
              && (h != 1 && (exists p :: p in rows && p.lo == h - 1 == p.hi) ==>
                    && (exists p, r :: p in rows && r in rows && p.lo == h - 1 == p.hi && r.lo == h == r.hi && p.outTip == r.inTip)
                    && (exists p, r :: p in rows && r in rows && p.lo == h - 1 == p.hi && r.lo == h == r.hi
                          && p.outDigest.Some? && p.outDigest.value != "" && p.outDigest == r.inDigest))
  {
    forall r: VRow ensures (r in rows && r.lo == h == r.hi && r.inDigest.Some? && r.inDigest.value != "")
                <==> r in rows && Single(r, h) && Text(r.inDigest) != "" {
    }
    forall p: VRow ensures (p in rows && p.lo == h - 1 == p.hi) <==> p in rows && Single(p, h - 1) {
    }
    if h != 1 {
      forall p: VRow, r: VRow ensures (p.outDigest.Some? && p.outDigest.value != "" && p.outDigest == r.inDigest) <==> DigestLinks(p, r) {
      }
    }
  }

  // ---------- the check ----------

  ghost predicate Groups(rows: seq<VRow>, n: int, per: map<int, seq<VRow>>) {
    && (forall h :: h in per ==> 1 <= h <= n && per[h] != [])
    && (forall h, r :: h in per && r in per[h] ==> r in rows && Single(r, h))
    && (forall h, r :: 1 <= h <= n && r in rows && Single(r, h) ==> h in per && r in per[h])
  }

  method GroupByHeight(rows: seq<VRow>, n: int) returns (per: map<int, seq<VRow>>)
    ensures Groups(rows, n, per)
  {
    per := map[];
    for i := 0 to |rows|
      invariant Groups(rows[..i], n, per)
    {
      var r := rows[i];
      assert rows[..i+1] == rows[..i] + [r];
      if r.lo == r.hi && 1 <= r.lo <= n {
        var sofar := if r.lo in per then per[r.lo] else [];
        per := per[r.lo := sofar + [r]];
      }
    }
    assert rows[..|rows|] == rows;
  }

  /** The breaks found at one height that has records: no digest, a tip break, a digest break. */
  method CheckHeight(rows: seq<VRow>, n: int, per: map<int, seq<VRow>>, h: int)
    returns (noDigest: bool, tipBreak: bool, digestBreak: bool)
    requires Groups(rows, n, per) && 1 <= h <= n && h in per
    ensures !noDigest && !tipBreak && !digestBreak <==> HeightLinks(rows, h)
  {
    var cands := per[h];
    tipBreak, digestBreak := false, false;
    noDigest := !exists r :: r in cands && Text(r.inDigest) != "";
    if h == 1 {
      tipBreak := !exists r :: r in cands && r.inTip == GENESIS_TIP;
    } else if h - 1 in per {
      var prev := per[h-1];
      tipBreak := !exists p, r :: p in prev && r in cands && TipLinks(p, r);
      digestBreak := !exists p, r :: p in prev && r in cands && DigestLinks(p, r);
    }
    assert h != 1 ==> (h - 1 in per <==> HasRecord(rows, h - 1)) by {
      if h != 1 && h - 1 in per {
        assert per[h-1][0] in rows && Single(per[h-1][0], h - 1);
      }
    }
  }

  /** main: exit 0 when everything links, 1 on a failure, 2 when the end cannot be compared. */
  method CheckContinuity(rows: seq<VRow>, n: int, allowed: set<int>, spineTip: Option<string>) returns (code: int)
    requires n >= 1
    ensures code == 0 <==> Passes(rows, n, allowed, spineTip)
    ensures code == 2 <==> AllPass(rows, allowed, n + 1) && !HasRecord(rows, n)
    ensures code == 0 || code == 1 || code == 2
  {
    var per := GroupByHeight(rows, n);
    var unexpected, tipBreaks, digestBreaks, noDigest: seq<int> := [], [], [], [];
    for h := 1 to n + 1
      invariant unexpected == [] && tipBreaks == [] && digestBreaks == [] && noDigest == []
                <==> AllPass(rows, allowed, h)
    {
      assert AllPass(rows, allowed, h + 1) <==> AllPass(rows, allowed, h) && HeightPasses(rows, allowed, h);
      if h in per {
        assert per[h][0] in rows && Single(per[h][0], h) && HasRecord(rows, h);
        var nd, tb, db := CheckHeight(rows, n, per, h);
        noDigest := if nd then noDigest + [h] else noDigest;
        tipBreaks := if tb then tipBreaks + [h] else tipBreaks;
        digestBreaks := if db then digestBreaks + [h] else digestBreaks;
      } else if h !in allowed {
        assert !HasRecord(rows, h);
        unexpected := unexpected + [h];
      }
    }
    var fails := unexpected != [] || tipBreaks != [] || digestBreaks != [] || noDigest != [];
    assert n in per <==> HasRecord(rows, n) by {
      if n in per {
        assert per[n][0] in rows && Single(per[n][0], n);
      }
    }
    if n in per {
      var lastOk := exists r: VRow :: r in per[n] && Some(r.outTip) == spineTip;
      fails := fails || !lastOk;
    } else if n in allowed && !fails {
      return 2;
    }
    assert AllPass(rows, allowed, n + 1) ==> HeightPasses(rows, allowed, n);
    return if fails then 1 else 0;
  }

  // ---------- what a pass means for the frontier ----------

  ghost predicate OneRecordPerHeight(rows: seq<VRow>, n: int) {
    forall h, r, s :: 1 <= h <= n && r in rows && s in rows && Single(r, h) && Single(s, h) ==> r == s
  }

  /** The single-block records of blocks 1..k, in order. */
  ghost function Records(rows: seq<VRow>, k: nat): (p: seq<VRow>)
    requires forall h :: 1 <= h <= k ==> HasRecord(rows, h)
    ensures |p| == k
    ensures forall i :: 0 <= i < k ==> p[i] in rows && Single(p[i], i + 1)
  {
    if k == 0 then [] else
      assert HasRecord(rows, k);
      var r :| r in rows && Single(r, k);
      Records(rows, k - 1) + [r]
  }

  lemma {:induction false} RecordsAreAChain(rows: seq<VRow>, n: nat, spineTip: Option<string>, k: nat)
    requires Passes(rows, n, {}, spineTip) && OneRecordPerHeight(rows, n) && k <= n
    ensures forall h :: 1 <= h <= n ==> HasRecord(rows, h)
    ensures IsChain(rows, Records(rows, k))
  {
    forall h | 1 <= h <= n ensures HasRecord(rows, h) {
      assert HeightPasses(rows, {}, h);
    }
    if k > 0 {
      RecordsAreAChain(rows, n, spineTip, k - 1);
      var p := Records(rows, k);
      var r := p[k-1];
      assert HeightPasses(rows, {}, k) && HeightLinks(rows, k);
      assert Records(rows, k - 1) == p[..k-1];
      if k > 1 {
        var q := p[k-2];
        var x, y :| x in rows && y in rows && Single(x, k - 1) && Single(y, k) && TipLinks(x, y);
        var u, v :| u in rows && v in rows && Single(u, k - 1) && Single(v, k) && DigestLinks(u, v);
        assert x == q && u == q && y == r && v == r;
        assert Seams(q, r);
      }
      ExtendChain(rows, Records(rows, k - 1), r);
    }
  }

  /** A pass with no accepted holes and one record per height: the records 1..n are a genuine chain, so
      the frontier has at least their total work, and at least height n if it has no more work. */
  lemma {:induction false} PassBoundsFrontier(rows: seq<VRow>, n: nat, spineTip: Option<string>, e: End)
    requires n >= 1 && Passes(rows, n, {}, spineTip) && OneRecordPerHeight(rows, n) && IsFrontier(rows, e)
    ensures forall h :: 1 <= h <= n ==> HasRecord(rows, h)
    ensures var p := Records(rows, n);
            && IsChain(rows, p) && Some(EndOf(p).tip) == spineTip
            && (ChainWork(p) < e.work || (ChainWork(p) == e.work && n <= e.hi))
  {
    RecordsAreAChain(rows, n, spineTip, n);
    var p := Records(rows, n);
    assert NotBetter(EndOf(p), e);
    assert Single(p[n-1], n);
  }

  const TIP_LINKED := [VRow(1, 1, GENESIS_TIP, "t1", Some("d0"), Some("d1"), None, None, 1, 0.0),
                       VRow(2, 2, "t1", "t2", Some("x"), Some("d2"), None, None, 1, 0.0),
                       VRow(2, 2, "y", "t2", Some("d1"), Some("d2"), None, None, 1, 0.0)]

  lemma NothingSeams(a: VRow, b: VRow)
    requires a in TIP_LINKED && b in TIP_LINKED
    ensures !Seams(a, b)
  {
  }

  /** The check looks at tips and digests separately, so with two records at one height it can pass over
      records that no chain joins: one of the pair continues by tip only, the other by digest only. */
  lemma TwoRecordsCanPassUnjoined()
    ensures Passes(TIP_LINKED, 2, {}, Some("t2"))
    ensures forall p :: IsChain(TIP_LINKED, p) ==> |p| <= 1 && EndOf(p).hi != 2
  {
    FirstHeightPasses();
    SecondHeightPasses();
    hide HeightPasses, IsChain;
    assert TIP_LINKED[1] in TIP_LINKED && Single(TIP_LINKED[1], 2);
    forall p | IsChain(TIP_LINKED, p) ensures |p| <= 1 && EndOf(p).hi != 2 {
      ShortChain(p);
    }
  }

  lemma FirstHeightPasses()
    ensures HeightPasses(TIP_LINKED, {}, 1)
  {
    assert TIP_LINKED[0] in TIP_LINKED && Single(TIP_LINKED[0], 1);
    assert HasRecord(TIP_LINKED, 1);
  }

  lemma SecondHeightPasses()
    ensures HeightPasses(TIP_LINKED, {}, 2)
  {
    var a, b, c := TIP_LINKED[0], TIP_LINKED[1], TIP_LINKED[2];
    assert a in TIP_LINKED && b in TIP_LINKED && c in TIP_LINKED;
    assert Single(a, 1) && Single(b, 2) && Single(c, 2);
    assert TipLinks(a, b) && DigestLinks(a, c);
    assert HasRecord(TIP_LINKED, 2);
  }

  lemma ShortChain(p: seq<VRow>)
    requires IsChain(TIP_LINKED, p)
    ensures |p| <= 1 && EndOf(p).hi != 2
  {
    if |p| > 1 {
      NothingSeams(p[0], p[1]);
    }
  }

  // ---------- how many records per height a pass needs ----------

  /** How many of the rows are single-block records of height h. */
  function CountAt(rows: seq<VRow>, h: int): nat {
    if rows == [] then 0 else CountAt(rows[..|rows|-1], h) + (if Single(rows[|rows|-1], h) then 1 else 0)
  }

  predicate NoRepeats(rows: seq<VRow>) {
    forall i, j :: 0 <= i < j < |rows| ==> rows[i] != rows[j]
  }

  /** A table of distinct rows with counts[h-1] records at every height h. */
  predicate HasCounts(rows: seq<VRow>, counts: seq<nat>) {
    NoRepeats(rows) && forall h :: 1 <= h <= |counts| ==> CountAt(rows, h) == counts[h-1]
  }

  ghost predicate ChainReaches(rows: seq<VRow>, n: int) {
    exists p :: IsChain(rows, p) && EndOf(p).hi == n
  }

  /** Whenever a table with these counts passes without accepted holes, a chain reaches its end. */
  ghost predicate PassMeansChain(counts: seq<nat>) {
    forall rows: seq<VRow>, spineTip: Option<string> ::
      HasCounts(rows, counts) && Passes(rows, |counts|, {}, spineTip) ==> ChainReaches(rows, |counts|)
  }

  lemma {:induction false} TwoAreCounted(rows: seq<VRow>, h: int, i: nat, j: nat)
    requires i < |rows| && Single(rows[i], h)
    ensures CountAt(rows, h) >= 1
    ensures i < j < |rows| && Single(rows[j], h) ==> CountAt(rows, h) >= 2
  {
    var last := |rows| - 1;
    if i < j < last {
      TwoAreCounted(rows[..last], h, i, j);
    } else if i < last {
      TwoAreCounted(rows[..last], h, i, i);
    }
  }

  lemma CountsGiveOneEach(rows: seq<VRow>, counts: seq<nat>)
    requires HasCounts(rows, counts) && forall i :: 0 <= i < |counts| ==> counts[i] <= 1
    ensures OneRecordPerHeight(rows, |counts|)
  {
    forall h, r, s | 1 <= h <= |counts| && r in rows && s in rows && Single(r, h) && Single(s, h) ensures r == s {
      var i :| 0 <= i < |rows| && rows[i] == r;
      var j :| 0 <= j < |rows| && rows[j] == s;
      assert CountAt(rows, h) == counts[h-1] <= 1;
      if i < j {
        TwoAreCounted(rows, h, i, j);
      } else if j < i {
        TwoAreCounted(rows, h, j, i);
      }
    }
  }

  /** Record j of height h. The records of height k continue by tip only (the first) or by digest only (the others);
      at height 1, that is a genesis tip without a digest, or a digest without a genesis tip. */
  function SplitRow(k: int, h: int, j: nat): VRow {
    var row := VRow(h, h, if h == 1 then GENESIS_TIP else "t", "t", Some("d"), Some("d"), None, None, 1, j as real);
    if h != k then row
    else if j > 0 then row.(inTip := "x")
    else row.(inDigest := if h == 1 then None else Some("e"))
  }

  function SplitRows(k: int, h: int, c: nat): (rows: seq<VRow>)
    ensures |rows| == c && forall j :: 0 <= j < c ==> rows[j] == SplitRow(k, h, j)
  {
    seq(c, j requires 0 <= j < c => SplitRow(k, h, j))
  }

  /** The records of heights 1..h. */
  function SplitTable(k: int, counts: seq<nat>, h: nat): seq<VRow>
    requires h <= |counts|
  {
    if h == 0 then [] else SplitTable(k, counts, h - 1) + SplitRows(k, h, counts[h-1])
  }

  predicate InSplitTable(k: int, counts: seq<nat>, h: nat, r: VRow)
    requires h <= |counts|
  {
    exists g, j :: 1 <= g <= h && 0 <= j < counts[g-1] && r == SplitRow(k, g, j)
  }

  lemma {:induction false} SplitTableHolds(k: int, counts: seq<nat>, h: nat, r: VRow)
    requires h <= |counts|
    ensures r in SplitTable(k, counts, h) <==> InSplitTable(k, counts, h, r)
  {
    hide SplitRow;
    if h > 0 {
      SplitTableHolds(k, counts, h - 1, r);
      var top := SplitRows(k, h, counts[h-1]);
      if InSplitTable(k, counts, h, r) {
        var g, j :| 1 <= g <= h && 0 <= j < counts[g-1] && r == SplitRow(k, g, j);
        assert g == h ==> top[j] in top;
      }
      if r in top {
        var j :| 0 <= j < |top| && top[j] == r;
        assert r == SplitRow(k, h, j);
      }
    }
  }

  lemma {:induction false} CountAdds(a: seq<VRow>, b: seq<VRow>, h: int)
    ensures CountAt(a + b, h) == CountAt(a, h) + CountAt(b, h)
  {
    if b == [] {
      assert a + b == a;
    } else {
      assert (a + b)[..|a + b|-1] == a + b[..|b|-1];
      CountAdds(a, b[..|b|-1], h);
    }
  }

  lemma {:induction false} CountUniform(rows: seq<VRow>, g: int, h: int)
    requires forall i :: 0 <= i < |rows| ==> rows[i].lo == rows[i].hi == g
    ensures CountAt(rows, h) == if g == h then |rows| else 0
  {
    if rows != [] {
      CountUniform(rows[..|rows|-1], g, h);
    }
  }

  lemma {:induction false} SplitTableCounts(k: int, counts: seq<nat>, h: nat, g: int)
    requires h <= |counts|
    ensures CountAt(SplitTable(k, counts, h), g) == if 1 <= g <= h then counts[g-1] else 0
  {
    if h > 0 {
      SplitTableCounts(k, counts, h - 1, g);
      CountAdds(SplitTable(k, counts, h - 1), SplitRows(k, h, counts[h-1]), g);
      CountUniform(SplitRows(k, h, counts[h-1]), h, g);
    }
  }

  lemma {:induction false} SplitTableNoRepeats(k: int, counts: seq<nat>, h: nat)
    requires h <= |counts|
    ensures NoRepeats(SplitTable(k, counts, h))
    ensures forall r :: r in SplitTable(k, counts, h) ==> r.lo <= h
  {
    if h > 0 {
      SplitTableNoRepeats(k, counts, h - 1);
      var low, top := SplitTable(k, counts, h - 1), SplitRows(k, h, counts[h-1]);
      forall i, j | 0 <= i < j < |top| ensures top[i] != top[j] {
        assert top[i].ts == i as real && top[j].ts == j as real;
      }
      forall i, j | 0 <= i < j < |low + top| ensures (low + top)[i] != (low + top)[j] {
        if i < |low| {
          assert low[i] in low;
        }
      }
    }
  }

  lemma SplitRowIn(k: int, counts: seq<nat>, g: int, j: nat)
    requires 1 <= g <= |counts| && j < counts[g-1]
    ensures SplitRow(k, g, j) in SplitTable(k, counts, |counts|)
  {
    SplitTableHolds(k, counts, |counts|, SplitRow(k, g, j));
  }

  /** Every height of the table passes: at height k one record links by its tip and another by its digest. */
  lemma SplitTablePasses(k: int, counts: seq<nat>)
    requires 1 <= k <= |counts| && counts[k-1] >= 2 && forall i :: 0 <= i < |counts| ==> counts[i] >= 1
    ensures Passes(SplitTable(k, counts, |counts|), |counts|, {}, Some("t"))
  {
    hide SplitTable;
    var n := |counts|;
    var rows := SplitTable(k, counts, n);
    forall h | 1 <= h < n + 1 ensures HeightPasses(rows, {}, h) {
      SplitHeightPasses(k, counts, h);
    }
    SplitRowIn(k, counts, n, 0);
    assert Single(SplitRow(k, n, 0), n);
  }

  lemma SplitHeightPasses(k: int, counts: seq<nat>, h: int)
    requires 1 <= k <= |counts| && counts[k-1] >= 2 && forall i :: 0 <= i < |counts| ==> counts[i] >= 1
    requires 1 <= h <= |counts|
    ensures HeightPasses(SplitTable(k, counts, |counts|), {}, h)
  {
    hide SplitTable;
    var rows := SplitTable(k, counts, |counts|);
    var byTip, byDigest := SplitRow(k, h, 0), SplitRow(k, h, if h == k then 1 else 0);
    SplitRowIn(k, counts, h, 0);
    SplitRowIn(k, counts, h, if h == k then 1 else 0);
    assert Single(byTip, h) && Single(byDigest, h) && Text(byDigest.inDigest) != "";
    if h > 1 {
      var p := SplitRow(k, h - 1, 0);
      SplitRowIn(k, counts, h - 1, 0);
      assert Single(p, h - 1) && TipLinks(p, byTip) && DigestLinks(p, byDigest);
    }
  }

  lemma SplitRowsDoNotSeam(k: int, g: int, j: nat, h: int, m: nat)
    requires g >= 1 && h >= 1 && Seams(SplitRow(k, g, j), SplitRow(k, h, m)) && g < k
    ensures h == g + 1 < k
  {
  }

  lemma SplitRowsDoNotStart(k: int, g: int, j: nat)
    requires k >= 1 && g >= 1 && Starts(SplitRow(k, g, j))
    ensures g == 1 < k
  {
  }

  /** No chain of the table gets as far as height k. */
  lemma {:induction false} SplitTableStopsChains(k: int, counts: seq<nat>, p: seq<VRow>, i: nat) returns (j: nat)
    requires 1 <= k && IsChain(SplitTable(k, counts, |counts|), p) && i < |p|
    ensures p[i] == SplitRow(k, i + 1, j) && i + 1 < k
  {
    hide SplitTable, SplitRow, Seams, Starts;
    assert p[i] in SplitTable(k, counts, |counts|);
    SplitTableHolds(k, counts, |counts|, p[i]);
    var g, m :| 1 <= g <= |counts| && 0 <= m < counts[g-1] && p[i] == SplitRow(k, g, m);
    j := m;
    if i > 0 {
      var before := SplitTableStopsChains(k, counts, p, i - 1);
      assert Seams(p[i-1], p[i]);
      SplitRowsDoNotSeam(k, i, before, g, m);
    } else {
      SplitRowsDoNotStart(k, g, m);
    }
  }

  /** For every number of records per height, at least one each, and every height k with more than one: a table with
      just those records passes the check, and no chain of it reaches height k. */
  lemma TwoRecordsBreakTheCheck(k: int, counts: seq<nat>) returns (rows: seq<VRow>)
    requires 1 <= k <= |counts| && counts[k-1] >= 2 && forall i :: 0 <= i < |counts| ==> counts[i] >= 1
    ensures HasCounts(rows, counts) && Passes(rows, |counts|, {}, Some("t"))
    ensures forall p :: IsChain(rows, p) ==> EndOf(p).hi < k
  {
    rows := SplitTable(k, counts, |counts|);
    hide SplitTable;
    SplitTableNoRepeats(k, counts, |counts|);
    forall h | 1 <= h <= |counts| ensures CountAt(rows, h) == counts[h-1] {
      SplitTableCounts(k, counts, |counts|, h);
    }
    SplitTablePasses(k, counts);
    forall p | IsChain(rows, p) ensures EndOf(p).hi < k {
      if p != [] {
        var j := SplitTableStopsChains(k, counts, p, |p| - 1);
        assert SplitRow(k, |p|, j).hi == |p|;
      }
    }
  }

  /** The exact condition: over all tables with the given numbers of records, a pass means a chain if and only if no
      height has two (or some height has none, and then nothing passes). */
  lemma PassMeansChainIffOneEach(counts: seq<nat>)
    requires counts != []
    ensures PassMeansChain(counts) <==> (forall i :: 0 <= i < |counts| ==> counts[i] <= 1) || 0 in counts
  {
    hide HasCounts, Passes;
    if 0 in counts {
      NothingPasses(counts);
    } else if forall i :: 0 <= i < |counts| ==> counts[i] <= 1 {
      OneEachMeansChain(counts);
    } else {
      var i :| 0 <= i < |counts| && counts[i] > 1;
      var rows := TwoRecordsBreakTheCheck(i + 1, counts);
      assert !ChainReaches(rows, |counts|);
    }
  }

  lemma NothingPasses(counts: seq<nat>)
    requires 0 in counts
    ensures PassMeansChain(counts)
  {
    var i :| 0 <= i < |counts| && counts[i] == 0;
    forall rows: seq<VRow>, spineTip: Option<string> | HasCounts(rows, counts)
      ensures !Passes(rows, |counts|, {}, spineTip)
    {
      assert CountAt(rows, i + 1) == counts[i];
      forall r | r in rows ensures !Single(r, i + 1) {
        var m :| 0 <= m < |rows| && rows[m] == r;
        if Single(r, i + 1) {
          TwoAreCounted(rows, i + 1, m, m);
        }
      }
      assert !HeightPasses(rows, {}, i + 1);
    }
  }

  lemma OneEachMeansChain(counts: seq<nat>)
    requires counts != [] && forall i :: 0 <= i < |counts| ==> counts[i] <= 1
    ensures PassMeansChain(counts)
  {
    var n := |counts|;
    forall rows: seq<VRow>, spineTip: Option<string> | HasCounts(rows, counts) && Passes(rows, n, {}, spineTip)
      ensures ChainReaches(rows, n)
    {
      CountsGiveOneEach(rows, counts);
      RecordsAreAChain(rows, n, spineTip, n);
      assert Single(Records(rows, n)[n-1], n);
      assert EndOf(Records(rows, n)).hi == n;
    }
  }
}
