/** The coordinator's board: the two tables and the cached frontier, changed under one lock. */
module BoardClass {
  import opened Ranges
  import opened Frontier
  import opened Sorting
  import opened Intervals
  import opened BoardRules

  const BY_LO: (VRow, VRow) -> bool := (a: VRow, b: VRow) => a.lo <= b.lo

  class Board {
    const cfg: Config
    var ranges: RangeTable
    var vranges: VTable
    var cache: Option<Snap>

    constructor (cfg: Config, seeded: set<Span>)
      ensures this.cfg == cfg && vranges == map[] && cache == None
      ensures ranges == map id | id in seeded :: OPEN_ROW
    {
      this.cfg := cfg;
      ranges := map id | id in seeded :: OPEN_ROW;
      vranges := map[];
      cache := None;
    }

    /** The rows of a table in lo order: SELECT ... ORDER BY lo. */
    static method RowsByLo(v: VTable) returns (rows: seq<VRow>)
      ensures SortedByLo(rows)
      ensures forall r :: r in rows <==> r in v.Values
    {
      var unsorted: seq<VRow> := [];
      var left := v.Keys;
      while left != {}
        invariant left <= v.Keys
        invariant forall r :: r in unsorted <==> exists id :: id in v && id !in left && v[id] == r
        decreases |left|
      {
        var id :| id in left;
        left := left - {id};
        unsorted := unsorted + [v[id]];
      }
      rows := Sorted(BY_LO, unsorted);
      SortedIsSorted(BY_LO, unsorted);
      forall i, j | 0 <= i < j < |rows| ensures rows[i].lo <= rows[j].lo {
        assert BY_LO(rows[i], rows[j]);
      }
    }

    /** `_frontier_snapshot` on a cache miss: the walk over what the table holds now, kept with the time its
        read began. */
    method Snapshot(taken: real) returns (snap: Snap)
      requires forall id :: id in vranges ==> WellFormedRow(vranges[id])
      modifies this`cache
      ensures cache == Some(snap) && snap.taken == taken
      ensures forall r :: r in snap.rows <==> r in vranges.Values
      ensures IsFrontier(snap.rows, snap.frontier)
    {
      var rows := RowsByLo(vranges);
      forall i | 0 <= i < |rows| ensures WellFormedRow(rows[i]) {
        assert rows[i] in vranges.Values;
      }
      var f := FrontierChain(rows);
      snap := Snap(taken, rows, f);
      cache := Some(snap);
    }

    method Invalidate()
      modifies this`cache
      ensures cache == None
    {
      cache := None;
    }

    /** `coverage_and_held`: the blocks covered by any verified range, and the blocks held, whoever asks. */
    method CoverageAndHeld(w: World, now: real) returns (proven: set<int>, held: set<int>)
      ensures forall h :: h in proven <==> CoveredIn(vranges, h)
      ensures forall h :: h in held <==> HeldByClaim(cfg, ranges, now, h) || h in w.sponsorHeld
    {
      proven := {};
      var left := vranges.Keys;
      while left != {}
        invariant left <= vranges.Keys
        invariant forall h :: h in proven <==> exists id :: id in vranges && id !in left && vranges[id].Covers(h)
        decreases |left|
      {
        var id :| id in left;
        left := left - {id};
        proven := proven + Block(vranges[id].lo, vranges[id].hi);
      }
      held := (set id | id in ranges && Live(cfg, ranges[id], now) :: id.lo) + w.sponsorHeld;
    }

    /** The locked section of `claim`: answer a retry, apply the cap, then the frontier's blocker or the scan. */
    method Claim(snap: Snap, w: World, q: ClaimRequest) returns (resp: ClaimResponse)
      modifies this`ranges
      ensures Claims(cfg, old(ranges), vranges, snap, w, q, resp, ranges)
    {
      if id :| id in ranges && MadeBy(cfg, ranges[id], q) {
        return Again(id);
      }
      if AtCap(cfg, ranges, q) {
        return TooMany;
      }
      var proven, held := CoverageAndHeld(w, q.at);
      if q.pk != NO_KEY && cfg.retakeWait > 0.0 {
        held := held + set id | id in ranges && NeverBeaten(cfg, ranges[id], q) :: id.lo;
      }
      assert forall h :: h in held <==> Held(cfg, ranges, w, q, h);
      var blocker := snap.frontier.hi + 1;
      var h := 1;
      if blocker < w.ceiling && blocker in proven && blocker !in held && blocker in w.servable
         && CoverSettled(cfg, vranges, blocker, snap.taken)
      {
        h := blocker;
      } else {
        while h < w.ceiling && (h in proven || h in held || h !in w.servable)
          invariant 1 <= h
          invariant forall k :: 1 <= k < h ==> !Available(cfg, ranges, vranges, w, q, k)
        {
          h := h + 1;
        }
        if h >= w.ceiling {
          return Nothing;
        }
      }
      ranges := ranges[Span(h, h) := ClaimRow(q)];
      return Granted(h);
    }

    /** One pass of pick's scan, at most PICK_WINDOW blocks long. */
    method ScanFrom(n: int, proven: set<int>, held: set<int>, avoid: set<int>, w: World, now: real) returns (r: Option<int>)
      requires forall h :: h in proven <==> CoveredIn(vranges, h)
      requires forall h :: h in held <==> HeldByClaim(cfg, ranges, now, h) || h in w.sponsorHeld
      ensures PickPass(cfg, ranges, vranges, w, now, avoid, n, r)
    {
      for i := 0 to PICK_WINDOW
        invariant forall k :: n <= k < n + i ==> !Suggestible(cfg, ranges, vranges, w, now, avoid, k)
      {
        var h := n + i;
        if h >= w.ceiling {
          return None;
        }
        if h !in proven && h !in held && h !in avoid && h in w.servable {
          return Some(h);
        }
      }
      return None;
    }

    /** `pick`: advice only, so it changes nothing. */
    method Pick(frontierHi: int, peers: set<int>, busy: set<int>, w: World, now: real) returns (r: Option<int>)
      ensures Picks(cfg, ranges, vranges, w, now, frontierHi, peers, busy, r)
    {
      var proven, held := CoverageAndHeld(w, now);
      var n := PickStart(frontierHi);
      r := ScanFrom(n, proven, held, peers + busy, w, now);
      if r.None? {
        if busy == {} {
          assert peers + busy == peers;
        } else {
          r := ScanFrom(n, proven, held, peers, w, now);
        }
      }
    }

    method Beat(id: Span, pk: Key, at: real) returns (ok: bool)
      modifies this`ranges
      ensures ok == MayBeat(cfg, old(ranges), id, pk, at)
      ensures ranges == Beaten(cfg, old(ranges), id, pk, at)
    {
      if id !in ranges || ranges[id].status != Claimed || ranges[id].assignee != pk {
        return false;
      }
      if ranges[id].claimedAt < at - cfg.claimMax {
        return false;
      }
      ranges := ranges[id := ranges[id].(lastBeat := Some(at))];
      return true;
    }

    /** submit, before the verification: the gate. */
    method SubmitGate(id: Span) returns (ok: bool)
      requires id.lo <= id.hi
      ensures ok <==> PassesGate(vranges, id)
    {
      if id.lo < 1 {
        return false;
      }
      if id.hi == id.lo {
        return true;
      }
      var spans: seq<Span> := [];
      var left := vranges.Keys;
      while left != {}
        invariant left <= vranges.Keys
        invariant forall s :: s in spans <==> exists k :: k in vranges && k !in left && Span(vranges[k].lo, vranges[k].hi) == s
        decreases |left|
      {
        var k :| k in left;
        left := left - {k};
        spans := spans + [Span(vranges[k].lo, vranges[k].hi)];
      }
      ok := TiledByVerified(spans, id.lo, id.hi);
      forall h ensures TiledAt(spans, id.lo, id.hi, h) <==> TiledAtIn(vranges, id, h) {
        if TiledAtIn(vranges, id, h) {
          var k :| k in vranges && id.lo <= vranges[k].lo && vranges[k].hi <= id.hi && vranges[k].Covers(h);
          assert Span(vranges[k].lo, vranges[k].hi) in spans;
        }
      }
    }

    /** submit, still before the verification: the row is made on demand, and an already verified one refuses. */
    method SubmitOpen(id: Span) returns (ok: bool)
      modifies this`ranges
      ensures ranges == if id in old(ranges) then old(ranges) else old(ranges)[id := OPEN_ROW]
      ensures ok <==> ranges[id].status != Verified
    {
      if id !in ranges {
        ranges := ranges[id := OPEN_ROW];
      }
      return ranges[id].status != Verified;
    }

    /** submit's commit: the status is checked again, then the proof or the failure is recorded. */
    method SubmitCommit(id: Span, refused: bool, verdict: Verdict) returns (recorded: bool)
      requires id in ranges && Proves(verdict, id)
      modifies this`ranges, this`vranges
      ensures recorded <==> old(ranges)[id].status != Verified && !refused
      ensures !recorded ==> ranges == old(ranges) && vranges == old(vranges)
      ensures recorded && verdict.Accepted? ==>
        && ranges == old(ranges)[id := old(ranges)[id].(status := Verified)]
        && vranges == old(vranges)[id := verdict.row]
      ensures recorded && !verdict.Accepted? ==>
        ranges == old(ranges)[id := Faulted(old(ranges)[id], verdict)] && vranges == old(vranges)
    {
      if ranges[id].status == Verified || refused {
        return false;
      }
      if verdict.Accepted? {
        ranges := ranges[id := ranges[id].(status := Verified)];
        vranges := vranges[id := verdict.row];
      } else {
        ranges := ranges[id := Faulted(ranges[id], verdict)];
      }
      return true;
    }
  }
}
