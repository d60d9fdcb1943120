/** The board under concurrency: every interleaving of snapshots, claims, beats and two-phase submits, as runs
    of a state machine whose steps are the locked sections. */
module BoardRuns {
  import opened Ranges
  import opened Frontier
  import opened BoardRules

  type Thread = nat

  /** A submit between its gate and its commit. */
  datatype Pending = Pending(id: Span, rowMade: bool)

  /** The tables, the clock, the frontier cache, and what the threads in flight hold. `visible` is when each
      verified range was committed: the row's own ts is stamped a little before that. */
  datatype State = State(now: real, ranges: RangeTable, vranges: VTable, visible: map<Span, real>,
                         cache: Option<Snap>, taking: map<Thread, real>, readers: map<Thread, Snap>,
                         pending: map<Thread, Pending>)

  datatype Event =
    | Tick(to: real)
    | SnapBegin(t: Thread)
    | SnapRead(t: Thread, snap: Snap)
    | SnapStore(t: Thread)
    | Invalidate
    | ReadCache(t: Thread)
    | ClaimStep(t: Thread, w: World, q: ClaimRequest, resp: ClaimResponse)
    | BeatStep(id: Span, pk: Key, at: real)
    | GateStep(t: Thread, id: Span)
    | OpenStep(t: Thread)
    | CommitStep(t: Thread, refused: bool, verdict: Verdict)
    | Abandon(t: Thread)

  ghost predicate Initial(s: State) {
    && (forall id :: id in s.ranges ==> s.ranges[id] == OPEN_ROW)
    && s.vranges == map[] && s.visible == map[] && s.cache == None
    && s.taking == map[] && s.readers == map[] && s.pending == map[]
  }

  /** The walk a snapshot records is over exactly the rows the table held when it was read. */
  ghost predicate WalkOf(snap: Snap, v: VTable) {
    && (forall r :: r in snap.rows <==> r in v.Values)
    && IsFrontier(snap.rows, snap.frontier)
  }

  ghost predicate ClaimNext(cfg: Config, s: State, e: Event, s': State)
    requires e.ClaimStep?
  {
    && e.t in s.readers && e.q.at <= s.now
    && e.q.checkedAt <= e.q.at
    && (e.q.signedAt.Some? ==>
          e.q.nonce.Some? && e.q.signedAt.value - cfg.beatSkew <= e.q.checkedAt <= e.q.signedAt.value + cfg.beatSkew)
    && Claims(cfg, s.ranges, s.vranges, s.readers[e.t], e.w, e.q, e.resp, s'.ranges)
    && s' == s.(ranges := s'.ranges, readers := s.readers - {e.t})
  }

  ghost predicate CommitNext(s: State, e: Event, s': State)
    requires e.CommitStep?
  {
    && e.t in s.pending && s.pending[e.t].rowMade && s.pending[e.t].id in s.ranges
    && Proves(e.verdict, s.pending[e.t].id)
    && (e.verdict.Accepted? ==> e.verdict.row.ts <= s.now)
    && var id, done := s.pending[e.t].id, s.(pending := s.pending - {e.t});
       if s.ranges[id].status == Verified || e.refused then s' == done
       else if e.verdict.Accepted? then
         s' == done.(ranges := s.ranges[id := s.ranges[id].(status := Verified)],
                     vranges := s.vranges[id := e.verdict.row], visible := s.visible[id := s.now])
       else s' == done.(ranges := s.ranges[id := Faulted(s.ranges[id], e.verdict)])
  }

  ghost predicate Next(cfg: Config, s: State, e: Event, s': State) {
    match e
    case Tick(to) => s.now <= to && s' == s.(now := to)
    case SnapBegin(t) => s' == s.(taking := s.taking[t := s.now])
    case SnapRead(t, snap) =>
      t in s.taking && snap.taken == s.taking[t] && WalkOf(snap, s.vranges)
      && s' == s.(taking := s.taking - {t}, readers := s.readers[t := snap])
    case SnapStore(t) => t in s.readers && s' == s.(cache := Some(s.readers[t]))
    case Invalidate => s' == s.(cache := None)
    case ReadCache(t) => s.cache.Some? && s' == s.(readers := s.readers[t := s.cache.value])
    case ClaimStep(_, _, _, _) => ClaimNext(cfg, s, e, s')
    case BeatStep(id, pk, at) => at <= s.now && s' == s.(ranges := Beaten(cfg, s.ranges, id, pk, at))
    case GateStep(t, id) => PassesGate(s.vranges, id) && s' == s.(pending := s.pending[t := Pending(id, false)])
    case OpenStep(t) =>
      t in s.pending
      && var id := s.pending[t].id; var table := if id in s.ranges then s.ranges else s.ranges[id := OPEN_ROW];
         s' == s.(ranges := table,
                  pending := if table[id].status == Verified then s.pending - {t} else s.pending[t := Pending(id, true)])
    case CommitStep(_, _, _) => CommitNext(s, e, s')
    case Abandon(t) => s' == s.(pending := s.pending - {t})
  }

  datatype Run = Run(states: seq<State>, events: seq<Event>)

  ghost predicate StepAt(cfg: Config, run: Run, i: nat)
    requires i < |run.events| && |run.states| == |run.events| + 1
  {
    Next(cfg, run.states[i], run.events[i], run.states[i+1])
  }

  ghost predicate IsRun(cfg: Config, run: Run) {
    && |run.states| == |run.events| + 1 && Initial(run.states[0])
    && forall i :: 0 <= i < |run.events| ==> StepAt(cfg, run, i)
  }

  // ---------- the invariant ----------

  predicate IsLeaf(v: VTable, h: int) {
    Span(h, h) in v
  }

  /** Every height of the span has its own single-block verified range. */
  predicate LeavesUnder(v: VTable, s: Span) {
    forall h :: s.lo <= h <= s.hi ==> IsLeaf(v, h)
  }

  ghost predicate TableInv(s: State) {
    && s.visible.Keys == s.vranges.Keys
    && (forall id :: id in s.vranges ==> 1 <= id.lo <= id.hi && s.vranges[id].lo == id.lo && s.vranges[id].hi == id.hi)
    && (forall id :: id in s.vranges ==> LeavesUnder(s.vranges, id))
    && (forall id :: id in s.vranges ==> id in s.ranges)
    && (forall id :: id in s.ranges && s.ranges[id].status == Verified ==> id in s.vranges)
    && (forall id :: id in s.vranges ==> s.visible[id] <= s.now)
  }

  /** A submit past its gate is for a single block, or for blocks that are all on the board already. */
  ghost predicate PendingInv(s: State) {
    forall t :: t in s.pending ==>
      var id := s.pending[t].id;
      1 <= id.lo <= id.hi && (id.hi > id.lo ==> LeavesUnder(s.vranges, id)) && (s.pending[t].rowMade ==> id in s.ranges)
  }

  /** A snapshot read every range committed before it began, and nothing it read has left the board. */
  ghost predicate SnapInv(s: State, snap: Snap) {
    && snap.taken <= s.now
    && IsFrontier(snap.rows, snap.frontier)
    && (forall r :: r in snap.rows ==> WellFormedRow(r) && Span(r.lo, r.hi) in s.vranges)
    && (forall id :: id in s.vranges && id in s.visible && s.visible[id] < snap.taken ==> s.vranges[id] in snap.rows)
  }

  ghost predicate SnapsInv(s: State) {
    && (s.cache.Some? ==> SnapInv(s, s.cache.value))
    && (forall t :: t in s.readers ==> SnapInv(s, s.readers[t]))
    && (forall t :: t in s.taking ==> s.taking[t] <= s.now)
  }

  ghost predicate Inv(s: State) {
    TableInv(s) && PendingInv(s) && SnapsInv(s)
  }

  lemma GateHasLeaves(s: State, id: Span)
    requires TableInv(s) && PassesGate(s.vranges, id) && id.hi > id.lo
    ensures LeavesUnder(s.vranges, id)
  {
    forall h | id.lo <= h <= id.hi ensures IsLeaf(s.vranges, h) {
      assert TiledAtIn(s.vranges, id, h);
      var k :| k in s.vranges && id.lo <= s.vranges[k].lo && s.vranges[k].hi <= id.hi && s.vranges[k].Covers(h);
      assert LeavesUnder(s.vranges, k);
    }
  }

  lemma SnapReadInv(s: State, snap: Snap)
    requires TableInv(s) && WalkOf(snap, s.vranges) && snap.taken <= s.now
    ensures SnapInv(s, snap)
  {
    forall r | r in snap.rows ensures WellFormedRow(r) && Span(r.lo, r.hi) in s.vranges {
      assert r in s.vranges.Values;
      var id :| id in s.vranges && s.vranges[id] == r;
      assert Span(r.lo, r.hi) == id;
    }
  }

  lemma ClaimKeepsInv(cfg: Config, s: State, e: Event, s': State)
    requires Inv(s) && e.ClaimStep? && ClaimNext(cfg, s, e, s')
    ensures Inv(s')
  {
    hide Claims;
    hide SnapInv;
    ClaimChangesOneRow(cfg, s.ranges, s.vranges, s.readers[e.t], e.w, e.q, e.resp, s'.ranges);
    SnapsStay(s, s');
  }

  /** A claim writes at most one row, a single block's, and never as verified. */
  lemma ClaimChangesOneRow(cfg: Config, ranges: RangeTable, v: VTable, snap: Snap, w: World, q: ClaimRequest,
                           resp: ClaimResponse, after: RangeTable)
    requires Claims(cfg, ranges, v, snap, w, q, resp, after)
    ensures forall id :: id in ranges ==> id in after
    ensures forall id :: id in after && after[id].status == Verified ==> id in ranges && after[id] == ranges[id]
  {
  }

  /** A step that leaves the verified table and the clock alone leaves every snapshot's guarantee alone. */
  lemma SnapsStay(s: State, s': State)
    requires SnapsInv(s) && s'.vranges == s.vranges && s'.visible == s.visible && s.now <= s'.now
    requires s'.cache == s.cache || s'.cache == None
    requires forall t :: t in s'.readers ==> t in s.readers && s'.readers[t] == s.readers[t]
    requires forall t :: t in s'.taking ==> t in s.taking && s'.taking[t] == s.taking[t]
    ensures SnapsInv(s')
  {
    hide SnapInv;
    if s'.cache.Some? {
      SnapStays(s, s', s.cache.value);
    }
    forall t | t in s'.readers ensures SnapInv(s', s'.readers[t]) {
      SnapStays(s, s', s.readers[t]);
    }
  }

  /** A commit becomes visible now, which is not before any snapshot in existence began. */
  lemma CommitKeepsSnap(s: State, id: Span, row: VRow, s': State, snap: Snap)
    requires TableInv(s) && SnapInv(s, snap) && row.lo == id.lo && row.hi == id.hi
    requires s'.vranges == s.vranges[id := row] && s'.visible == s.visible[id := s.now] && s'.now == s.now
    ensures SnapInv(s', snap)
  {
  }

  lemma LeavesStay(v: VTable, id: Span, row: VRow, k: Span)
    requires LeavesUnder(v, k)
    ensures LeavesUnder(v[id := row], k)
  {
    var v' := v[id := row];
    forall h | k.lo <= h <= k.hi ensures IsLeaf(v', h) {
      assert IsLeaf(v, h);
    }
  }

  lemma AcceptKeepsTables(s: State, id: Span, row: VRow, s': State)
    requires TableInv(s) && 1 <= id.lo <= id.hi && (id.hi > id.lo ==> LeavesUnder(s.vranges, id)) && id in s.ranges
    requires row.lo == id.lo && row.hi == id.hi
    requires s'.vranges == s.vranges[id := row] && s'.visible == s.visible[id := s.now] && s'.now == s.now
    requires s'.ranges == s.ranges[id := s.ranges[id].(status := Verified)]
    ensures TableInv(s')
    ensures forall k :: LeavesUnder(s.vranges, k) ==> LeavesUnder(s'.vranges, k)
  {
    hide LeavesUnder, IsLeaf;
    AcceptKeepsLeaves(s, id, row);
    assert s'.vranges.Keys == s.vranges.Keys + {id} == s'.visible.Keys;
    assert forall k :: k != id && k in s'.vranges ==> k in s.vranges && s'.vranges[k] == s.vranges[k];
    forall k | k in s'.vranges
      ensures 1 <= k.lo <= k.hi && s'.vranges[k].lo == k.lo && s'.vranges[k].hi == k.hi
      ensures k in s'.ranges && s'.visible[k] <= s'.now
    {
      if k != id {
        assert k in s.vranges;
      }
    }
  }

  lemma AcceptKeepsLeaves(s: State, id: Span, row: VRow)
    requires id.lo <= id.hi && (id.hi > id.lo ==> LeavesUnder(s.vranges, id))
    ensures forall k :: LeavesUnder(s.vranges, k) ==> LeavesUnder(s.vranges[id := row], k)
    ensures LeavesUnder(s.vranges[id := row], id)
  {
    hide LeavesUnder, IsLeaf;
    forall k | LeavesUnder(s.vranges, k) ensures LeavesUnder(s.vranges[id := row], k) {
      LeavesStay(s.vranges, id, row, k);
    }
    OwnLeaves(s, id, row);
  }

  lemma OwnLeaves(s: State, id: Span, row: VRow)
    requires id.lo <= id.hi && (id.hi > id.lo ==> LeavesUnder(s.vranges, id))
    ensures LeavesUnder(s.vranges[id := row], id)
  {
    if id.hi > id.lo {
      LeavesStay(s.vranges, id, row, id);
    } else {
      assert IsLeaf(s.vranges[id := row], id.lo);
    }
  }

  lemma AcceptedKeepsInv(s: State, t: Thread, id: Span, row: VRow, s': State)
    requires Inv(s) && t in s.pending && s.pending[t] == Pending(id, true) && id in s.ranges
    requires row.lo == id.lo && row.hi == id.hi
    requires s' == s.(pending := s.pending - {t}, ranges := s.ranges[id := s.ranges[id].(status := Verified)],
                      vranges := s.vranges[id := row], visible := s.visible[id := s.now])
    ensures Inv(s')
  {
    hide SnapInv, LeavesUnder;
    AcceptKeepsTables(s, id, row, s');
    if s.cache.Some? {
      CommitKeepsSnap(s, id, row, s', s.cache.value);
    }
    forall t | t in s'.readers ensures SnapInv(s', s'.readers[t]) {
      CommitKeepsSnap(s, id, row, s', s.readers[t]);
    }
  }

  lemma FaultedKeepsInv(s: State, t: Thread, id: Span, verdict: Verdict, s': State)
    requires Inv(s) && t in s.pending && id in s.ranges && !verdict.Accepted? && s.ranges[id].status != Verified
    requires s' == s.(pending := s.pending - {t}, ranges := s.ranges[id := Faulted(s.ranges[id], verdict)])
    ensures Inv(s')
  {
    hide SnapInv, LeavesUnder;
    assert Faulted(s.ranges[id], verdict).status != Verified;
    SnapsStay(s, s');
  }

  lemma CommitKeepsInv(s: State, e: Event, s': State)
    requires Inv(s) && e.CommitStep? && CommitNext(s, e, s')
    ensures Inv(s')
  {
    hide Inv;
    var id := s.pending[e.t].id;
    if s.ranges[id].status == Verified || e.refused {
      AbandonKeepsInv(s, e.t, s');
    } else if e.verdict.Accepted? {
      AcceptedKeepsInv(s, e.t, id, e.verdict.row, s');
    } else {
      FaultedKeepsInv(s, e.t, id, e.verdict, s');
    }
  }

  lemma GateKeepsInv(s: State, t: Thread, id: Span, s': State)
    requires Inv(s) && PassesGate(s.vranges, id) && s' == s.(pending := s.pending[t := Pending(id, false)])
    ensures Inv(s')
  {
    hide SnapInv, LeavesUnder;
    if id.hi > id.lo {
      GateHasLeaves(s, id);
    }
    SnapsStay(s, s');
  }

  lemma RowKeepsInv(s: State, id: Span, s': State)
    requires Inv(s) && id !in s.ranges && s' == s.(ranges := s.ranges[id := OPEN_ROW])
    ensures Inv(s')
  {
    hide SnapInv, LeavesUnder;
    SnapsStay(s, s');
  }

  lemma RowMadeKeepsInv(s: State, t: Thread, id: Span, s': State)
    requires Inv(s) && t in s.pending && s.pending[t].id == id && id in s.ranges
    requires s' == s.(pending := s.pending[t := Pending(id, true)])
    ensures Inv(s')
  {
    hide SnapInv, LeavesUnder;
    SnapsStay(s, s');
  }

  lemma OpenKeepsInv(s: State, t: Thread, id: Span, ranges: RangeTable, s': State)
    requires Inv(s) && t in s.pending && s.pending[t].id == id
    requires ranges == if id in s.ranges then s.ranges else s.ranges[id := OPEN_ROW]
    requires s' == s.(ranges := ranges, pending := s.pending[t := Pending(id, true)])
          || s' == s.(ranges := ranges, pending := s.pending - {t})
    ensures Inv(s')
  {
    hide Inv;
    var made := s.(ranges := ranges);
    if id in s.ranges {
      assert made == s;
    } else {
      RowKeepsInv(s, id, made);
    }
    if s' == s.(ranges := ranges, pending := s.pending - {t}) {
      AbandonKeepsInv(made, t, s');
    } else {
      RowMadeKeepsInv(made, t, id, s');
    }
  }

  lemma AbandonKeepsInv(s: State, t: Thread, s': State)
    requires Inv(s) && s' == s.(pending := s.pending - {t})
    ensures Inv(s')
  {
    hide SnapInv, LeavesUnder;
    SnapsStay(s, s');
  }

  lemma BeatKeepsInv(cfg: Config, s: State, id: Span, pk: Key, at: real, s': State)
    requires Inv(s) && s' == s.(ranges := Beaten(cfg, s.ranges, id, pk, at))
    ensures Inv(s')
  {
    hide SnapInv, LeavesUnder;
    assert forall id :: id in s'.ranges <==> id in s.ranges;
    assert forall id :: id in s'.ranges ==> s'.ranges[id].status == s.ranges[id].status;
    hide Beaten;
    SnapsStay(s, s');
  }

  lemma SnapStays(s: State, s': State, snap: Snap)
    requires SnapInv(s, snap) && s'.vranges == s.vranges && s'.visible == s.visible && s.now <= s'.now
    ensures SnapInv(s', snap)
  {
  }

  /** Snapshots come from snapshots, or from a walk over the table as it is. */
  lemma SnapsKeepInv(s: State, s': State)
    requires Inv(s)
    requires s' == s.(cache := s'.cache, taking := s'.taking, readers := s'.readers)
    requires forall t :: t in s'.taking ==> s'.taking[t] <= s.now
    requires s'.cache.Some? ==> SnapInv(s, s'.cache.value)
    requires forall t :: t in s'.readers ==> SnapInv(s, s'.readers[t])
    ensures Inv(s')
  {
    hide SnapInv, LeavesUnder;
    if s'.cache.Some? {
      SnapStays(s, s', s'.cache.value);
    }
    forall t | t in s'.readers ensures SnapInv(s', s'.readers[t]) {
      SnapStays(s, s', s'.readers[t]);
    }
  }

  lemma SnapStepsKeepInv(cfg: Config, s: State, e: Event, s': State)
    requires Inv(s) && Next(cfg, s, e, s')
    requires e.SnapBegin? || e.SnapRead? || e.SnapStore? || e.Invalidate? || e.ReadCache?
    ensures Inv(s')
  {
    hide SnapInv, WalkOf, TableInv, PendingInv;
    if e.SnapRead? {
      SnapReadInv(s, e.snap);
    }
    SnapsKeepInv(s, s');
  }

  lemma TickKeepsInv(s: State, to: real, s': State)
    requires Inv(s) && s.now <= to && s' == s.(now := to)
    ensures Inv(s')
  {
    hide SnapInv, LeavesUnder;
    SnapsStay(s, s');
  }

  lemma OpenStepKeepsInv(cfg: Config, s: State, e: Event, s': State)
    requires Inv(s) && Next(cfg, s, e, s') && e.OpenStep?
    ensures Inv(s')
  {
    hide Inv;
    OpenKeepsInv(s, e.t, s.pending[e.t].id, s'.ranges, s');
  }

  lemma NextKeepsInv(cfg: Config, s: State, e: Event, s': State)
    requires Inv(s) && Next(cfg, s, e, s')
    ensures Inv(s')
  {
    hide Inv;
    match e
    case Tick(to) => TickKeepsInv(s, to, s');
    case ClaimStep(_, _, _, _) => ClaimKeepsInv(cfg, s, e, s');
    case BeatStep(id, pk, at) => BeatKeepsInv(cfg, s, id, pk, at, s');
    case GateStep(t, id) => GateKeepsInv(s, t, id, s');
    case OpenStep(_) => OpenStepKeepsInv(cfg, s, e, s');
    case CommitStep(_, _, _) => CommitKeepsInv(s, e, s');
    case Abandon(t) => AbandonKeepsInv(s, t, s');
    case _ => SnapStepsKeepInv(cfg, s, e, s');
  }

  lemma {:induction false} RunKeepsInv(cfg: Config, run: Run, i: nat)
    requires IsRun(cfg, run) && i < |run.states|
    ensures Inv(run.states[i])
  {
    if i > 0 {
      RunKeepsInv(cfg, run, i - 1);
      assert StepAt(cfg, run, i - 1);
      NextKeepsInv(cfg, run.states[i-1], run.events[i-1], run.states[i]);
    }
  }
}
