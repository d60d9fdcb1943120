/** What every run of the board guarantees. */
module BoardTheorems {
  import opened Ranges
  import opened Frontier
  import opened FrontierLaws
  import opened BoardRules
  import opened BoardRuns
  import FoldTree
  import Contributions
  import Credit
  import Intervals
  import Rotation
  import Continuity

  // ---------- #281: only single blocks introduce coverage ----------

  /** In every interleaving, a covered block also has a verified range of its own. */
  lemma {:induction false} CoveredBlockHasItsOwnProof(cfg: Config, run: Run, i: nat, h: int)
    requires IsRun(cfg, run) && i < |run.states| && CoveredIn(run.states[i].vranges, h)
    ensures Span(h, h) in run.states[i].vranges
  {
    var s := run.states[i];
    RunKeepsInv(cfg, run, i);
    var id :| id in s.vranges && s.vranges[id].Covers(h);
    assert LeavesUnder(s.vranges, id);
    assert IsLeaf(s.vranges, h);
  }

  /** Verified ranges never leave the board. */
  lemma {:induction false} VerifiedStays(cfg: Config, run: Run, i: nat, j: nat)
    requires IsRun(cfg, run) && i <= j < |run.states|
    ensures run.states[i].vranges.Keys <= run.states[j].vranges.Keys
    decreases j - i
  {
    if i < j {
      VerifiedStays(cfg, run, i, j - 1);
      assert StepAt(cfg, run, j - 1);
    }
  }

  /** A pair once offered for folding passes the gate whenever its fold is submitted. */
  lemma {:induction false} OfferedFoldPassesGate(cfg: Config, run: Run, i: nat, j: nat, floor: int, claimed: set<Span>, o: FoldTree.Offer)
    requires IsRun(cfg, run) && i <= j < |run.states|
    requires FoldTree.Offerable(run.states[i].vranges.Keys, floor, claimed, o)
    ensures PassesGate(run.states[j].vranges, o.Parent())
  {
    RunKeepsInv(cfg, run, j);
    VerifiedStays(cfg, run, i, j);
    var v := run.states[j].vranges;
    forall h | o.Parent().lo <= h <= o.Parent().hi ensures TiledAtIn(v, o.Parent(), h) {
      if h <= o.left.hi {
        assert v[o.left].Covers(h);
      } else {
        assert v[o.right].Covers(h);
      }
    }
  }

  /** On a board reached by submits the gate lets in exactly the single blocks, from 1 on, and the ranges all of whose
      blocks have been proved one by one. */
  lemma {:induction false} GateOnBoard(cfg: Config, run: Run, i: nat, id: Span)
    requires IsRun(cfg, run) && i < |run.states|
    ensures var v := run.states[i].vranges;
            PassesGate(v, id) <==> 1 <= id.lo <= id.hi && (id.lo == id.hi || forall h :: id.lo <= h <= id.hi ==> Span(h, h) in v)
  {
    var s := run.states[i];
    RunKeepsInv(cfg, run, i);
    hide PendingInv, SnapsInv;
    if PassesGate(s.vranges, id) && id.lo < id.hi {
      GateHasLeaves(s, id);
      forall h | id.lo <= h <= id.hi ensures Span(h, h) in s.vranges {
        assert IsLeaf(s.vranges, h);
      }
    }
    if 1 <= id.lo <= id.hi && forall h :: id.lo <= h <= id.hi ==> Span(h, h) in s.vranges {
      forall h | id.lo <= h <= id.hi ensures TiledAtIn(s.vranges, id, h) {
        assert s.vranges[Span(h, h)].Covers(h);
      }
    }
  }

  /** The rows of a table, in any order. */
  ghost predicate Lists(rows: seq<VRow>, v: VTable) {
    forall r :: r in rows <==> r in v.Values
  }

  /** On a board reached by submits, the proved columns sum to at least the number of covered blocks. */
  lemma {:induction false} ProvedColumnsReachHeadline(cfg: Config, run: Run, i: nat, rows: seq<VRow>,
      edges: Rotation.Edges, totals: map<Key, Contributions.Totals>)
    requires IsRun(cfg, run) && i < |run.states| && Lists(rows, run.states[i].vranges)
    requires forall k :: k in totals ==> totals[k].proved == |Contributions.ProvedHeights(rows, edges, k)|
    requires forall k :: k !in totals ==> Contributions.ProvedHeights(rows, edges, k) == {}
    ensures |Intervals.Heights(Contributions.SpansOf(rows))| <= Contributions.SumProved(totals)
  {
    RunKeepsInv(cfg, run, i);
    ListedRows(run.states[i], rows);
    forall h | CoveredBy(rows, h) ensures exists k :: 0 <= k < |rows| && rows[k].lo == h && rows[k].hi == h {
      var n :| 0 <= n < |rows| && rows[n].Covers(h);
      var id := RowsId(run.states[i], rows, rows[n]);
      CoveredBlockHasItsOwnProof(cfg, run, i, h);
      var leaf := run.states[i].vranges[Span(h, h)];
      assert leaf in rows;
    }
    Contributions.ProvedSumsToHeadline(rows, edges, totals);
  }

  /** On a board reached by submits whose ranges are tree nodes, the proved columns sum to exactly the number of covered
      blocks if and only if no block was proved under two heads; and so they do when each wide range is made of two
      earlier ones. */
  lemma {:induction false} ProvedColumnsAreHeadline(cfg: Config, run: Run, i: nat, rows: seq<VRow>,
      edges: Rotation.Edges, totals: map<Key, Contributions.Totals>)
    requires IsRun(cfg, run) && i < |run.states| && Lists(rows, run.states[i].vranges)
    requires Credit.NodesOnly(rows)
    requires forall k :: k in totals ==> totals[k].proved == |Contributions.ProvedHeights(rows, edges, k)|
    requires forall k :: k !in totals ==> Contributions.ProvedHeights(rows, edges, k) == {}
    ensures var exact := Contributions.SumProved(totals) == |Intervals.Heights(Contributions.SpansOf(rows))|;
            && (exact <==> Credit.OneProverEach(rows, edges))
            && (Credit.WideRowsAreJoins(rows) ==> exact)
  {
    RunKeepsInv(cfg, run, i);
    ListedRows(run.states[i], rows);
    Credit.ColumnsAreHeadlineExactly(rows, edges, totals);
    if Credit.WideRowsAreJoins(rows) {
      JoinsLeaveOneProver(run.states[i], rows, edges);
    }
  }

  /** With one row a block, and every wide row a join, there is one prover a block. */
  lemma JoinsLeaveOneProver(s: State, rows: seq<VRow>, edges: Rotation.Edges)
    requires TableInv(s) && Lists(rows, s.vranges) && Credit.WideRowsAreJoins(rows)
    ensures Credit.OneProverEach(rows, edges)
  {
    hide Credit.JoinsTwo, Rotation.Resolve;
    ListedRows(s, rows);
    forall m, n | 0 <= m < |rows| && 0 <= n < |rows| && !Credit.JoinsTwo(rows, m) && !Credit.JoinsTwo(rows, n)
                  && rows[m].lo <= rows[n].hi && rows[n].lo <= rows[m].hi
      ensures rows[m] == rows[n]
    {
      assert WellFormedRow(rows[m]) && WellFormedRow(rows[n]);
      var a := RowsId(s, rows, rows[m]);
      var b := RowsId(s, rows, rows[n]);
    }
  }

  lemma RowsId(s: State, rows: seq<VRow>, r: VRow) returns (id: Span)
    requires TableInv(s) && Lists(rows, s.vranges) && r in rows
    ensures id in s.vranges && s.vranges[id] == r && id == Span(r.lo, r.hi)
  {
    assert r in s.vranges.Values;
    id :| id in s.vranges && s.vranges[id] == r;
  }

  lemma ListedRows(s: State, rows: seq<VRow>)
    requires TableInv(s) && Lists(rows, s.vranges)
    ensures WellFormedRows(rows)
  {
    forall i | 0 <= i < |rows| ensures WellFormedRow(rows[i]) {
      var id := RowsId(s, rows, rows[i]);
    }
  }

  /** A board reached by submits has one record per height, which is what lets a continuity pass bound the
      frontier from below. */
  lemma {:induction false} ContinuityBoundsFrontier(cfg: Config, run: Run, i: nat, rows: seq<VRow>, n: nat, spineTip: Option<string>, e: End)
    requires IsRun(cfg, run) && i < |run.states| && Lists(rows, run.states[i].vranges)
    requires n >= 1 && Continuity.Passes(rows, n, {}, spineTip) && IsFrontier(rows, e)
    ensures exists p :: IsChain(rows, p) && |p| == n && EndOf(p).hi == n && Some(EndOf(p).tip) == spineTip
                     && (ChainWork(p) < e.work || (ChainWork(p) == e.work && n <= e.hi))
  {
    RunKeepsInv(cfg, run, i);
    forall h, r, t | 1 <= h <= n && r in rows && t in rows && Continuity.Single(r, h) && Continuity.Single(t, h)
      ensures r == t
    {
      var a := RowsId(run.states[i], rows, r);
      var b := RowsId(run.states[i], rows, t);
    }
    Continuity.PassBoundsFrontier(rows, n, spineTip, e);
    var p := Continuity.Records(rows, n);
    assert Continuity.Single(p[n-1], n);
    assert EndOf(p).hi == n;
  }

  // ---------- #339: the stale snapshot ----------

  /** A commit becomes visible less than the settling time after its row was stamped. */
  predicate Prompt(cfg: Config, s: State, e: Event) {
    e.CommitStep? && e.verdict.Accepted? ==> s.now - cfg.frontierSettle < e.verdict.row.ts
  }

  ghost predicate PromptUpTo(cfg: Config, run: Run, i: nat)
    requires i < |run.states| && |run.states| == |run.events| + 1
  {
    forall j :: 0 <= j < i ==> Prompt(cfg, run.states[j], run.events[j])
  }

  lemma {:induction false} StampsAreRecent(cfg: Config, run: Run, i: nat)
    requires IsRun(cfg, run) && i < |run.states| && PromptUpTo(cfg, run, i)
    ensures var s := run.states[i];
            forall id :: id in s.vranges ==> id in s.visible && s.visible[id] - cfg.frontierSettle < s.vranges[id].ts
  {
    if i > 0 {
      StampsAreRecent(cfg, run, i - 1);
      assert StepAt(cfg, run, i - 1);
      assert Prompt(cfg, run.states[i-1], run.events[i-1]);
    }
  }

  /** A claim turns a verified row back into a claim only on the re-offer path. */
  lemma {:induction false} OnlyReofferOverwritesProof(cfg: Config, run: Run, i: nat, h: int)
    requires IsRun(cfg, run) && i < |run.events| && run.events[i].ClaimStep?
    requires run.events[i].resp == Granted(h)
    requires Span(h, h) in run.states[i].ranges && run.states[i].ranges[Span(h, h)].status == Verified
    ensures var s, e := run.states[i], run.events[i];
            e.t in s.readers && Reoffers(cfg, s.ranges, s.vranges, s.readers[e.t], e.w, e.q) && h == s.readers[e.t].frontier.hi + 1
  {
    hide PendingInv, SnapsInv, Held;
    RunKeepsInv(cfg, run, i);
    var s, e := run.states[i], run.events[i];
    assert StepAt(cfg, run, i);
    assert s.vranges[Span(h, h)].Covers(h);
    assert CoveredIn(s.vranges, h);
    assert !Available(cfg, s.ranges, s.vranges, e.w, e.q, h);
  }

  /** When commits are prompt, a re-offered block's covers had all been read by the snapshot that judged them,
      and none of them continues any best chain of that snapshot: each is a cover that cannot seam. */
  lemma {:induction false} ReofferedCoversCannotSeam(cfg: Config, run: Run, i: nat, id: Span)
    requires IsRun(cfg, run) && i < |run.events| && PromptUpTo(cfg, run, i) && run.events[i].ClaimStep?
    requires var s, e := run.states[i], run.events[i];
             e.t in s.readers && Reoffers(cfg, s.ranges, s.vranges, s.readers[e.t], e.w, e.q)
             && id in s.vranges && s.vranges[id].Covers(s.readers[e.t].frontier.hi + 1)
             && s.vranges[id].Work() >= 0
    ensures var s, snap := run.states[i], run.states[i].readers[run.events[i].t];
            && s.vranges[id] in snap.rows
            && forall p :: IsChain(snap.rows, p) && SameRank(EndOf(p), snap.frontier) ==> !Continues(p, s.vranges[id])
  {
    RunKeepsInv(cfg, run, i);
    StampsAreRecent(cfg, run, i);
    var s, snap := run.states[i], run.states[i].readers[run.events[i].t];
    assert SnapInv(s, snap);
    assert s.visible[id] < snap.taken;
    forall p | IsChain(snap.rows, p) && SameRank(EndOf(p), snap.frontier) ensures !Continues(p, s.vranges[id]) {
      NothingContinuesFrontier(snap.rows, snap.frontier, p, s.vranges[id]);
    }
  }

  /** Every commit of the first i steps becomes visible at most `lag` after its row was stamped. */
  ghost predicate LagsAtMost(run: Run, i: nat, lag: real)
    requires i < |run.states| && |run.states| == |run.events| + 1
  {
    forall j :: 0 <= j < i ==> VisibleWithin(run.states[j], run.events[j], lag)
  }

  predicate VisibleWithin(s: State, e: Event, lag: real) {
    e.CommitStep? && e.verdict.Accepted? ==> s.now - lag <= e.verdict.row.ts
  }

  /** Step i re-offers a block, and the row id, of non-negative work, covers it. */
  ghost predicate ReoffersOver(cfg: Config, run: Run, i: nat, id: Span)
    requires i < |run.events| && |run.states| == |run.events| + 1
  {
    var s, e := run.states[i], run.events[i];
    && e.ClaimStep? && e.t in s.readers && Reoffers(cfg, s.ranges, s.vranges, s.readers[e.t], e.w, e.q)
    && id in s.vranges && s.vranges[id].Covers(s.readers[e.t].frontier.hi + 1) && s.vranges[id].Work() >= 0
  }

  /** The snapshot that judged step i had read that row, and the row continues none of its best chains. */
  ghost predicate CannotSeam(run: Run, i: nat, id: Span)
    requires i < |run.events| && |run.states| == |run.events| + 1
  {
    var s, e := run.states[i], run.events[i];
    && e.ClaimStep? && e.t in s.readers && id in s.vranges
    && var snap := s.readers[e.t];
       && s.vranges[id] in snap.rows
       && forall p :: IsChain(snap.rows, p) && SameRank(EndOf(p), snap.frontier) ==> !Continues(p, s.vranges[id])
  }

  /** The guarantee, for all runs whose commits lag at most `lag`. */
  ghost predicate ReoffersAreSafe(cfg: Config, lag: real) {
    forall run: Run, i: nat, id: Span ::
      IsRun(cfg, run) && i < |run.events| && LagsAtMost(run, i, lag) && ReoffersOver(cfg, run, i, id) ==> CannotSeam(run, i, id)
  }

  lemma ShortLagIsSafe(cfg: Config, lag: real)
    requires lag < cfg.frontierSettle
    ensures ReoffersAreSafe(cfg, lag)
  {
    forall run: Run, i: nat, id: Span
      | IsRun(cfg, run) && i < |run.events| && LagsAtMost(run, i, lag) && ReoffersOver(cfg, run, i, id)
      ensures CannotSeam(run, i, id)
    {
      forall j | 0 <= j < i ensures Prompt(cfg, run.states[j], run.events[j]) {
        assert VisibleWithin(run.states[j], run.events[j], lag);
      }
      ReofferedCoversCannotSeam(cfg, run, i, id);
    }
  }

  // ---------- #268: a retried claim ----------

  /** Verifying a claim's signature and waiting for the lock take at most `wait`: a claim acts on a test of its signed
      time, and a beat on a clock reading, no older than that. */
  predicate WaitsAtMost(s: State, e: Event, wait: real) {
    && (e.ClaimStep? ==> s.now - wait <= e.q.at && (e.q.Signed() ==> s.now - wait <= e.q.checkedAt))
    && (e.BeatStep? ==> s.now - wait <= e.at)
  }

  predicate Carries(r: RangeRow, pk: Key, nonce: nat) {
    r.status == Claimed && r.assignee == pk && r.nonce == Some(nonce)
  }

  /** The event is an attempt of this very claim: same key, nonce and signed time. */
  predicate Attempt(e: Event, pk: Key, nonce: nat, ts: real) {
    e.ClaimStep? && e.q.pk == pk && e.q.nonce == Some(nonce) && e.q.signedAt == Some(ts)
  }

  /** The nonce is fresh: no other claim of this key uses it. */
  predicate NonceIsOurs(e: Event, pk: Key, nonce: nat, ts: real) {
    e.ClaimStep? && e.q.pk == pk && e.q.nonce == Some(nonce) ==> Attempt(e, pk, nonce, ts)
  }

  /** The step verifies or parks block h. */
  predicate Settles(s: State, e: Event, h: int) {
    && e.CommitStep? && e.t in s.pending && s.pending[e.t].id == Span(h, h) && Span(h, h) in s.ranges
    && !e.refused
    && (e.verdict.Accepted? || Faulted(s.ranges[Span(h, h)], e.verdict).status == Failed)
  }

  /** Between two attempts: lock waits are bounded, the nonce stays ours, and h is neither verified nor parked. */
  predicate Quiet(s: State, e: Event, pk: Key, nonce: nat, ts: real, h: int, wait: real) {
    WaitsAtMost(s, e, wait) && NonceIsOurs(e, pk, nonce, ts) && !Settles(s, e, h)
  }

  /** Exactly one row carries the claim, and it has not lapsed in any way. */
  ghost predicate Carried(s: State, pk: Key, nonce: nat, h: int, at: real, wait: real) {
    && Span(h, h) in s.ranges && Carries(s.ranges[Span(h, h)], pk, nonce)
    && s.ranges[Span(h, h)].claimedAt == at && LastSign(s.ranges[Span(h, h)]) >= at - wait
    && forall id :: id in s.ranges && Carries(s.ranges[id], pk, nonce) ==> id == Span(h, h)
  }

  predicate SkewFits(cfg: Config, wait: real) {
    && 0.0 <= wait
    && 2.0 * cfg.beatSkew + 2.0 * wait < cfg.claimGrace
    && 2.0 * cfg.beatSkew + 2.0 * wait < cfg.claimTtl
    && 2.0 * cfg.beatSkew + 2.0 * wait < cfg.claimMax
  }

  lemma CarriedBlockIsHeld(cfg: Config, s: State, e: Event, s': State, pk: Key, nonce: nat, h: int, at: real, wait: real)
    requires e.ClaimStep? && ClaimNext(cfg, s, e, s') && Carried(s, pk, nonce, h, at, wait) && SkewFits(cfg, wait)
    requires s.now <= at + 2.0 * cfg.beatSkew + wait
    ensures HeldByClaim(cfg, s.ranges, e.q.at, h)
    ensures e.resp != Granted(h)
  {
    var r := s.ranges[Span(h, h)];
    assert r.status == Claimed && LastSign(r) > e.q.at - cfg.claimTtl;
    assert r.claimedAt > e.q.at - cfg.claimMax && r.claimedAt > e.q.at - cfg.claimGrace;
    assert Live(cfg, r, e.q.at);
    assert HeldByClaim(cfg, s.ranges, e.q.at, h);
  }

  /** An attempt while the claim is carried is answered with it, and changes nothing. */
  lemma RetryIsAnswered(cfg: Config, s: State, e: Event, s': State, pk: Key, nonce: nat, ts: real, h: int, at: real, wait: real)
    requires Attempt(e, pk, nonce, ts) && pk != NO_KEY && ClaimNext(cfg, s, e, s')
    requires Carried(s, pk, nonce, h, at, wait) && SkewFits(cfg, wait) && s.now <= at + 2.0 * cfg.beatSkew + wait
    ensures e.resp == Again(Span(h, h)) && s'.ranges == s.ranges
  {
    assert MadeBy(cfg, s.ranges[Span(h, h)], e.q);
    assert AlreadyMade(cfg, s.ranges, e.q);
  }

  lemma ClaimWritesItsRow(cfg: Config, ranges: RangeTable, v: VTable, snap: Snap, w: World, q: ClaimRequest,
                          resp: ClaimResponse, after: RangeTable)
    requires Claims(cfg, ranges, v, snap, w, q, resp, after)
    ensures if resp.Granted? then after == ranges[Span(resp.height, resp.height) := ClaimRow(q)] else after == ranges
  {
  }

  /** A claim that is not granted block h, nor carries the nonce itself, leaves the carried row alone. */
  lemma OtherClaimKeepsCarried(s: State, q: ClaimRequest, k: int, s': State, pk: Key, nonce: nat, h: int, at: real, wait: real)
    requires Carried(s, pk, nonce, h, at, wait) && k != h && !(q.pk == pk && q.nonce == Some(nonce))
    requires s'.ranges == s.ranges[Span(k, k) := ClaimRow(q)]
    ensures Carried(s', pk, nonce, h, at, wait)
  {
  }

  lemma ClaimKeepsCarried(cfg: Config, s: State, e: Event, s': State, pk: Key, nonce: nat, ts: real, h: int, at: real, wait: real)
    requires e.ClaimStep? && ClaimNext(cfg, s, e, s') && pk != NO_KEY && SkewFits(cfg, wait)
    requires Carried(s, pk, nonce, h, at, wait) && s.now <= at + 2.0 * cfg.beatSkew + wait
    requires NonceIsOurs(e, pk, nonce, ts)
    ensures Carried(s', pk, nonce, h, at, wait)
  {
    hide Claims;
    ClaimWritesItsRow(cfg, s.ranges, s.vranges, s.readers[e.t], e.w, e.q, e.resp, s'.ranges);
    CarriedBlockIsHeld(cfg, s, e, s', pk, nonce, h, at, wait);
    if Attempt(e, pk, nonce, ts) {
      RetryIsAnswered(cfg, s, e, s', pk, nonce, ts, h, at, wait);
    } else if e.resp.Granted? {
      OtherClaimKeepsCarried(s, e.q, e.resp.height, s', pk, nonce, h, at, wait);
    }
  }

  lemma BeatKeepsCarried(cfg: Config, s: State, e: Event, s': State, pk: Key, nonce: nat, h: int, at: real, wait: real)
    requires e.BeatStep? && s'.ranges == Beaten(cfg, s.ranges, e.id, e.pk, e.at)
    requires Carried(s, pk, nonce, h, at, wait) && at <= s.now && WaitsAtMost(s, e, wait)
    ensures Carried(s', pk, nonce, h, at, wait)
  {
  }

  lemma CommitKeepsCarried(s: State, e: Event, s': State, pk: Key, nonce: nat, h: int, at: real, wait: real)
    requires e.CommitStep? && CommitNext(s, e, s')
    requires Carried(s, pk, nonce, h, at, wait) && !Settles(s, e, h)
    ensures Carried(s', pk, nonce, h, at, wait)
  {
  }

  lemma StepKeepsCarried(cfg: Config, s: State, e: Event, s': State, pk: Key, nonce: nat, ts: real, h: int, at: real, wait: real)
    requires Next(cfg, s, e, s') && pk != NO_KEY && SkewFits(cfg, wait)
    requires Carried(s, pk, nonce, h, at, wait) && at <= s.now <= at + 2.0 * cfg.beatSkew + wait
    requires Quiet(s, e, pk, nonce, ts, h, wait)
    ensures Carried(s', pk, nonce, h, at, wait)
  {
    hide ClaimNext, CommitNext;
    match e
    case ClaimStep(_, _, _, _) =>
      hide Carried;
      ClaimKeepsCarried(cfg, s, e, s', pk, nonce, ts, h, at, wait);
    case BeatStep(_, _, _) =>
      hide Carried;
      BeatKeepsCarried(cfg, s, e, s', pk, nonce, h, at, wait);
    case CommitStep(_, _, _) =>
      hide Carried;
      CommitKeepsCarried(s, e, s', pk, nonce, h, at, wait);
    case _ =>
  }

  lemma ClockAdvances(cfg: Config, run: Run, k: nat)
    requires IsRun(cfg, run) && k < |run.events|
    ensures run.states[k].now <= run.states[k+1].now
  {
    assert StepAt(cfg, run, k);
  }

  lemma RunStepKeepsCarried(cfg: Config, run: Run, k: nat, pk: Key, nonce: nat, ts: real, h: int, at: real, wait: real)
    requires IsRun(cfg, run) && k < |run.events| && pk != NO_KEY && SkewFits(cfg, wait)
    requires var s := run.states[k]; Carried(s, pk, nonce, h, at, wait) && at <= s.now <= at + 2.0 * cfg.beatSkew + wait
    requires Quiet(run.states[k], run.events[k], pk, nonce, ts, h, wait)
    ensures Carried(run.states[k+1], pk, nonce, h, at, wait)
  {
    assert StepAt(cfg, run, k);
    StepKeepsCarried(cfg, run.states[k], run.events[k], run.states[k+1], pk, nonce, ts, h, at, wait);
  }

  ghost predicate QuietBetween(run: Run, i: nat, j: nat, pk: Key, nonce: nat, ts: real, h: int, wait: real)
    requires |run.states| == |run.events| + 1 && j < |run.states|
  {
    forall k :: i <= k < j ==> Quiet(run.states[k], run.events[k], pk, nonce, ts, h, wait)
  }

  lemma {:induction false} ClaimStaysCarried(cfg: Config, run: Run, i: nat, j: nat, pk: Key, nonce: nat, ts: real, h: int, at: real, wait: real)
    requires IsRun(cfg, run) && i <= j < |run.states| && pk != NO_KEY && SkewFits(cfg, wait)
    requires Carried(run.states[i], pk, nonce, h, at, wait) && at <= run.states[i].now
    requires run.states[j].now <= at + 2.0 * cfg.beatSkew + wait
    requires QuietBetween(run, i, j, pk, nonce, ts, h, wait)
    ensures Carried(run.states[j], pk, nonce, h, at, wait) && at <= run.states[j].now
    decreases j - i
  {
    if i < j {
      ClockAdvances(cfg, run, j - 1);
      assert Quiet(run.states[j-1], run.events[j-1], pk, nonce, ts, h, wait);
      ClaimStaysCarried(cfg, run, i, j - 1, pk, nonce, ts, h, at, wait);
      RunStepKeepsCarried(cfg, run, j - 1, pk, nonce, ts, h, at, wait);
    }
  }

  /** Over a lossy channel, every later attempt of one signed claim is handed the block the first one was
      granted and orphans nothing, unless that block is verified or parked in between. */
  lemma {:induction false} RetriesGetTheSameBlock(cfg: Config, run: Run, i: nat, j: nat, pk: Key, nonce: nat, ts: real, h: int, wait: real)
    requires IsRun(cfg, run) && i < j < |run.events| && pk != NO_KEY && SkewFits(cfg, wait)
    requires Attempt(run.events[i], pk, nonce, ts) && run.events[i].resp == Granted(h)
    requires Attempt(run.events[j], pk, nonce, ts)
    requires forall id :: id in run.states[i].ranges ==> !Carries(run.states[i].ranges[id], pk, nonce)
    requires QuietBetween(run, i, j + 1, pk, nonce, ts, h, wait)
    ensures run.events[j].resp == Again(Span(h, h)) && run.states[j+1].ranges == run.states[j].ranges
    ensures forall id :: id in run.states[j].ranges && Carries(run.states[j].ranges[id], pk, nonce) <==> id == Span(h, h)
  {
    var at := run.events[i].q.at;
    var s, e := run.states[j], run.events[j];
    assert StepAt(cfg, run, i);
    assert StepAt(cfg, run, j);
    assert Quiet(s, e, pk, nonce, ts, h, wait);
    assert s.now <= e.q.checkedAt + wait <= ts + cfg.beatSkew + wait;
    assert ts - cfg.beatSkew <= run.events[i].q.checkedAt <= at;
    assert Carried(run.states[i+1], pk, nonce, h, at, wait);
    ClaimStaysCarried(cfg, run, i + 1, j, pk, nonce, ts, h, at, wait);
    RetryIsAnswered(cfg, s, e, run.states[j+1], pk, nonce, ts, h, at, wait);
  }

  // ---------- pick and claim agree ----------

  /** With no peers, no re-offer and no re-take hold, what pick suggests is what claim hands out: each reads
      its own snapshot, and the blocks up to a frontier, even a stale one, are all covered, so starting above it skips
      nothing. */
  lemma PickAgreesWithClaim(cfg: Config, run: Run, i: nat, seen: Snap, snap: Snap, w: World, q: ClaimRequest,
                                               r: Option<int>, resp: ClaimResponse, after: RangeTable)
    requires IsRun(cfg, run) && i < |run.states| && SnapInv(run.states[i], seen) && SnapInv(run.states[i], snap)
    requires var s := run.states[i];
             && Picks(cfg, s.ranges, s.vranges, w, q.at, seen.frontier.hi, {}, {}, r)
             && Claims(cfg, s.ranges, s.vranges, snap, w, q, resp, after)
             && !AlreadyMade(cfg, s.ranges, q) && !AtCap(cfg, s.ranges, q)
             && !Reoffers(cfg, s.ranges, s.vranges, snap, w, q)
             && (forall h :: !HeldForKey(cfg, s.ranges, q, h))
    requires w.ceiling <= PickStart(seen.frontier.hi) + PICK_WINDOW
    ensures match r case Some(h) => resp == Granted(h) case None => resp == Nothing
  {
    RunKeepsInv(cfg, run, i);
    var s := run.states[i];
    var n := PickStart(seen.frontier.hi);
    var none: set<int> := {};
    assert none + none == none;
    assert PickPass(cfg, s.ranges, s.vranges, w, q.at, {}, n, r);
    forall h ensures Available(cfg, s.ranges, s.vranges, w, q, h)
              <==> n <= h && Suggestible(cfg, s.ranges, s.vranges, w, q.at, {}, h)
    {
      if 1 <= h < n {
        StaleFrontierStillCovers(s, seen, h);
      }
    }
  }

  /** Every height up to a snapshot's frontier is covered now, however old the snapshot is. */
  lemma StaleFrontierStillCovers(s: State, snap: Snap, h: int)
    requires SnapInv(s, snap) && 1 <= h <= snap.frontier.hi
    requires forall id :: id in s.vranges ==> s.vranges[id].lo == id.lo && s.vranges[id].hi == id.hi
    ensures CoveredIn(s.vranges, h)
  {
    FrontierCovers(snap.rows, snap.frontier, h);
    var k :| 0 <= k < |snap.rows| && snap.rows[k].Covers(h);
    var r := snap.rows[k];
    assert r in snap.rows;
    assert s.vranges[Span(r.lo, r.hi)].Covers(h);
  }
}
