/** The settling time is exact: whatever it is set to, a commit that takes as long can be re-offered although it
    seams. */
module BoardLimits {
  import opened Ranges
  import opened Frontier
  import opened FrontierLaws
  import opened BoardRules
  import opened BoardRuns
  import opened BoardTheorems

  const B1 := Span(1, 1)

  /** A genuine proof of block 1, stamped at 70. */
  const PROOF := VRow(1, 1, GENESIS_TIP, "t1", Some("d0"), Some("d1"), Some(5), Some(1), 7, 70.0)

  /** When a commit with this lag becomes visible. */
  function At(lag: real): real {
    70.0 + lag
  }

  /** A walk that began at that moment, just before the commit, and saw an empty table. */
  function Early(lag: real): Snap {
    Snap(At(lag), [], EMPTY)
  }

  function Asker(lag: real): ClaimRequest {
    ClaimRequest(8, None, None, At(lag), At(lag))
  }

  function StateAt(now: real, ranges: RangeTable): State {
    State(now, ranges, map[], map[], None, map[], map[], map[])
  }

  const WORLD := World(10, {1}, {})
  const VERIFIED_ROW := OPEN_ROW.(status := Verified)

  function S0(): State { StateAt(0.0, map[]) }
  function S1(lag: real): State { StateAt(At(lag), map[]) }
  function S2(lag: real): State { S1(lag).(pending := map[0 := Pending(B1, false)]) }
  function S3(lag: real): State { S2(lag).(ranges := map[B1 := OPEN_ROW], pending := map[0 := Pending(B1, true)]) }
  function S4(lag: real): State { S3(lag).(taking := map[1 := At(lag)]) }
  function S5(lag: real): State { S4(lag).(taking := map[], readers := map[1 := Early(lag)]) }
  function S6(lag: real): State {
    S5(lag).(ranges := map[B1 := VERIFIED_ROW], vranges := map[B1 := PROOF], visible := map[B1 := At(lag)], pending := map[])
  }
  function S7(lag: real): State { S6(lag).(ranges := map[B1 := ClaimRow(Asker(lag))], readers := map[]) }

  const COMMIT := CommitStep(0, false, Accepted(PROOF))

  function ClaimAt(lag: real): Event {
    ClaimStep(1, WORLD, Asker(lag), Granted(1))
  }

  function LateRun(lag: real): Run {
    Run([S0(), S1(lag), S2(lag), S3(lag), S4(lag), S5(lag), S6(lag), S7(lag)],
        [Tick(At(lag)), GateStep(0, B1), OpenStep(0), SnapBegin(1), SnapRead(1, Early(lag)), COMMIT, ClaimAt(lag)])
  }

  lemma EarlyWalk(lag: real)
    ensures IsFrontier([], EMPTY) && WalkOf(Early(lag), map[])
  {
    var none: seq<VRow> := [];
    var empty: VTable := map[];
    assert IsChain(none, []) && EndOf([]) == EMPTY;
    assert forall r :: r !in empty.Values;
  }

  lemma Opening(cfg: Config, lag: real)
    requires lag >= 0.0
    ensures Next(cfg, S0(), Tick(At(lag)), S1(lag))
    ensures Next(cfg, S1(lag), GateStep(0, B1), S2(lag))
    ensures Next(cfg, S2(lag), OpenStep(0), S3(lag))
  {
  }

  lemma Walk(cfg: Config, lag: real)
    ensures Next(cfg, S3(lag), SnapBegin(1), S4(lag))
    ensures Next(cfg, S4(lag), SnapRead(1, Early(lag)), S5(lag))
  {
    EarlyWalk(lag);
    assert S4(lag).taking - {1} == S5(lag).taking;
  }

  lemma LateCommit(cfg: Config, lag: real)
    requires lag >= 0.0
    ensures Next(cfg, S5(lag), COMMIT, S6(lag))
  {
    assert S5(lag).pending - {0} == S6(lag).pending;
  }

  lemma LateReoffer(cfg: Config, lag: real)
    requires lag >= cfg.frontierSettle
    ensures Reoffers(cfg, S6(lag).ranges, S6(lag).vranges, Early(lag), WORLD, Asker(lag))
  {
    assert B1 in S6(lag).vranges && S6(lag).vranges[B1].Covers(1);
    assert !HeldByClaim(cfg, S6(lag).ranges, At(lag), 1);
    assert !HeldForKey(cfg, S6(lag).ranges, Asker(lag), 1);
  }

  lemma LateClaim(cfg: Config, lag: real)
    requires lag >= cfg.frontierSettle
    ensures Next(cfg, S6(lag), ClaimAt(lag), S7(lag))
  {
    LateReoffer(cfg, lag);
    assert OpenClaims(cfg, S6(lag).ranges, Asker(lag)) == {};
    assert S6(lag).ranges[Span(1, 1) := ClaimRow(Asker(lag))] == S7(lag).ranges;
    assert S6(lag).readers - {1} == S7(lag).readers;
  }

  lemma LateRunIsRun(cfg: Config, lag: real)
    requires lag >= 0.0 && lag >= cfg.frontierSettle
    ensures IsRun(cfg, LateRun(lag))
  {
    Opening(cfg, lag);
    Walk(cfg, lag);
    LateCommit(cfg, lag);
    LateClaim(cfg, lag);
    hide Next;
    forall i | 0 <= i < |LateRun(lag).events| ensures StepAt(cfg, LateRun(lag), i) {
      assert i == 0 || i == 1 || i == 2 || i == 3 || i == 4 || i == 5 || i == 6;
    }
  }

  /** Whatever the settings, a lag of the settling time or more lets a run re-offer block 1 although its proof seams onto
      the snapshot's frontier, and overwrite the verified row. */
  lemma LagOfTheSettlingTimeIsTooMuch(cfg: Config, lag: real)
    requires lag >= 0.0 && lag >= cfg.frontierSettle
    ensures var run := LateRun(lag);
            && IsRun(cfg, run) && LagsAtMost(run, 6, lag) && ReoffersOver(cfg, run, 6, B1) && !CannotSeam(run, 6, B1)
            && run.events[6].resp == Granted(1) && run.states[6].ranges[B1].status == Verified
            && IsChain(Early(lag).rows, []) && Continues([], PROOF)
  {
    LateRunIsRun(cfg, lag);
    hide Next, IsRun;
    LateReoffer(cfg, lag);
    var run := LateRun(lag);
    forall j | 0 <= j < 6 ensures VisibleWithin(run.states[j], run.events[j], lag) {
      assert j == 0 || j == 1 || j == 2 || j == 3 || j == 4 || j == 5;
    }
  }

  /** The exact condition: re-offers are safe in all runs of lag at most L if and only if L is below the settling
      time. */
  lemma SafeIffLagBelowSettlingTime(cfg: Config, lag: real)
    requires lag >= 0.0
    ensures ReoffersAreSafe(cfg, lag) <==> lag < cfg.frontierSettle
  {
    hide IsRun, LagsAtMost, ReoffersOver, CannotSeam;
    if lag < cfg.frontierSettle {
      ShortLagIsSafe(cfg, lag);
    } else {
      LagOfTheSettlingTimeIsTooMuch(cfg, lag);
    }
  }
}
