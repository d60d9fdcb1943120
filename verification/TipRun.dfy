/** One block driven across the fleet: bounded polls of the chunk phase, the staging gate, the aggregate. */
module TipRun {
  import opened Ranges
  import opened TipFleet

  /** What the runner reports at one poll: the probes, the clock, and the receipts it managed to collect. */
  datatype Poll = Poll(probes: map<Card, Probe>, now: real, collected: set<Chunk>)

  /** The aggregator's status at one poll. */
  datatype AggPoll = AggPoll(verified: bool, unreachable: bool, alive: bool)

  /** One thing done during the chunk phase; `ok` says a receipt was collected. */
  datatype Entry = Entry(at: real, action: Action, ok: bool)

  type Log = seq<Entry>

  datatype Outcome = NoCards | FleetNotEmpty | NotStaged | AggregatorGone | AggregateDied | NeverVerified | Verified

  predicate AggregateStarted(o: Outcome) {
    o == AggregatorGone || o == AggregateDied || o == NeverVerified || o == Verified
  }

  // ---------- what the log must satisfy ----------

  predicate RecoversAt(log: Log, n: nat, c: Chunk)
    requires n < |log|
  {
    IsRecovery(log[n].action) && log[n].action.chunk == c
  }

  function Recoveries(log: Log, c: Chunk): nat {
    if log == [] then 0
    else Recoveries(log[..|log|-1], c) + (if RecoversAt(log, |log| - 1, c) then 1 else 0)
  }

  /** t0 + n * stall. */
  function Deadline(t0: real, stall: real, n: nat): real {
    if n == 0 then t0 else Deadline(t0, stall, n - 1) + stall
  }

  lemma {:induction false} DeadlineIs(t0: real, stall: real, n: nat)
    ensures Deadline(t0, stall, n) == t0 + n as real * stall
  {
    if n > 0 {
      DeadlineIs(t0, stall, n - 1);
      assert n as real == (n - 1) as real + 1.0;
    }
  }

  /** The k-th recovery of a chunk comes later than t0 + k * stall. */
  predicate RecoveriesAreLate(log: Log, t0: real, stall: real) {
    forall n :: 0 <= n < |log| && IsRecovery(log[n].action) ==>
      log[n].at > Deadline(t0, stall, Recoveries(log[..n+1], log[n].action.chunk))
  }

  predicate StagedAt(log: Log, n: nat, c: Chunk)
    requires n < |log|
  {
    log[n].action.Stage? && log[n].ok && log[n].action.chunk == c
  }

  /** Nothing is done about a chunk after its receipt was collected. */
  predicate StagedIsFinal(log: Log) {
    forall m, n :: 0 <= m < n < |log| && log[m].action.Stage? && log[m].ok ==> log[n].action.chunk != log[m].action.chunk
  }

  /** The chunks with a collected receipt. */
  predicate IsStaged(log: Log, c: Chunk) {
    exists n :: 0 <= n < |log| && StagedAt(log, n, c)
  }

  ghost predicate LogInv(log: Log, staged: set<Chunk>, t0: real, stall: real) {
    && RecoveriesAreLate(log, t0, stall) && StagedIsFinal(log)
    && forall c :: c in staged <==> IsStaged(log, c)
  }

  /** Every chunk's progress clock has moved past the deadline of its latest recovery. */
  predicate ClocksLate(change: map<Chunk, real>, log: Log, order: seq<Chunk>, t0: real, stall: real) {
    forall c :: c in order ==> c in change && change[c] >= Deadline(t0, stall, Recoveries(log, c))
  }

  lemma AppendEntry(log: Log, staged: set<Chunk>, t0: real, stall: real, e: Entry)
    requires LogInv(log, staged, t0, stall) && e.action.chunk !in staged
    requires IsRecovery(e.action) ==> e.at > Deadline(t0, stall, Recoveries(log, e.action.chunk) + 1)
    ensures LogInv(log + [e], if e.action.Stage? && e.ok then staged + {e.action.chunk} else staged, t0, stall)
    ensures forall c :: Recoveries(log + [e], c)
                     == Recoveries(log, c) + if IsRecovery(e.action) && e.action.chunk == c then 1 else 0
  {
    var log' := log + [e];
    assert log'[..|log|] == log;
    forall n | 0 <= n < |log'| && IsRecovery(log'[n].action)
      ensures log'[n].at > Deadline(t0, stall, Recoveries(log'[..n+1], log'[n].action.chunk))
    {
      if n < |log| {
        assert log'[..n+1] == log[..n+1];
      } else {
        assert log'[..n+1] == log';
      }
    }
    forall c ensures IsStaged(log', c) <==> IsStaged(log, c) || (e.action.Stage? && e.ok && e.action.chunk == c) {
      if IsStaged(log, c) {
        var n :| 0 <= n < |log| && StagedAt(log, n, c);
        assert StagedAt(log', n, c);
      }
      if e.action.Stage? && e.ok && e.action.chunk == c {
        assert StagedAt(log', |log|, c);
      }
      if IsStaged(log', c) {
        var n :| 0 <= n < |log'| && StagedAt(log', n, c);
        assert n < |log| ==> StagedAt(log, n, c);
      }
    }
    forall m, n | 0 <= m < n < |log'| && log'[m].action.Stage? && log'[m].ok
      ensures log'[n].action.chunk != log'[m].action.chunk
    {
      assert StagedAt(log, m, log[m].action.chunk);
    }
  }

  // ---------- what one poll's plan means for the clocks ----------

  predicate LateOnes(acts: seq<Action>, change: map<Chunk, real>, now: real, stall: real) {
    forall n :: 0 <= n < |acts| && IsRecovery(acts[n]) ==>
      acts[n].chunk in change && now > change[acts[n].chunk] + stall
  }

  lemma {:induction false} PlannedAreLate(t: Tick, size: map<Chunk, int>, change: map<Chunk, real>, i: nat)
    requires t.Valid() && i <= |t.order|
    requires forall c :: c in t.order ==> c in change && change[c] <= t.now
    ensures LateOnes(PlannedActions(t, size, change, i), change, t.now, t.stall)
  {
    if i > 0 {
      PlannedAreLate(t, size, change, i - 1);
      RecoveryIsLate(t, t.order[i-1], ClockOf(size, change, t.order[i-1]));
    }
  }

  lemma ClocksMoveOn(t: Tick, size: map<Chunk, int>, change: map<Chunk, real>, size': map<Chunk, int>,
                     change': map<Chunk, real>, c: Chunk)
    requires t.Valid() && ClocksAfter(t, size, change, size', change', |t.order|)
    requires c in t.order && c in change && change[c] <= t.now
    ensures c in change' && change[c] <= change'[c] <= t.now
  {
    var j :| 0 <= j < |t.order| && t.order[j] == c;
    RecoveryIsLate(t, c, ClockOf(size, change, c));
    assert ClockOf(size', change', t.order[j]).change.Some?;
  }

  /** A chunk the plan recovers has its clock set to now. */
  predicate RecoveredNow(acts: seq<Action>, change: map<Chunk, real>, now: real) {
    forall n :: 0 <= n < |acts| && IsRecovery(acts[n]) ==> acts[n].chunk in change && change[acts[n].chunk] == now
  }

  lemma {:induction false} PlannedSetClocks(t: Tick, size: map<Chunk, int>, change: map<Chunk, real>,
                                            size': map<Chunk, int>, change': map<Chunk, real>, i: nat)
    requires t.Valid() && i <= |t.order| && ClocksAfter(t, size, change, size', change', |t.order|)
    requires forall c :: c in t.order ==> c in change && change[c] <= t.now
    ensures RecoveredNow(PlannedActions(t, size, change, i), change', t.now)
  {
    if i > 0 {
      PlannedSetClocks(t, size, change, size', change', i - 1);
      var c := t.order[i-1];
      RecoveryIsLate(t, c, ClockOf(size, change, c));
      assert ClockOf(size', change', t.order[i-1]) == Plan(t, c, ClockOf(size, change, c)).1;
    }
  }

  // ---------- the chunk phase ----------

  /** The part of the run's state that polls and actions change. */
  datatype Fleet = Fleet(cards: map<Chunk, Card>, staged: set<Chunk>, busy: set<Card>, reassigned: set<Chunk>)

  /** Carrying out one planned action. */
  function Perform(f: Fleet, a: Action, collected: set<Chunk>): Fleet {
    match a
    case Stage(c, _) => if c in collected then f.(staged := f.staged + {c}) else f
    case Reassign(c, to) => f.(cards := f.cards[c := to], busy := f.busy + {to}, reassigned := f.reassigned + {c})
    case RestartInPlace(c, _) => f.(reassigned := f.reassigned + {c})
  }

  ghost predicate Distinct(order: seq<Chunk>) {
    forall i, j :: 0 <= i < j < |order| ==> order[i] != order[j]
  }

  ghost predicate FleetOf(f: Fleet, order: seq<Chunk>) {
    && (forall c :: c in order <==> c in f.cards)
    && (forall c :: c in f.staged ==> c in f.cards)
  }

  /** Carrying out a poll's actions, in order. */
  function Performed(f: Fleet, acts: seq<Action>, collected: set<Chunk>): Fleet {
    if acts == [] then f
    else Perform(Performed(f, acts[..|acts|-1], collected), acts[|acts|-1], collected)
  }

  function EntryFor(a: Action, poll: Poll): Entry {
    Entry(poll.now, a, a.chunk in poll.collected)
  }

  /** The log entries of one poll: what was done, in order. */
  predicate Logs(log0: Log, log: Log, acts: seq<Action>, poll: Poll) {
    && |log| == |log0| + |acts| && log0 <= log
    && forall n :: 0 <= n < |acts| ==> log[|log0| + n] == EntryFor(acts[n], poll)
  }

  /** The actions of one poll, in order. */
  method PerformAll(f0: Fleet, order: seq<Chunk>, acts: seq<Action>, poll: Poll, ghost change: map<Chunk, real>,
                    log0: Log, ghost t0: real, ghost stall: real)
    returns (f: Fleet, log: Log)
    requires FleetOf(f0, order) && OneEach(acts, order, f0.staged)
    requires LogInv(log0, f0.staged, t0, stall) && ClocksLate(change, log0, order, t0, stall)
    requires RecoveredNow(acts, change, poll.now)
    requires forall n :: 0 <= n < |acts| && IsRecovery(acts[n]) ==>
               poll.now > Deadline(t0, stall, Recoveries(log0, acts[n].chunk) + 1)
    ensures FleetOf(f, order) && LogInv(log, f.staged, t0, stall) && ClocksLate(change, log, order, t0, stall)
    ensures f == Performed(f0, acts, poll.collected) && Logs(log0, log, acts, poll)
  {
    hide LogInv, Logs, IsStaged, ClocksLate;
    f, log := f0, log0;
    NothingYet(f0, log0, acts, poll);
    for i := 0 to |acts|
      invariant FleetOf(f, order) && LogInv(log, f.staged, t0, stall) && ClocksLate(change, log, order, t0, stall)
      invariant f == Performed(f0, acts[..i], poll.collected) && Logs(log0, log, acts[..i], poll)
      invariant forall n :: i <= n < |acts| ==>
        acts[n].chunk !in f.staged && Recoveries(log, acts[n].chunk) == Recoveries(log0, acts[n].chunk)
    {
      var a := acts[i];
      AppendEntry(log, f.staged, t0, stall, EntryFor(a, poll));
      ClocksStayLate(change, log, order, t0, stall, EntryFor(a, poll));
      PerformedStep(f0, log0, log, acts, poll, i);
      log := log + [EntryFor(a, poll)];
      f := Perform(f, a, poll.collected);
    }
    assert acts[..|acts|] == acts;
  }

  lemma NothingYet(f: Fleet, log: Log, acts: seq<Action>, poll: Poll)
    ensures f == Performed(f, acts[..0], poll.collected) && Logs(log, log, acts[..0], poll)
  {
  }

  lemma PerformedStep(f: Fleet, log0: Log, log: Log, acts: seq<Action>, poll: Poll, i: nat)
    requires i < |acts| && Logs(log0, log, acts[..i], poll)
    ensures Performed(f, acts[..i+1], poll.collected) == Perform(Performed(f, acts[..i], poll.collected), acts[i], poll.collected)
    ensures Logs(log0, log + [EntryFor(acts[i], poll)], acts[..i+1], poll)
  {
    assert acts[..i+1][..i] == acts[..i];
  }

  lemma ClocksStayLate(change: map<Chunk, real>, log: Log, order: seq<Chunk>, t0: real, stall: real, e: Entry)
    requires ClocksLate(change, log, order, t0, stall)
    requires IsRecovery(e.action) ==>
      e.action.chunk in change && change[e.action.chunk] >= Deadline(t0, stall, Recoveries(log, e.action.chunk) + 1)
    ensures ClocksLate(change, log + [e], order, t0, stall)
  {
    assert (log + [e])[..|log|] == log;
  }

  /** The chunks' clocks exist and are not ahead of now. */
  predicate ClocksUpTo(change: map<Chunk, real>, order: seq<Chunk>, now: real) {
    forall c :: c in order ==> c in change && change[c] <= now
  }

  /** Everything the chunk phase carries from one poll to the next. */
  datatype Phase = Phase(f: Fleet, size: map<Chunk, int>, change: map<Chunk, real>, log: Log)

  function TickOf(order: seq<Chunk>, s: Phase, poll: Poll, stall: real): Tick {
    Tick(order, s.f.cards, poll.probes, s.f.staged, s.f.busy, poll.now, stall)
  }

  /** One poll: the plan for this tick is carried out and logged, and the progress clocks are the plan's. */
  ghost predicate PollStep(order: seq<Chunk>, s: Phase, poll: Poll, stall: real, s': Phase) {
    var t := TickOf(order, s, poll, stall);
    && t.Valid() && ClocksAfter(t, s.size, s.change, s'.size, s'.change, |order|)
    && var acts := PlannedActions(t, s.size, s.change, |order|);
       s'.f == Performed(s.f, acts, poll.collected) && Logs(s.log, s'.log, acts, poll)
  }

  /** What holds of the phase at every poll. */
  ghost predicate PhaseInv(order: seq<Chunk>, s: Phase, t0: real, stall: real, now: real) {
    && FleetOf(s.f, order) && ClocksUpTo(s.change, order, now)
    && LogInv(s.log, s.f.staged, t0, stall) && ClocksLate(s.change, s.log, order, t0, stall)
  }

  method OnePoll(order: seq<Chunk>, s: Phase, poll: Poll, stall: real, ghost t0: real) returns (s': Phase)
    requires Distinct(order) && PhaseInv(order, s, t0, stall, poll.now)
    ensures PhaseInv(order, s', t0, stall, poll.now)
    ensures PollStep(order, s, poll, stall, s')
  {
    hide LogInv, ClocksAfter, PlannedActions, OneEach;
    var t := TickOf(order, s, poll, stall);
    var acts, size, change, finished := PlanTick(t, s.size, s.change);
    PlanIsLate(t, s.size, s.change, size, change, s.log, t0);
    var f, log := PerformAll(s.f, order, acts, poll, change, s.log, t0, stall);
    s' := Phase(f, size, change, log);
  }

  function FirstPhase(cards: map<Chunk, Card>, t0: real): Phase {
    Phase(Fleet(cards, {}, {}, {}), map[], map c | c in cards :: t0, [])
  }

  function AllStaged(order: seq<Chunk>, s: Phase): bool {
    |s.f.staged| >= |order|
  }

  /** A chunk phase: one step per poll, from a fleet that has staged nothing, and no poll after everything was
      staged. */
  ghost predicate IsChunkRun(order: seq<Chunk>, cards: map<Chunk, Card>, t0: real, polls: seq<Poll>, stall: real,
                             trace: seq<Phase>) {
    && 0 < |trace| <= |polls| + 1 && trace[0] == FirstPhase(cards, t0)
    && (forall i :: 0 <= i < |trace| - 1 ==> PollStep(order, trace[i], polls[i], stall, trace[i+1]))
    && (forall i :: 0 < i < |trace| - 1 ==> !AllStaged(order, trace[i]))
  }

  function Chunks(order: seq<Chunk>): (cs: set<Chunk>)
    requires Distinct(order)
    ensures |cs| == |order| && forall c :: c in cs <==> c in order
  {
    if order == [] then {} else
      assert order == order[..|order|-1] + [order[|order|-1]];
      Chunks(order[..|order|-1]) + {order[|order|-1]}
  }

  lemma StagedAreCounted(order: seq<Chunk>, staged: set<Chunk>)
    requires Distinct(order) && forall c :: c in order ==> c in staged
    ensures |staged| >= |order|
  {
    var extra := staged - Chunks(order);
    assert staged == Chunks(order) + extra;
  }

  /** The count is enough: as many staged as there are chunks means every one of them. */
  lemma AllStagedExactly(order: seq<Chunk>, s: Phase)
    requires Distinct(order) && FleetOf(s.f, order)
    ensures AllStaged(order, s) <==> forall c :: c in order ==> c in s.f.staged
  {
    var all, rest := Chunks(order), Chunks(order) - s.f.staged;
    assert s.f.staged <= all;
    assert |rest| == |all| - |s.f.staged|;
    if forall c :: c in order ==> c in s.f.staged {
      assert all == s.f.staged;
    } else {
      var c :| c in order && c !in s.f.staged;
      assert c in rest;
    }
  }

  /** While it polls, some chunk is still to be staged. */
  lemma PollsOnlyForAChunk(order: seq<Chunk>, cards: map<Chunk, Card>, t0: real, polls: seq<Poll>, stall: real,
                           trace: seq<Phase>, i: nat)
    requires Distinct(order) && IsChunkRun(order, cards, t0, polls, stall, trace) && 0 < i < |trace| - 1
    ensures exists c :: c in order && c !in trace[i].f.staged
  {
    hide PollStep;
    if forall c :: c in order ==> c in trace[i].f.staged {
      StagedAreCounted(order, trace[i].f.staged);
    }
  }

  /** Phases 1 to 3: poll, plan, act; stop early once every chunk is staged, and only then. */
  method ChunkPhase(order: seq<Chunk>, cards: map<Chunk, Card>, t0: real, polls: seq<Poll>, stall: real)
    returns (s: Phase, used: nat, ghost trace: seq<Phase>)
    requires Distinct(order) && forall c :: c in order <==> c in cards
    requires forall i :: 0 <= i < |polls| ==> t0 <= polls[i].now
    requires forall i, j :: 0 <= i < j < |polls| ==> polls[i].now <= polls[j].now
    ensures FleetOf(s.f, order) && LogInv(s.log, s.f.staged, t0, stall)
    ensures used <= |polls| && (used < |polls| ==> AllStaged(order, s))
    ensures used < |polls| ==> forall c :: c in order ==> c in s.f.staged
    ensures IsChunkRun(order, cards, t0, polls, stall, trace) && |trace| == used + 1 && trace[used] == s
  {
    hide PollStep, LogInv;
    s, used := FirstPhase(cards, t0), 0;
    StartsClean(order, cards, t0, stall);
    trace := [s];
    while used < |polls|
      invariant used <= |polls| && |trace| == used + 1 && trace[used] == s
      invariant PhaseInv(order, s, t0, stall, if used == 0 then t0 else polls[used-1].now)
      invariant IsChunkRun(order, cards, t0, polls, stall, trace)
      invariant used > 0 ==> !AllStaged(order, s)
    {
      s := OnePoll(order, s, polls[used], stall, t0);
      used := used + 1;
      trace := trace + [s];
      if |s.f.staged| >= |order| {
        break;
      }
    }
    AllStagedExactly(order, s);
  }

  lemma StartsClean(order: seq<Chunk>, cards: map<Chunk, Card>, t0: real, stall: real)
    requires forall c :: c in order <==> c in cards
    ensures PhaseInv(order, FirstPhase(cards, t0), t0, stall, t0)
  {
  }

  /** Everything a poll's plan owes the log. */
  lemma PlanIsLate(t: Tick, size: map<Chunk, int>, change: map<Chunk, real>, size': map<Chunk, int>,
                   change': map<Chunk, real>, log: Log, t0: real)
    requires t.Valid() && ClocksAfter(t, size, change, size', change', |t.order|)
    requires forall c :: c in t.order ==> c in change && change[c] <= t.now
    requires ClocksLate(change, log, t.order, t0, t.stall)
    ensures var acts := PlannedActions(t, size, change, |t.order|);
            && OneEach(acts, t.order, t.staged)
            && RecoveredNow(acts, change', t.now)
            && (forall n :: 0 <= n < |acts| && IsRecovery(acts[n]) ==>
                  t.now > Deadline(t0, t.stall, Recoveries(log, acts[n].chunk) + 1))
    ensures forall c :: c in t.order ==> c in change' && change'[c] <= t.now
    ensures ClocksLate(change', log, t.order, t0, t.stall)
  {
    hide PlannedActions, Plan;
    OneActionPerChunk(t, size, change, |t.order|);
    assert t.order[..|t.order|] == t.order;
    PlannedAreLate(t, size, change, |t.order|);
    PlannedSetClocks(t, size, change, size', change', |t.order|);
    forall c | c in t.order ensures c in change' && change[c] <= change'[c] <= t.now {
      ClocksMoveOn(t, size, change, size', change', c);
    }
  }

  /** `staging_complete` */
  predicate StagingComplete(staged: int, expected: int) {
    staged >= expected && expected > 0
  }

  /** What the aggregator's status at poll i ends the wait with, if anything: a verified receipt, a dead process, or
      `limit` polls in a row without an answer. */
  function EndsWith(polls: seq<AggPoll>, i: nat, limit: nat): Option<Outcome>
    requires i < |polls|
  {
    if polls[i].verified then Some(Verified)
    else if !polls[i].unreachable then if polls[i].alive then None else Some(AggregateDied)
    else if limit <= i + 1 && forall j :: i + 1 - limit <= j < i ==> polls[j].unreachable then Some(AggregatorGone)
    else None
  }

  /** Phase 6: poll the aggregate; the first status that ends the wait decides. */
  method AwaitAggregate(polls: seq<AggPoll>, unreachableLimit: nat) returns (o: Outcome, used: nat)
    ensures Awaited(polls, unreachableLimit, o, used)
  {
    var gone := 0;
    used := 0;
    while used < |polls|
      invariant used <= |polls| && 0 <= gone <= used
      invariant forall i :: 0 <= i < used ==> EndsWith(polls, i, unreachableLimit) == None
      invariant forall i :: used - gone <= i < used ==> polls[i].unreachable
      invariant gone < used ==> !polls[used - gone - 1].unreachable
    {
      var out := polls[used];
      used := used + 1;
      if out.verified {
        return Verified, used;
      }
      if out.unreachable {
        gone := gone + 1;
        if gone >= unreachableLimit {
          return AggregatorGone, used;
        }
      } else {
        gone := 0;
        if !out.alive {
          return AggregateDied, used;
        }
      }
    }
    return NeverVerified, used;
  }

  predicate Awaited(polls: seq<AggPoll>, limit: nat, o: Outcome, used: nat) {
    && used <= |polls|
    && (forall i :: 0 <= i < used - 1 ==> EndsWith(polls, i, limit) == None)
    && if used > 0 && EndsWith(polls, used - 1, limit).Some? then o == EndsWith(polls, used - 1, limit).value
       else used == |polls| && o == NeverVerified
  }

  /** Phase 4: the sweep of what the streaming could not collect. */
  method Sweep(order: seq<Chunk>, f0: Fleet, log0: Log, swept: set<Chunk>, end: real, ghost t0: real, ghost stall: real)
    returns (log: Log)
    requires Distinct(order) && FleetOf(f0, order) && LogInv(log0, f0.staged, t0, stall)
    ensures log0 <= log && RecoveriesAreLate(log, t0, stall) && StagedIsFinal(log)
    ensures forall c :: IsStaged(log, c) <==> c in f0.staged || (c in order && c in swept)
    ensures forall n :: |log0| <= n < |log| ==> log[n].action.Stage? && log[n].ok
  {
    log := log0;
    var f := f0;
    for i := 0 to |order|
      invariant FleetOf(f, order) && LogInv(log, f.staged, t0, stall) && log0 <= log
      invariant forall c :: c in f.staged <==> c in f0.staged || (c in order[..i] && c in swept)
      invariant forall n :: |log0| <= n < |log| ==> log[n].action.Stage? && log[n].ok
    {
      var c := order[i];
      if c !in f.staged && c in swept {
        var e := Entry(end, Stage(c, f.cards[c]), true);
        AppendEntry(log, f.staged, t0, stall, e);
        log := log + [e];
        f := f.(staged := f.staged + {c});
      }
    }
    assert order[..|order|] == order;
  }

  /** `run_block`. `swept` are the receipts the final sweep manages to collect, `stagedCount` what the
      coordinator then reports it holds. */
  method RunBlock(order: seq<Chunk>, cards: map<Chunk, Card>, fleetEmpty: bool, t0: real, polls: seq<Poll>,
                  stall: real, swept: set<Chunk>, stagedCount: int, aggPolls: seq<AggPoll>, unreachableLimit: nat)
    returns (o: Outcome, used: nat, log: Log, ghost trace: seq<Phase>)
    requires Distinct(order) && forall c :: c in order <==> c in cards
    requires forall i :: 0 <= i < |polls| ==> t0 <= polls[i].now
    requires forall i, j :: 0 <= i < j < |polls| ==> polls[i].now <= polls[j].now
    ensures RecoveriesAreLate(log, t0, stall)
    ensures StagedIsFinal(log)
    ensures used <= |polls| + |aggPolls|
    ensures o == NoCards <==> |order| == 0
    ensures o == FleetNotEmpty <==> |order| > 0 && !fleetEmpty
    ensures AggregateStarted(o) <==> |order| > 0 && fleetEmpty && stagedCount >= |order|
    ensures |order| > 0 && fleetEmpty ==>
      && IsChunkRun(order, cards, t0, polls, stall, trace)
      && var (s, chunkPolls) := (trace[|trace|-1], |trace| - 1);
         && (chunkPolls < |polls| ==> AllStaged(order, s)) && s.log <= log
         && (forall c :: IsStaged(log, c) <==> c in s.f.staged || (c in order && c in swept))
         && (if AggregateStarted(o) then used >= chunkPolls && Awaited(aggPolls, unreachableLimit, o, used - chunkPolls)
             else o == NotStaged && used == chunkPolls)
    ensures |order| == 0 || !fleetEmpty ==> used == 0 && log == []
  {
    hide IsChunkRun, LogInv, Awaited;
    log, used, trace := [], 0, [];
    if |order| == 0 {
      return NoCards, 0, [], [];
    }
    if !fleetEmpty {
      return FleetNotEmpty, 0, [], [];
    }
    var s, chunkPolls;
    s, chunkPolls, trace := ChunkPhase(order, cards, t0, polls, stall);
    log := Sweep(order, s.f, s.log, swept, if chunkPolls > 0 then polls[chunkPolls-1].now else t0, t0, stall);
    if !StagingComplete(stagedCount, |order|) {
      return NotStaged, chunkPolls, log, trace;
    }
    var aggUsed;
    o, aggUsed := AwaitAggregate(aggPolls, unreachableLimit);
    AwaitedIsAggregate(aggPolls, unreachableLimit, o, aggUsed);
    used := chunkPolls + aggUsed;
  }

  lemma AwaitedIsAggregate(polls: seq<AggPoll>, limit: nat, o: Outcome, used: nat)
    requires Awaited(polls, limit, o, used)
    ensures AggregateStarted(o) && used <= |polls|
  {
  }

  /** Verified means that some poll said so; and a verified poll is missed only after an earlier status ended the
      wait. */
  lemma VerifiedWasReported(polls: seq<AggPoll>, limit: nat, o: Outcome, used: nat)
    requires Awaited(polls, limit, o, used)
    ensures o == Verified <==> used > 0 && polls[used-1].verified
    ensures forall i :: 0 <= i < used - 1 ==> !polls[i].verified
    ensures o == NeverVerified ==> used == |polls| && forall i :: 0 <= i < |polls| ==> !polls[i].verified
  {
    forall i | 0 <= i < used - 1 ensures !polls[i].verified {
      assert EndsWith(polls, i, limit) == None;
    }
  }

  /** The n polls end with a stretch of `limit` without an answer, or of one when the limit is lower. */
  predicate SilentFor(polls: seq<AggPoll>, n: nat, limit: nat)
    requires n <= |polls|
  {
    var stretch := if limit > 1 then limit else 1;
    stretch <= n && forall j :: n - stretch <= j < n ==> polls[j].unreachable
  }

  /** It answers that the process is gone, without a receipt. */
  predicate SaysDead(p: AggPoll) {
    !p.verified && !p.unreachable && !p.alive
  }

  /** The wait ends at the first poll that shows a receipt, a dead process, or the end of a whole silent stretch, and is
      named after it; with none of these it lasts all its polls. */
  lemma FirstDecisiveStatus(polls: seq<AggPoll>, limit: nat, o: Outcome, used: nat)
    requires Awaited(polls, limit, o, used)
    ensures forall i :: 0 <= i < used - 1 ==> !polls[i].verified && !SaysDead(polls[i]) && !SilentFor(polls, i + 1, limit)
    ensures o == AggregateDied <==> used > 0 && SaysDead(polls[used-1])
    ensures o == AggregatorGone <==> used > 0 && !polls[used-1].verified && SilentFor(polls, used, limit)
    ensures o == NeverVerified <==>
              used == |polls| && (used == 0 || (!polls[used-1].verified && !SaysDead(polls[used-1]) && !SilentFor(polls, used, limit)))
  {
    hide SilentFor, EndsWith, SaysDead;
    forall i | 0 <= i < |polls|
      ensures EndsWith(polls, i, limit) == Some(Verified) <==> polls[i].verified
      ensures EndsWith(polls, i, limit) == Some(AggregateDied) <==> SaysDead(polls[i])
      ensures EndsWith(polls, i, limit) == Some(AggregatorGone) <==> !polls[i].verified && SilentFor(polls, i + 1, limit)
      ensures EndsWith(polls, i, limit) == None <==>
                !polls[i].verified && !SaysDead(polls[i]) && !SilentFor(polls, i + 1, limit)
      ensures EndsWith(polls, i, limit) != Some(NeverVerified)
    {
      DecisiveExactly(polls, i, limit);
    }
  }

  lemma DecisiveExactly(polls: seq<AggPoll>, i: nat, limit: nat)
    requires i < |polls|
    ensures EndsWith(polls, i, limit) == Some(Verified) <==> polls[i].verified
    ensures EndsWith(polls, i, limit) == Some(AggregateDied) <==> SaysDead(polls[i])
    ensures EndsWith(polls, i, limit) == Some(AggregatorGone) <==> !polls[i].verified && SilentFor(polls, i + 1, limit)
    ensures EndsWith(polls, i, limit) == None <==> !polls[i].verified && !SaysDead(polls[i]) && !SilentFor(polls, i + 1, limit)
    ensures EndsWith(polls, i, limit) != Some(NeverVerified)
  {
    SilentExactly(polls, i, limit);
  }

  lemma SilentExactly(polls: seq<AggPoll>, i: nat, limit: nat)
    requires i < |polls|
    ensures SilentFor(polls, i + 1, limit) <==>
              polls[i].unreachable && limit <= i + 1 && forall j :: i + 1 - limit <= j < i ==> polls[j].unreachable
  {
  }

  // ---------- what a poll's actions do to the fleet ----------

  /** After a poll's actions, one a chunk: a reassigned chunk is on its target, and no other chunk has moved. */
  lemma {:induction false} ActionsMove(f: Fleet, acts: seq<Action>, collected: set<Chunk>, chunks: seq<Chunk>, n: nat)
    requires OneEach(acts, chunks, f.staged) && n <= |acts|
    ensures var f' := Performed(f, acts[..n], collected);
            && (forall m :: 0 <= m < n && acts[m].Reassign? ==>
                  acts[m].chunk in f'.cards && f'.cards[acts[m].chunk] == acts[m].to)
            && (forall c :: c in f.cards && (forall m :: 0 <= m < n && acts[m].chunk == c ==> !acts[m].Reassign?) ==>
                  c in f'.cards && f'.cards[c] == f.cards[c])
  {
    if n == 0 {
      assert acts[..0] == [];
    } else {
      ActionsMove(f, acts, collected, chunks, n - 1);
      PerformOne(f, acts, collected, n - 1);
      hide Performed;
    }
  }

  /** The cards that were sent a chunk, and no others, are newly busy. */
  lemma {:induction false} ActionsOccupy(f: Fleet, acts: seq<Action>, collected: set<Chunk>, n: nat, card: Card)
    requires n <= |acts|
    ensures card in Performed(f, acts[..n], collected).busy <==>
              card in f.busy || exists m :: 0 <= m < n && SentTo(acts[m], card)
  {
    if n == 0 {
      assert acts[..0] == [];
    } else {
      ActionsOccupy(f, acts, collected, n - 1, card);
      PerformOne(f, acts, collected, n - 1);
      hide Performed;
    }
  }

  /** The chunks that were recovered, and no others, are newly marked as such. */
  lemma {:induction false} ActionsMark(f: Fleet, acts: seq<Action>, collected: set<Chunk>, n: nat, c: Chunk)
    requires n <= |acts|
    ensures c in Performed(f, acts[..n], collected).reassigned <==>
              c in f.reassigned || exists m :: 0 <= m < n && IsRecovery(acts[m]) && acts[m].chunk == c
  {
    if n == 0 {
      assert acts[..0] == [];
    } else {
      ActionsMark(f, acts, collected, n - 1, c);
      PerformOne(f, acts, collected, n - 1);
      hide Performed;
    }
  }

  /** The chunks whose receipt was asked for and collected, and no others, are newly staged. */
  lemma {:induction false} ActionsStage(f: Fleet, acts: seq<Action>, collected: set<Chunk>, n: nat, c: Chunk)
    requires n <= |acts|
    ensures c in Performed(f, acts[..n], collected).staged <==>
              c in f.staged || (c in collected && exists m :: 0 <= m < n && acts[m].Stage? && acts[m].chunk == c)
  {
    if n == 0 {
      assert acts[..0] == [];
    } else {
      ActionsStage(f, acts, collected, n - 1, c);
      PerformOne(f, acts, collected, n - 1);
      hide Performed;
    }
  }

  lemma PerformOne(f: Fleet, acts: seq<Action>, collected: set<Chunk>, n: nat)
    requires n < |acts|
    ensures Performed(f, acts[..n+1], collected) == Perform(Performed(f, acts[..n], collected), acts[n], collected)
  {
    assert acts[..n+1][..n] == acts[..n];
  }

  // ---------- one card, two chunks, over a run ----------

  /** A card that has two chunks has taken one of them from another card. */
  ghost predicate SharedIsBusy(f: Fleet) {
    forall c, d :: c in f.cards && d in f.cards && c != d && f.cards[c] == f.cards[d] ==> f.cards[c] in f.busy
  }

  lemma {:induction false} PerformedSharesBusy(f: Fleet, acts: seq<Action>, collected: set<Chunk>)
    requires SharedIsBusy(f) && forall a :: a in acts ==> a.chunk in f.cards
    ensures SharedIsBusy(Performed(f, acts, collected)) && Performed(f, acts, collected).cards.Keys == f.cards.Keys
  {
    if acts != [] {
      var init, last := acts[..|acts|-1], acts[|acts|-1];
      PerformedSharesBusy(f, init, collected);
      assert last in acts;
    }
  }

  /** A chunk that a poll recovers is not on a free card. */
  lemma RecoveredIsNotFree(t: Tick, size: map<Chunk, int>, change: map<Chunk, real>, c: Chunk)
    requires t.Valid() && Recovered(t, size, change, c)
    requires SharedIsBusy(Fleet(t.cards, t.staged, t.busy, {}))
    ensures !Free(t, t.cards[c])
  {
    var card := t.cards[c];
    if card in FinishedCards(t) {
      var d :| d in t.cards && Finished(t, d) && t.cards[d] == card;
      assert !Finished(t, c) && d != c;
      assert card in t.busy;
    }
  }

  lemma {:induction false} RunSharesBusy(order: seq<Chunk>, cards: map<Chunk, Card>, t0: real, polls: seq<Poll>, stall: real,
                                         trace: seq<Phase>, i: nat)
    requires IsChunkRun(order, cards, t0, polls, stall, trace) && i < |trace|
    requires forall c, d :: c in cards && d in cards && c != d ==> cards[c] != cards[d]
    ensures SharedIsBusy(trace[i].f)
  {
    if i > 0 {
      RunSharesBusy(order, cards, t0, polls, stall, trace, i - 1);
      var s, t := trace[i-1], TickOf(order, trace[i-1], polls[i-1], stall);
      assert PollStep(order, s, polls[i-1], stall, trace[i]);
      OneActionPerChunk(t, s.size, s.change, |order|);
      PerformedSharesBusy(s.f, PlannedActions(t, s.size, s.change, |order|), polls[i-1].collected);
    }
  }

  /** In every run that starts with a card for each chunk: a poll sends one card two chunks exactly when it recovers two
      chunks and finds a free card. */
  lemma RunSendsTwice(order: seq<Chunk>, cards: map<Chunk, Card>, t0: real, polls: seq<Poll>, stall: real,
                      trace: seq<Phase>, i: nat)
    requires IsChunkRun(order, cards, t0, polls, stall, trace) && i < |trace| - 1
    requires forall c, d :: c in cards && d in cards && c != d ==> cards[c] != cards[d]
    ensures var s, t := trace[i], TickOf(order, trace[i], polls[i], stall);
            t.Valid() && (SendsTwice(PlannedActions(t, s.size, s.change, |order|)) <==>
                            && (exists card :: Free(t, card))
                            && exists c, d :: c != d && Recovered(t, s.size, s.change, c) && Recovered(t, s.size, s.change, d))
  {
    hide SharedIsBusy, Collide, PlannedActions, Plan, Free, Performed, SendsTwice;
    var s, t := trace[i], TickOf(order, trace[i], polls[i], stall);
    assert PollStep(order, s, polls[i], stall, trace[i+1]);
    RunSharesBusy(order, cards, t0, polls, stall, trace, i);
    OnePollSendsTwice(t, s.size, s.change);
    ShareSameFleet(s.f, Fleet(t.cards, t.staged, t.busy, {}));
    forall c, d | Recovered(t, s.size, s.change, c) && Recovered(t, s.size, s.change, d)
      ensures Collide(t, t.cards[c], t.cards[d]) <==> exists card :: Free(t, card)
    {
      RecoveredIsNotFree(t, s.size, s.change, c);
      RecoveredIsNotFree(t, s.size, s.change, d);
      NotFreeCollide(t, t.cards[c], t.cards[d]);
    }
  }

  lemma ShareSameFleet(f: Fleet, g: Fleet)
    requires SharedIsBusy(f) && g.cards == f.cards && g.busy == f.busy
    ensures SharedIsBusy(g)
  {
  }
}
