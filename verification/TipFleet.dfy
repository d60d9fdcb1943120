/** One poll of the tip rig: classify every card from its probe and decide what to do about every chunk. */
module TipFleet {
  import opened Ranges

  type Chunk = nat
  type Card = nat

  const IDLE_UTIL_PCT: real := 5.0
  const IDLE_VRAM_MIB: real := 2000.0

  datatype Metrics = Metrics(size: int, util: real, vram: real, nproc: real)

  /** A probe reply, parsed. Silent is a failed ssh; a finished card may or may not report its metrics. */
  datatype Probe = Silent | Garbled | DoneReply(metrics: Option<Metrics>) | Reply(m: Metrics)

  datatype CardState = Done | Working | Idle | Unreachable

  function StateOf(p: Probe): CardState {
    match p
    case Silent => Unreachable
    case Garbled => Unreachable
    case DoneReply(_) => Done
    case Reply(m) =>
      if m.nproc < 1.0 then Idle
      else if m.util < IDLE_UTIL_PCT && m.vram < IDLE_VRAM_MIB then Idle
      else Working
  }

  predicate Released(m: Metrics) {
    m.nproc == 0.0 && m.vram < IDLE_VRAM_MIB
  }

  /** `can_accept_reassignment`: measured free, never inferred from a receipt. */
  predicate CanAccept(p: Probe) {
    match p
    case Silent => false
    case Garbled => false
    case DoneReply(metrics) => metrics.Some? && Released(metrics.value)
    case Reply(m) => Released(m)
  }

  function SizeOf(p: Probe): Option<int> {
    if p.Reply? then Some(p.m.size) else None
  }

  function ProbeOf(probes: map<Card, Probe>, card: Card): Probe {
    if card in probes then probes[card] else Silent
  }

  datatype Action =
    | Stage(chunk: Chunk, from: Card)
    | Reassign(chunk: Chunk, to: Card)
    | RestartInPlace(chunk: Chunk, on: Card)

  predicate IsRecovery(a: Action) {
    a.Reassign? || a.RestartInPlace?
  }

  /** Everything one poll looks at. `order` lists the chunks in assignment order. */
  datatype Tick = Tick(order: seq<Chunk>, cards: map<Chunk, Card>, probes: map<Card, Probe>, staged: set<Chunk>,
                       busy: set<Card>, now: real, stall: real)
  {
    ghost predicate Valid() {
      && (forall c :: c in order <==> c in cards)
      && (forall i, j :: 0 <= i < j < |order| ==> order[i] != order[j])
    }
  }

  predicate Finished(t: Tick, c: Chunk) {
    c in t.staged || (c in t.cards && StateOf(ProbeOf(t.probes, t.cards[c])) == Done)
  }

  function FinishedCards(t: Tick): set<Card> {
    set c | c in t.cards && Finished(t, c) :: t.cards[c]
  }

  /** A card that has finished its own chunk, has taken nobody else's, and is measured free. */
  predicate Free(t: Tick, card: Card) {
    card !in t.busy && card in FinishedCards(t) && CanAccept(ProbeOf(t.probes, card))
  }

  predicate MayTake(t: Tick, owner: Card, card: Card) {
    card != owner && Free(t, card)
  }

  /** `plan_recovery`: the first free card in assignment order, or the chunk restarts where it is. */
  function FirstFree(t: Tick, owner: Card, i: nat): (r: Option<Card>)
    requires t.Valid() && i <= |t.order|
    ensures r.Some? ==> MayTake(t, owner, r.value)
    ensures r.None? ==> forall j :: i <= j < |t.order| ==> !MayTake(t, owner, t.cards[t.order[j]])
    decreases |t.order| - i
  {
    if i == |t.order| then None
    else
      var card := t.cards[t.order[i]];
      if MayTake(t, owner, card) then Some(card) else FirstFree(t, owner, i + 1)
  }

  function Recovery(t: Tick, c: Chunk): Action
    requires t.Valid() && c in t.cards
  {
    var free := FirstFree(t, t.cards[c], 0);
    if free.Some? then Reassign(c, free.value) else RestartInPlace(c, t.cards[c])
  }

  /** One chunk's progress clock: the last size seen and when it last changed. */
  datatype Clock = Clock(size: Option<int>, change: Option<real>)

  function ClockOf(size: map<Chunk, int>, change: map<Chunk, real>, c: Chunk): Clock {
    Clock(if c in size then Some(size[c]) else None, if c in change then Some(change[c]) else None)
  }

  /** The clock after the probe: it starts again when the size has moved. */
  function Observed(t: Tick, k: Clock, p: Probe): Clock {
    var sz := SizeOf(p);
    if sz.Some? && sz != k.size then Clock(sz, Some(t.now)) else k
  }

  function StaticFor(t: Tick, k: Clock): real {
    if k.change.Some? then t.now - k.change.value else 0.0
  }

  /** Both conditions, never one: it looks idle and it has been static for longer than the stall time. */
  predicate Wedged(t: Tick, k: Clock, p: Probe) {
    StateOf(p) == Idle && StaticFor(t, k) > t.stall
  }

  /** What the poll decides for one chunk, and its clock afterwards. */
  function Plan(t: Tick, c: Chunk, k: Clock): (Option<Action>, Clock)
    requires t.Valid() && c in t.cards
  {
    var p := ProbeOf(t.probes, t.cards[c]);
    if c in t.staged then (None, k)
    else if StateOf(p) == Done then (Some(Stage(c, t.cards[c])), k)
    else if StateOf(p) == Unreachable then (None, k)
    else
      var seen := Observed(t, k, p);
      if Wedged(t, seen, p) then (Some(Recovery(t, c)), Clock(Some(0), Some(t.now))) else (None, seen)
  }

  function PlannedActions(t: Tick, size: map<Chunk, int>, change: map<Chunk, real>, i: nat): seq<Action>
    requires t.Valid() && i <= |t.order|
  {
    if i == 0 then []
    else
      var c := t.order[i-1];
      var a := Plan(t, c, ClockOf(size, change, c)).0;
      PlannedActions(t, size, change, i - 1) + (if a.Some? then [a.value] else [])
  }

  /** Chunk c's clock is what the plan says it is once the chunk has been visited. */
  ghost predicate ClocksAfter(t: Tick, size: map<Chunk, int>, change: map<Chunk, real>,
                              size': map<Chunk, int>, change': map<Chunk, real>, i: nat)
    requires t.Valid() && i <= |t.order|
  {
    && (forall j :: 0 <= j < i ==>
          ClockOf(size', change', t.order[j]) == Plan(t, t.order[j], ClockOf(size, change, t.order[j])).1)
    && (forall c :: c !in t.order[..i] ==> ClockOf(size', change', c) == ClockOf(size, change, c))
  }

  /** One chunk of the poll: an action, if any, and its clock moved on. */
  method PlanChunk(t: Tick, c: Chunk, size: map<Chunk, int>, change: map<Chunk, real>)
    returns (action: Option<Action>, size': map<Chunk, int>, change': map<Chunk, real>)
    requires t.Valid() && c in t.cards
    ensures (action, ClockOf(size', change', c)) == Plan(t, c, ClockOf(size, change, c))
    ensures forall d :: d != c ==> ClockOf(size', change', d) == ClockOf(size, change, d)
  {
    action, size', change' := None, size, change;
    var p := ProbeOf(t.probes, t.cards[c]);
    if c in t.staged {
      return;
    }
    var state := StateOf(p);
    if state == Done {
      action := Some(Stage(c, t.cards[c]));
      return;
    }
    if state == Unreachable {
      return;                               // nothing was learned: leave the timers alone
    }
    var sz := SizeOf(p);
    if sz.Some? && (c !in size' || sz.value != size'[c]) {
      size', change' := size'[c := sz.value], change'[c := t.now];
    }
    var idleFor := if c in change' then t.now - change'[c] else 0.0;
    if state == Idle && idleFor > t.stall {
      action := Some(Recovery(t, c));
      size', change' := size'[c := 0], change'[c := t.now];
    }
  }

  /** The chunks whose own card has finished, or that are staged already. */
  method FinishedChunks(t: Tick) returns (finished: set<Chunk>)
    requires t.Valid()
    ensures forall c :: c in finished <==> Finished(t, c)
  {
    finished := t.staged;
    for i := 0 to |t.order|
      invariant forall c :: c in finished <==> c in t.staged || (c in t.order[..i] && Finished(t, c))
    {
      var c := t.order[i];
      if c !in finished && StateOf(ProbeOf(t.probes, t.cards[c])) == Done {
        finished := finished + {c};
      }
    }
    assert t.order[..|t.order|] == t.order;
  }

  /** `plan_tick`: decides everything for one poll and performs nothing. */
  method PlanTick(t: Tick, lastSize: map<Chunk, int>, lastChange: map<Chunk, real>)
    returns (actions: seq<Action>, size: map<Chunk, int>, change: map<Chunk, real>, finished: set<Chunk>)
    requires t.Valid()
    ensures actions == PlannedActions(t, lastSize, lastChange, |t.order|)
    ensures ClocksAfter(t, lastSize, lastChange, size, change, |t.order|)
    ensures forall c :: c in finished <==> Finished(t, c)
  {
    finished := FinishedChunks(t);
    actions, size, change := [], lastSize, lastChange;
    for i := 0 to |t.order|
      invariant actions == PlannedActions(t, lastSize, lastChange, i)
      invariant ClocksAfter(t, lastSize, lastChange, size, change, i)
    {
      var c := t.order[i];
      assert c !in t.order[..i];
      assert ClockOf(size, change, c) == ClockOf(lastSize, lastChange, c);
      var sizeWas, changeWas, action := size, change, None;
      action, size, change := PlanChunk(t, c, size, change);
      if action.Some? {
        actions := actions + [action.value];
      }
      ClocksStep(t, lastSize, lastChange, sizeWas, changeWas, size, change, i);
    }
  }

  lemma ClocksStep(t: Tick, size: map<Chunk, int>, change: map<Chunk, real>,
                   sizeWas: map<Chunk, int>, changeWas: map<Chunk, real>,
                   size': map<Chunk, int>, change': map<Chunk, real>, i: nat)
    requires t.Valid() && i < |t.order| && ClocksAfter(t, size, change, sizeWas, changeWas, i)
    requires ClockOf(size', change', t.order[i]) == Plan(t, t.order[i], ClockOf(size, change, t.order[i])).1
    requires forall c :: c != t.order[i] ==> ClockOf(size', change', c) == ClockOf(sizeWas, changeWas, c)
    ensures ClocksAfter(t, size, change, size', change', i + 1)
  {
    assert t.order[..i+1] == t.order[..i] + [t.order[i]];
  }

  // ---------- what a plan promises ----------

  /** A recovered chunk had shown nothing for longer than the stall time, and its clock starts again. */
  lemma RecoveryIsLate(t: Tick, c: Chunk, k: Clock)
    requires t.Valid() && c in t.cards && k.change.Some? && k.change.value <= t.now
    ensures var (a, k') := Plan(t, c, k);
            && k'.change.Some? && k.change.value <= k'.change.value <= t.now
            && (a.Some? ==> a.value.chunk == c && c !in t.staged)
            && (a.Some? && IsRecovery(a.value) ==> t.now > k.change.value + t.stall && k'.change.value == t.now)
  {
  }

  /** Work moves only to another card that has finished its own chunk, has taken nobody else's, and is measured
      free; and a chunk restarts in place only when there is no such card. */
  lemma RecoveryChoosesWell(t: Tick, c: Chunk)
    requires t.Valid() && c in t.cards
    ensures match Recovery(t, c)
            case Reassign(chunk, to) => chunk == c && MayTake(t, t.cards[c], to)
            case RestartInPlace(chunk, on) =>
              chunk == c && on == t.cards[c] && forall d :: d in t.cards ==> !MayTake(t, on, t.cards[d])
            case Stage(_, _) => false
  {
    forall d | d in t.cards && FirstFree(t, t.cards[c], 0).None? ensures !MayTake(t, t.cards[c], t.cards[d]) {
      assert d in t.order;
      var j :| 0 <= j < |t.order| && t.order[j] == d;
    }
  }

  lemma PlanActsOn(t: Tick, c: Chunk, k: Clock)
    requires t.Valid() && c in t.cards
    ensures Plan(t, c, k).0.Some? ==> Plan(t, c, k).0.value.chunk == c && c !in t.staged
  {
  }

  predicate OneEach(acts: seq<Action>, chunks: seq<Chunk>, staged: set<Chunk>) {
    && (forall n :: 0 <= n < |acts| ==> acts[n].chunk in chunks && acts[n].chunk !in staged)
    && (forall m, n :: 0 <= m < n < |acts| ==> acts[m].chunk != acts[n].chunk)
  }

  lemma OneEachAppend(acts: seq<Action>, chunks: seq<Chunk>, staged: set<Chunk>, c: Chunk, a: Option<Action>)
    requires OneEach(acts, chunks, staged) && c !in chunks && (a.Some? ==> a.value.chunk == c && c !in staged)
    ensures OneEach(acts + (if a.Some? then [a.value] else []), chunks + [c], staged)
  {
  }

  /** Each chunk gets at most one action in a poll, and a staged chunk none. */
  lemma {:induction false} OneActionPerChunk(t: Tick, size: map<Chunk, int>, change: map<Chunk, real>, i: nat)
    requires t.Valid() && i <= |t.order|
    ensures OneEach(PlannedActions(t, size, change, i), t.order[..i], t.staged)
  {
    if i > 0 {
      var c := t.order[i-1];
      OneActionPerChunk(t, size, change, i - 1);
      PlanActsOn(t, c, ClockOf(size, change, c));
      OneEachAppend(PlannedActions(t, size, change, i - 1), t.order[..i-1], t.staged, c, Plan(t, c, ClockOf(size, change, c)).0);
      assert t.order[..i] == t.order[..i-1] + [c];
    }
  }

  // ---------- a plan, from the probe's numbers ----------

  /** Nothing runs there, or it hardly works and its memory is nearly empty. */
  predicate LooksIdle(m: Metrics) {
    m.nproc < 1.0 || (m.util < 5.0 && m.vram < 2000.0)
  }

  /** What a poll decides for a chunk, by its card's reply: nothing for a staged chunk or a card that did not answer, whose
      timers also stay; collect the receipt of a card that has one; and recover a chunk only from a card that looks idle
      and whose log, its clock started again by any change of size, has not moved for more than the stall time. */
  lemma PlanFromReply(t: Tick, c: Chunk, k: Clock)
    requires t.Valid() && c in t.cards
    ensures var (action, k') := Plan(t, c, k);
            var reply := if t.cards[c] in t.probes then t.probes[t.cards[c]] else Silent;
            if c in t.staged then action == None && k' == k
            else match reply
                 case Silent => action == None && k' == k
                 case Garbled => action == None && k' == k
                 case DoneReply(_) => action == Some(Stage(c, t.cards[c])) && k' == k
                 case Reply(m) =>
                   var since := if k.size == Some(m.size) then k.change else Some(t.now);
                   var still := match since case Some(then_) => t.now - then_ case None => 0.0;
                   if LooksIdle(m) && still > t.stall then
                     && action.Some? && !action.value.Stage? && action.value.chunk == c
                     && k' == Clock(Some(0), Some(t.now))
                   else action == None && k' == Clock(Some(m.size), since)
  {
  }

  /** A working card is left alone, however long its log has been still; and so is one whose log has just moved. */
  lemma WorkingIsLeftAlone(t: Tick, c: Chunk, k: Clock, m: Metrics)
    requires t.Valid() && c in t.cards && t.cards[c] in t.probes && t.probes[t.cards[c]] == Reply(m)
    requires (m.nproc >= 1.0 && (m.util >= 5.0 || m.vram >= 2000.0)) || (t.stall >= 0.0 && k.size != Some(m.size))
    ensures Plan(t, c, k).0 == None
  {
    PlanFromReply(t, c, k);
  }

  /** The card's last reply says that nothing runs on it and its memory is nearly empty. */
  predicate ReportsFree(t: Tick, card: Card) {
    card in t.probes && match t.probes[card]
                        case DoneReply(Some(m)) => m.nproc == 0.0 && m.vram < 2000.0
                        case Reply(m) => m.nproc == 0.0 && m.vram < 2000.0
                        case _ => false
  }

  /** Some chunk of this card is staged, or the card has reported its receipt. */
  predicate HasFinished(t: Tick, card: Card) {
    || (exists d :: d in t.staged && d in t.cards && t.cards[d] == card)
    || ((exists d :: d in t.cards && t.cards[d] == card) && card in t.probes && t.probes[card].DoneReply?)
  }

  lemma FreeFromReplies(t: Tick, card: Card)
    ensures Free(t, card) <==> card !in t.busy && HasFinished(t, card) && ReportsFree(t, card)
  {
    if card in FinishedCards(t) {
      var d :| d in t.cards && Finished(t, d) && t.cards[d] == card;
    }
    if HasFinished(t, card) {
      if d :| d in t.staged && d in t.cards && t.cards[d] == card {
        assert Finished(t, d);
      } else {
        var d :| d in t.cards && t.cards[d] == card;
        assert Finished(t, d);
      }
    }
  }

  // ---------- one card, two chunks ----------

  /** The first free card in assignment order, whoever asks. */
  function FirstCard(t: Tick, i: nat): (r: Option<Card>)
    requires t.Valid() && i <= |t.order|
    ensures r.Some? ==> Free(t, r.value)
    ensures r.None? ==> forall j :: i <= j < |t.order| ==> !Free(t, t.cards[t.order[j]])
    decreases |t.order| - i
  {
    if i == |t.order| then None
    else
      var card := t.cards[t.order[i]];
      if Free(t, card) then Some(card) else FirstCard(t, i + 1)
  }

  /** A chunk goes to the first free card, unless that is the card it is on. */
  lemma {:induction false} GoesToFirstCard(t: Tick, owner: Card, i: nat)
    requires t.Valid() && i <= |t.order| && FirstCard(t, i) != Some(owner)
    ensures FirstFree(t, owner, i) == FirstCard(t, i)
    decreases |t.order| - i
  {
    hide Free;
    if i < |t.order| {
      var card := t.cards[t.order[i]];
      if !Free(t, card) {
        GoesToFirstCard(t, owner, i + 1);
      }
    }
  }

  lemma NoneMeansNoneFree(t: Tick, owner: Card, card: Card)
    requires t.Valid() && Free(t, card)
    ensures FirstCard(t, 0).Some?
    ensures card != owner ==> FirstFree(t, owner, 0).Some?
  {
    var d :| d in t.cards && Finished(t, d) && t.cards[d] == card;
    assert d in t.order;
    var j :| 0 <= j < |t.order| && t.order[j] == d;
    assert Free(t, t.cards[t.order[j]]);
    assert card != owner ==> MayTake(t, owner, t.cards[t.order[j]]);
  }

  /** The card a chunk goes to is the first in assignment order that it may take. */
  lemma {:induction false} GoesToTheFirst(t: Tick, owner: Card, i: nat) returns (j: nat)
    requires t.Valid() && i <= |t.order| && FirstFree(t, owner, i).Some?
    ensures i <= j < |t.order| && t.cards[t.order[j]] == FirstFree(t, owner, i).value && t.cards[t.order[j]] != owner
    ensures forall k :: i <= k < j ==> t.cards[t.order[k]] == owner || !Free(t, t.cards[t.order[k]])
    decreases |t.order| - i
  {
    if MayTake(t, owner, t.cards[t.order[i]]) {
      j := i;
    } else {
      j := GoesToTheFirst(t, owner, i + 1);
    }
  }

  /** Two chunks, on cards a and b, that would both be sent to one card: there is a free card, and either neither is on
      the first one, or both are and there is another. */
  ghost predicate Collide(t: Tick, a: Card, b: Card)
    requires t.Valid()
  {
    var first := FirstCard(t, 0);
    first.Some? && if a == first.value && b == first.value then exists card :: Free(t, card) && card != first.value
                   else a != first.value && b != first.value
  }

  lemma SameTargetIffCollide(t: Tick, a: Card, b: Card)
    requires t.Valid()
    ensures FirstFree(t, a, 0).Some? && FirstFree(t, a, 0) == FirstFree(t, b, 0) <==> Collide(t, a, b)
  {
    hide Free;
    var first := FirstCard(t, 0);
    if first != Some(a) {
      GoesToFirstCard(t, a, 0);
    }
    if first != Some(b) {
      GoesToFirstCard(t, b, 0);
    }
    if first == Some(a) && a == b {
      if card :| Free(t, card) && card != a {
        NoneMeansNoneFree(t, a, card);
      }
      assert FirstFree(t, a, 0).Some? ==> MayTake(t, a, FirstFree(t, a, 0).value);
    }
  }

  /** Chunks on cards that are not free themselves are sent to one card exactly when there is a free card. */
  lemma NotFreeCollide(t: Tick, a: Card, b: Card)
    requires t.Valid() && !Free(t, a) && !Free(t, b)
    ensures Collide(t, a, b) <==> exists card :: Free(t, card)
  {
    hide Free;
    if card :| Free(t, card) {
      NoneMeansNoneFree(t, a, card);
    }
  }

  /** The poll recovers chunk c. */
  predicate Recovered(t: Tick, size: map<Chunk, int>, change: map<Chunk, real>, c: Chunk)
    requires t.Valid()
  {
    c in t.cards && var a := Plan(t, c, ClockOf(size, change, c)).0; a.Some? && IsRecovery(a.value)
  }

  predicate SentTo(a: Action, card: Card) {
    a.Reassign? && a.to == card
  }

  /** Two of a poll's actions send a chunk to the same card. */
  predicate SendsTwice(acts: seq<Action>) {
    exists m, n :: 0 <= m < n < |acts| && acts[m].Reassign? && SentTo(acts[n], acts[m].to)
  }

  lemma {:induction false} PlannedIs(t: Tick, size: map<Chunk, int>, change: map<Chunk, real>, i: nat, a: Action)
    requires t.Valid() && i <= |t.order|
    ensures a in PlannedActions(t, size, change, i) <==>
              exists j :: 0 <= j < i && Plan(t, t.order[j], ClockOf(size, change, t.order[j])).0 == Some(a)
  {
    hide Plan;
    if i > 0 {
      PlannedIs(t, size, change, i - 1, a);
    }
  }

  /** A recovery among the poll's actions is its chunk's recovery. */
  lemma PlannedRecovery(t: Tick, size: map<Chunk, int>, change: map<Chunk, real>, a: Action)
    requires t.Valid() && a in PlannedActions(t, size, change, |t.order|) && IsRecovery(a)
    ensures Recovered(t, size, change, a.chunk) && a == Recovery(t, a.chunk)
  {
    hide PlannedActions;
    PlannedIs(t, size, change, |t.order|, a);
    var j :| 0 <= j < |t.order| && Plan(t, t.order[j], ClockOf(size, change, t.order[j])).0 == Some(a);
    RecoveryChoosesWell(t, t.order[j]);
  }

  lemma RecoveredIsPlanned(t: Tick, size: map<Chunk, int>, change: map<Chunk, real>, c: Chunk)
    requires t.Valid() && Recovered(t, size, change, c)
    ensures Recovery(t, c) in PlannedActions(t, size, change, |t.order|) && Recovery(t, c).chunk == c
  {
    hide PlannedActions;
    assert c in t.order;
    var j :| 0 <= j < |t.order| && t.order[j] == c;
    RecoveryChoosesWell(t, c);
    PlannedIs(t, size, change, |t.order|, Recovery(t, c));
  }

  /** Exactly when one poll sends two chunks to one card: it recovers two that collide. */
  lemma OnePollSendsTwice(t: Tick, size: map<Chunk, int>, change: map<Chunk, real>)
    requires t.Valid()
    ensures SendsTwice(PlannedActions(t, size, change, |t.order|)) <==>
              exists c, d :: c != d && Recovered(t, size, change, c) && Recovered(t, size, change, d)
                             && Collide(t, t.cards[c], t.cards[d])
  {
    hide Plan, PlannedActions, Collide, FirstFree;
    var acts := PlannedActions(t, size, change, |t.order|);
    if m, n :| 0 <= m < n < |acts| && acts[m].Reassign? && SentTo(acts[n], acts[m].to) {
      OneActionPerChunk(t, size, change, |t.order|);
      PlannedRecovery(t, size, change, acts[m]);
      PlannedRecovery(t, size, change, acts[n]);
      SameTargetIffCollide(t, t.cards[acts[m].chunk], t.cards[acts[n].chunk]);
    }
    if c, d :| c != d && Recovered(t, size, change, c) && Recovered(t, size, change, d)
               && Collide(t, t.cards[c], t.cards[d]) {
      RecoveredIsPlanned(t, size, change, c);
      RecoveredIsPlanned(t, size, change, d);
      SameTargetIffCollide(t, t.cards[c], t.cards[d]);
      TwoIndices(acts, Recovery(t, c), Recovery(t, d));
    }
  }

  lemma TwoIndices(acts: seq<Action>, a: Action, b: Action)
    requires a in acts && b in acts && a.chunk != b.chunk && a.Reassign? && b.Reassign? && a.to == b.to
    ensures SendsTwice(acts)
  {
    var m :| 0 <= m < |acts| && acts[m] == a;
    var n :| 0 <= n < |acts| && acts[n] == b;
    if m < n {
      assert SentTo(acts[n], acts[m].to);
    } else {
      assert SentTo(acts[m], acts[n].to);
    }
  }

  const WEDGED := Reply(Metrics(7, 0.0, 0.0, 0.0))
  const FREE := DoneReply(Some(Metrics(9, 0.0, 0.0, 0.0)))
  const POLL := Tick([0, 1, 2], map[0 := 10, 1 := 11, 2 := 12], map[10 := WEDGED, 11 := WEDGED, 12 := FREE], {}, {}, 500.0, 100.0)
  const SIZES: map<Chunk, int> := map[0 := 7, 1 := 7]
  const CHANGES: map<Chunk, real> := map[0 := 1.0, 1 := 1.0]

  lemma OnlyCard12IsFree(owner: Card)
    requires owner == 10 || owner == 11
    ensures FirstFree(POLL, owner, 0) == Some(12)
  {
    assert !Finished(POLL, 0) && !Finished(POLL, 1) && Finished(POLL, 2);
    assert POLL.cards[2] in FinishedCards(POLL);
    assert FirstFree(POLL, owner, 2) == Some(12);
    assert 10 !in FinishedCards(POLL) && 11 !in FinishedCards(POLL);
    assert FirstFree(POLL, owner, 1) == Some(12);
  }

  /** Inside one poll `busy` does not grow, so two wedged chunks can be sent to the same free card. */
  lemma TwoChunksOneCard()
    ensures POLL.Valid()
    ensures Plan(POLL, 0, ClockOf(SIZES, CHANGES, 0)).0 == Some(Reassign(0, 12))
    ensures Plan(POLL, 1, ClockOf(SIZES, CHANGES, 1)).0 == Some(Reassign(1, 12))
  {
    OnlyCard12IsFree(10);
    OnlyCard12IsFree(11);
  }
}
