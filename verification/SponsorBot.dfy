/** The sponsor proving bot: it rents pods, gives them blocks, and must never outspend its budget or leave a pod
    running. The outside world (the coordinator, RunPod, ssh, the clock) answers as it likes: every answer is an
    arbitrary value, and the clock is any clock that never runs backwards. A signal or an error may cut any step
    between two of its statements (`signal`); the field `tear` says what the cut left behind. */
module SponsorBot {
  import opened Ranges
  import opened BotMoney
  import opened BotWork

  datatype StopReason = Budget | Coordinator | RunPod | Finished

  datatype Deploy = Refused | NoCapacity | Deployed(cost: real)

  datatype WorkerStatus = Running | WorkerFinished | WorkerUnreachable

  const RUNPOD_REFUSALS_MAX := 3
  const COORD_ERRORS_MAX := 10

  /** What a row of a stopped pod ends as. */
  function EndedAs(tasks: Tasks, r: int, w: WorkRow, answer: set<int>, o: Outcome): Option<Outcome> {
    if w.outcome.Some? || !HasRow(tasks, r) then w.outcome
    else if w.height in answer then Some(Proven)
    else Some(o)
  }

  /** The log after a pod with these tasks was stopped: its open rows are settled, closed rows and rows of other
      pods keep what they have. */
  ghost predicate RowsEnded(tasks: Tasks, before: seq<WorkRow>, after: seq<WorkRow>, answer: set<int>, o: Outcome) {
    |after| == |before| && forall r :: 0 <= r < |after| ==> RowEnded(tasks, r, before[r], after[r], answer, o)
  }

  predicate RowEnded(tasks: Tasks, r: int, before: WorkRow, after: WorkRow, answer: set<int>, o: Outcome) {
    && after.outcome == EndedAs(tasks, r, before, answer, o)
    && (before.outcome.Some? ==> after == before)
    && after.pod == before.pod && after.height == before.height
  }

  predicate Stopped(before: Pod, after: Pod, ended: real) {
    after.terminated == Some(ended) && after.cost == before.cost && after.created == before.created
  }

  /** A cut stop: the pod may or may not have got as far as being stopped. */
  predicate PerhapsStopped(before: Pod, after: Pod, ended: real) {
    after.cost == before.cost && after.created == before.created && (after.Live() || after.terminated == Some(ended))
  }

  /** Recording a landed block fails on a pod whose segment was never started. */
  predicate Stuck(p: Pod, answer: set<int>) {
    p.segmentStart.None? && Done(p.tasks, answer) != []
  }

  /** A pod, and the log, once the landed blocks are recorded. */
  function Recorded(p: Pod, covered: set<int>, look: real): Pod {
    if Done(p.tasks, covered) == [] then p
    else p.(tasks := Rest(p.tasks, covered), segmentStart := Some(look), lastProgress := look)
  }

  ghost function RecordedRows(work: seq<WorkRow>, p: Pod, covered: set<int>, look: real): seq<WorkRow> {
    var done := Done(p.tasks, covered);
    if done == [] then work else Closed(work, done, Proven, SplitOf(look - p.Since(), |done|))
  }

  /** What a cut recording leaves: the first rows are closed, the pod's tasks given up or not, its segment running. */
  ghost predicate RecordingCut(p: Pod, before: seq<WorkRow>, landed: set<int>, now: real, p': Pod, after: seq<WorkRow>) {
    var done := Done(p.tasks, landed);
    && done != []
    && (p' == p || (p' == p.(tasks := Rest(p.tasks, landed)) && after == Closed(before, done, Proven, SplitOf(now - p.Since(), |done|))))
    && exists n :: 0 <= n <= |done| && after == Closed(before, done[..n], Proven, SplitOf(now - p.Since(), |done|))
  }

  datatype Verdict = Stop(o: Outcome) | Keep(p: Pod)

  /** Whether the coordinator is asked about the sponsorships of these tasks at all. */
  predicate Sponsored(tasks: Tasks) {
    exists a :: a in tasks && a.sid.Some?
  }

  /** What a look decides about a working pod, once its landed blocks are recorded. */
  function Judge(l: Limits, p: Pod, look: real, held: bool, status: WorkerStatus): Verdict {
    if Sponsored(p.tasks) && !held then Stop(Cancelled)
    else if p.tasks == [] then Keep(p.(state := Idle, finishedSince := None))
    else if look - p.lastProgress > l.stall then Stop(Stalled)
    else if status != WorkerFinished then Keep(p.(finishedSince := None))
    else
      var since := if p.finishedSince.Some? then p.finishedSince.value else look;
      if look - since > l.failGrace then Stop(Failed) else Keep(p.(finishedSince := Some(since)))
  }

  predicate Lists(todo: Queue, h: int) {
    exists m :: 0 <= m < |todo| && todo[m].1 == h
  }

  /** The queue's blocks that are neither busy nor repeated and have a bundle, in order. */
  function Todo(pods: seq<Pod>, queue: Queue, bundled: set<int>, n: nat): Queue
    requires n <= |queue|
  {
    if n == 0 then []
    else
      var t, h := Todo(pods, queue, bundled, n - 1), queue[n-1].1;
      if BusyWith(pods, h) || h !in bundled || Lists(t, h) then t else t + [queue[n-1]]
  }

  lemma NothingListed()
    ensures forall h :: !Lists([], h)
  {
  }

  lemma ListsAppend(todo: Queue, e: (Option<nat>, int))
    ensures forall h :: Lists(todo + [e], h) <==> Lists(todo, h) || h == e.1
  {
    forall h ensures Lists(todo + [e], h) <==> Lists(todo, h) || h == e.1 {
      assert (todo + [e])[|todo|] == e;
      if Lists(todo, h) {
        var m :| 0 <= m < |todo| && todo[m].1 == h;
        assert (todo + [e])[m] == todo[m];
      }
    }
  }

  /** What is left to do: fresh, bundled blocks of the queue, and every such block of it. */
  lemma {:induction false} TodoIsTheRest(pods: seq<Pod>, queue: Queue, bundled: set<int>, n: nat)
    requires n <= |queue|
    ensures var todo := Todo(pods, queue, bundled, n);
            && Fresh(pods, todo)
            && (forall k :: 0 <= k < |todo| ==> todo[k] in queue && todo[k].1 in bundled)
            && (forall k :: 0 <= k < n && queue[k].1 in bundled && !BusyWith(pods, queue[k].1) ==> Lists(todo, queue[k].1))
  {
    hide BusyWith;
    if n > 0 {
      TodoIsTheRest(pods, queue, bundled, n - 1);
      ListsAppend(Todo(pods, queue, bundled, n - 1), queue[n-1]);
      var todo := Todo(pods, queue, bundled, n - 1);
      assert forall m :: 0 <= m < |todo| ==> Lists(todo, todo[m].1);
    }
  }

  /** The list takes the queue's entries in order, each block at its first place there. */
  predicate TakenInOrder(todo: Queue, queue: Queue, places: seq<nat>) {
    && |places| == |todo|
    && (forall m :: 0 <= m < |todo| ==> places[m] < |queue| && queue[places[m]] == todo[m])
    && (forall m, j :: 0 <= m < |todo| && 0 <= j < places[m] ==> queue[j].1 != todo[m].1)
    && (forall m, n :: 0 <= m < n < |todo| ==> places[m] < places[n])
  }

  lemma NoPlaces(queue: Queue)
    ensures TakenInOrder([], queue, [])
  {
  }

  lemma NextPlace(todo: Queue, queue: Queue, places: seq<nat>, n: nat)
    requires n < |queue| && TakenInOrder(todo, queue, places) && forall m :: 0 <= m < |places| ==> places[m] < n
    requires forall j :: 0 <= j < n ==> queue[j].1 != queue[n].1
    ensures TakenInOrder(todo + [queue[n]], queue, places + [n])
  {
  }

  lemma {:induction false} TodoInOrder(pods: seq<Pod>, queue: Queue, bundled: set<int>, n: nat) returns (places: seq<nat>)
    requires n <= |queue|
    ensures TakenInOrder(Todo(pods, queue, bundled, n), queue, places)
    ensures forall m :: 0 <= m < |places| ==> places[m] < n
  {
    hide TakenInOrder, BusyWith, Fresh, Lists;
    if n == 0 {
      places := [];
      NoPlaces(queue);
    } else {
      places := TodoInOrder(pods, queue, bundled, n - 1);
      if Takes(pods, queue, bundled, n - 1) {
        TakenIsNew(pods, queue, bundled, n - 1);
        NextPlace(Todo(pods, queue, bundled, n - 1), queue, places, n - 1);
        places := places + [n - 1];
      }
    }
  }

  /** The list takes the queue's entry n. */
  predicate Takes(pods: seq<Pod>, queue: Queue, bundled: set<int>, n: nat)
    requires n < |queue|
  {
    !BusyWith(pods, queue[n].1) && queue[n].1 in bundled && !Lists(Todo(pods, queue, bundled, n), queue[n].1)
  }

  lemma TakenIsNew(pods: seq<Pod>, queue: Queue, bundled: set<int>, n: nat)
    requires n < |queue| && Takes(pods, queue, bundled, n)
    ensures forall j :: 0 <= j < n ==> queue[j].1 != queue[n].1
  {
    hide BusyWith, Lists, Fresh;
    TodoIsTheRest(pods, queue, bundled, n);
  }

  function FirstOf(todo: Queue, n: nat): Queue {
    if |todo| <= n then todo else todo[..n]
  }

  class Bot {
    const l: Limits
    var pods: seq<Pod>
    var work: seq<WorkRow>
    var stopReason: Option<StopReason>
    var capacityAt: real
    var refusals: nat
    var coordErrors: nat

    /** The clock of the current look. */
    var look: real

    /** Not the bot's own fields: the latest reading of the clock, how long the last passed budget check covers (one
        lead time from its look), and what a cut left behind. */
    var last: real
    ghost var deadline: real
    ghost var tear: Tear

    /** The recording a cut fell into, if it did, and whether the cleanup has begun since. */
    ghost var cut: CutShort
    ghost var cleaning: bool

    ghost predicate Valid()
      reads this
    {
      && Accepted(l) && look <= last
      && StateOk(pods, work, last, tear) && WithinBudget(l, pods, last, deadline)
      && (tear.Recording? && !cleaning ==> CutLeft(cut, pods, work, last, tear.pod))
    }

    /** Between steps of a run that was not cut. */
    ghost predicate Ready()
      reads this
    {
      && tear == Whole
      && (forall i :: 0 <= i < |pods| && pods[i].Live() && pods[i].state != WaitingSsh ==> pods[i].Since() <= look)
    }

    /** As long as the clock has not passed the deadline the estimated spend is below the cap, up to the deadline. */
    lemma SpendStaysBelowCap(at: real)
      requires Valid() && PricedIn(l, pods) && last <= deadline && at <= deadline
      ensures Spend(pods, at, l.ceiling) < l.maxUsd
    {
      SpendNeverFalls(pods, at, deadline, l.ceiling);
    }

    constructor (l: Limits, start: real)
      requires Accepted(l)
      ensures Valid() && Ready() && pods == [] && work == [] && stopReason == None && this.l == l
      ensures look == last == deadline == start
    {
      this.l := l;
      pods, work, stopReason := [], [], None;
      capacityAt, refusals, coordErrors := 0.0, 0, 0;
      last, look, deadline, tear := start, start, start, Whole;
      cut, cleaning := CutShort([], 0.0, [], 0, 0.0, []), false;
    }

    /** Any later moment. */
    method ReadClock(after: real) returns (t: real)
      ensures after <= t
    {
      t := *;
      if t < after {
        t := after;
      }
    }

    /** How many of n statements run before the cut. */
    method CutAfter(n: nat) returns (k: nat)
      ensures k <= n
    {
      k := *;
      if k > n {
        k := n;
      }
    }

    // ---------- recording and terminating ----------

    /** Closes the rows of some of pod i's tasks, one UPDATE each. */
    method CloseRows(i: nat, tasks: Tasks, o: Outcome, s: real)
      requires i < |pods| && forall a :: a in tasks ==> TaskOk(work, i, a)
      requires DistinctHeights(tasks)
      modifies this`work
      ensures work == Closed(old(work), tasks, o, s)
    {
      ghost var before := work;
      assert Closed(work, tasks[..0], o, s) == work;
      for k := 0 to |tasks|
        invariant work == Closed(before, tasks[..k], o, s)
      {
        var r := tasks[k].row;
        assert TaskOk(before, i, tasks[k]);
        RowsDiffer(before, tasks, i, k);
        ClosedStep(before, tasks, k, o, s);
        if work[r].outcome.None? {
          work := work[r := CloseRow(work[r], o, s)];
        }
      }
      assert tasks[..|tasks|] == tasks;
    }

    /** The even split adds back up to the time since the last block landed, so the log stays within the pod's. */
    lemma RecordKeepsState(i: nat, landed: set<int>, now: real, tear': Tear)
      requires Accepted(l) && StateOk(pods, work, last, tear') && WithinBudget(l, pods, last, deadline)
      requires i < |pods| && pods[i].Live() && pods[i].Since() <= now <= last
      requires Done(pods[i].tasks, landed) != []
      ensures var p, done := pods[i], Done(pods[i].tasks, landed);
              var p' := p.(tasks := Rest(p.tasks, landed), segmentStart := Some(now), lastProgress := now);
              StateOk(pods[i := p'], Closed(work, done, Proven, SplitOf(now - p.Since(), |done|)), last, tear')
              && WithinBudget(l, pods[i := p'], last, deadline)
    {
      hide SplitOf, LinksOk, SecondsOk, WithinBudget;
      var p, done := pods[i], Done(pods[i].tasks, landed);
      var p' := p.(tasks := Rest(p.tasks, landed), segmentStart := Some(now), lastProgress := now);
      TasksAreDistinct(pods, work, last, tear', i);
      FiltersDistinct(p.tasks, landed);
      SplitIsNonNegative(now - p.Since(), |done|);
      GivingUpKeepsState(pods, work, last, i, p', done, Proven, SplitOf(now - p.Since(), |done|), tear');
      UpdateKeepsBudget(l, pods, last, deadline, i, p');
    }

    lemma DoneAreOk(i: nat, landed: set<int>)
      requires StateOk(pods, work, last, tear) && i < |pods|
      ensures var done := Done(pods[i].tasks, landed);
              DistinctHeights(done) && forall a :: a in done ==> a in pods[i].tasks && TaskOk(work, i, a)
    {
      FiltersDistinct(pods[i].tasks, landed);
    }

    /** A recording cut before its rows were all closed, or before or after the pod gave the blocks up. */
    lemma CutRecordingKeepsState(i: nat, landed: set<int>, now: real, n: nat)
      requires Accepted(l) && StateOk(pods, work, last, Whole) && WithinBudget(l, pods, last, deadline) && i < |pods|
      requires pods[i].Live() && pods[i].Since() <= now <= last && Done(pods[i].tasks, landed) != []
      requires n <= |Done(pods[i].tasks, landed)| && pods[i].segmentStart.Some?
      ensures var p, done := pods[i], Done(pods[i].tasks, landed);
              var s := SplitOf(now - p.Since(), |done|);
              var p' := p.(tasks := Rest(p.tasks, landed));
              && StateOk(pods, Closed(work, done[..n], Proven, s), last, Recording(i))
              && StateOk(pods[i := p'], Closed(work, done, Proven, s), last, Recording(i))
              && WithinBudget(l, pods[i := p'], last, deadline)
    {
      hide SplitOf, LinksOk, SecondsOk, WithinBudget;
      var p, done := pods[i], Done(pods[i].tasks, landed);
      var s := SplitOf(now - p.Since(), |done|);
      var p' := p.(tasks := Rest(p.tasks, landed));
      TasksAreDistinct(pods, work, last, Whole, i);
      FiltersDistinct(p.tasks, landed);
      SplitIsNonNegative(now - p.Since(), |done|);
      CutClosingKeepsState(pods, work, last, i, done[..n], Proven, s, Recording(i));
      TearWeakens(pods, work, last, Recording(i));
      GivingUpKeepsState(pods, work, last, i, p', done, Proven, s, Recording(i));
      UpdateKeepsBudget(l, pods, last, deadline, i, p');
    }

    /** `_record_proven`: the time since the last block landed is split evenly between the blocks that landed. */
    method RecordProven(i: nat, landed: set<int>, now: real)
      requires Accepted(l) && StateOk(pods, work, last, tear) && WithinBudget(l, pods, last, deadline)
      requires i < |pods| && pods[i].Live() && pods[i].segmentStart.Some? && pods[i].Since() <= now <= last
      requires Done(pods[i].tasks, landed) != []
      modifies this`pods, this`work
      ensures StateOk(pods, work, last, tear) && WithinBudget(l, pods, last, deadline)
      ensures pods == old(pods)[i := old(pods)[i].(tasks := Rest(old(pods)[i].tasks, landed), segmentStart := Some(now),
                                                   lastProgress := now)]
      ensures var done := Done(old(pods)[i].tasks, landed);
              work == Closed(old(work), done, Proven, SplitOf(now - old(pods)[i].Since(), |done|))
    {
      hide StateOk, WithinBudget;
      var p := pods[i];
      var done := Done(p.tasks, landed);
      DoneAreOk(i, landed);
      RecordKeepsState(i, landed, now, tear);
      CloseRows(i, done, Proven, SplitOf(now - p.Since(), |done|));
      pods := pods[i := p.(tasks := Rest(p.tasks, landed), segmentStart := Some(now), lastProgress := now)];
    }

    /** `_record_proven`, cut after its first statements. */
    method RecordProvenCut(i: nat, landed: set<int>, now: real)
      requires Accepted(l) && StateOk(pods, work, last, tear) && WithinBudget(l, pods, last, deadline) && tear == Whole
      requires i < |pods| && pods[i].Live() && pods[i].segmentStart.Some? && pods[i].Since() <= now <= last
      requires Done(pods[i].tasks, landed) != []
      modifies this`pods, this`work, this`tear, this`cut
      ensures StateOk(pods, work, last, tear) && WithinBudget(l, pods, last, deadline) && tear == Recording(i)
      ensures |pods| == |old(pods)| && forall j :: 0 <= j < |pods| && j != i ==> pods[j] == old(pods)[j]
      ensures RecordingCut(old(pods)[i], old(work), landed, now, pods[i], work)
      ensures CutLeft(cut, pods, work, last, i)
      ensures pods[i] == old(pods)[i].(tasks := pods[i].tasks) && LogGrows(old(work), work)
    {
      hide StateOk, WithinBudget, SplitOf, Done, Rest, Closed, DistinctHeights, TaskOk, RecordingCut, CutLeft;
      var p := pods[i];
      var done := Done(p.tasks, landed);
      var n := CutAfter(|done|);
      DoneAreOk(i, landed);
      CutRecordingKeepsState(i, landed, now, n);
      CutIsLeft(i, landed, now, n, p.tasks);
      CutIsLeft(i, landed, now, n, Rest(p.tasks, landed));
      tear := Recording(i);
      assert done[..|done|] == done;
      CloseRows(i, done[..n], Proven, SplitOf(now - p.Since(), |done|));
      var gaveUp: bool := *;
      if n == |done| && gaveUp {
        pods := pods[i := p.(tasks := Rest(p.tasks, landed))];
        cut := CutShort(old(work), p.Since(), done, n, now, Rest(p.tasks, landed));
      } else {
        assert pods == pods[i := p];
        cut := CutShort(old(work), p.Since(), done, n, now, p.tasks);
      }
      RecordingWasCut(p, old(work), landed, now, pods[i], work, n);
    }

    lemma CutIsLeft(i: nat, landed: set<int>, now: real, n: nat, left: Tasks)
      requires StateOk(pods, work, last, Whole) && i < |pods| && pods[i].Live() && pods[i].segmentStart.Some?
      requires pods[i].Since() <= now <= last && Done(pods[i].tasks, landed) != [] && n <= |Done(pods[i].tasks, landed)|
      requires left == pods[i].tasks || left == Rest(pods[i].tasks, landed)
      ensures var p, done := pods[i], Done(pods[i].tasks, landed);
              CutLeft(CutShort(work, p.Since(), done, n, now, left), pods[i := p.(tasks := left)],
                      Closed(work, done[..n], Proven, SplitOf(now - p.Since(), |done|)), last, i)
    {
      hide SplitOf, StateOk, Logged, Closed, TaskOk, OpenRow, DistinctHeights, OpenIsUnpaid;
      WholePod(i);
      FiltersDistinct(pods[i].tasks, landed);
    }

    lemma WholePod(i: nat)
      requires StateOk(pods, work, last, Whole) && i < |pods|
      ensures OpenIsUnpaid(work) && DistinctHeights(pods[i].tasks) && LogFits(pods[i], work, i)
      ensures forall a :: a in pods[i].tasks ==> TaskOk(work, i, a) && OpenRow(work, a.row)
    {
    }

    lemma RecordingWasCut(p: Pod, before: seq<WorkRow>, landed: set<int>, now: real, p': Pod, after: seq<WorkRow>, n: nat)
      requires Done(p.tasks, landed) != [] && n <= |Done(p.tasks, landed)|
      requires p' == p || (n == |Done(p.tasks, landed)| && p' == p.(tasks := Rest(p.tasks, landed)))
      requires after == Closed(before, Done(p.tasks, landed)[..n], Proven, SplitOf(now - p.Since(), |Done(p.tasks, landed)|))
      ensures RecordingCut(p, before, landed, now, p', after) && LogGrows(before, after)
    {
      var done := Done(p.tasks, landed);
      assert done[..|done|] == done;
    }

    lemma RowsOfTasks(i: nat, cov: set<int>)
      requires StateOk(pods, work, last, tear) && i < |pods|
      ensures forall r :: HasRow(pods[i].tasks, r) ==> 0 <= r < |work|
      ensures forall r :: HasRow(Done(pods[i].tasks, cov), r) <==> HasRow(pods[i].tasks, r) && work[r].height in cov
      ensures forall r :: HasRow(Rest(pods[i].tasks, cov), r) <==> HasRow(pods[i].tasks, r) && work[r].height !in cov
    {
      forall r | HasRow(pods[i].tasks, r)
        ensures 0 <= r < |work|
        ensures HasRow(Done(pods[i].tasks, cov), r) <==> work[r].height in cov
        ensures HasRow(Rest(pods[i].tasks, cov), r) <==> work[r].height !in cov
      {
        var a :| a in pods[i].tasks && a.row == r;
        assert TaskOk(work, i, a);
        assert a in Done(pods[i].tasks, cov) || a in Rest(pods[i].tasks, cov);
        forall b | b in pods[i].tasks && b.row == r ensures b.height == work[r].height {
          assert TaskOk(work, i, b);
        }
      }
    }

    lemma StopKeepsState(i: nat, o: Outcome, tear': Tear)
      requires Accepted(l) && StateOk(pods, work, last, tear') && WithinBudget(l, pods, last, deadline)
      requires i < |pods| && pods[i].Live()
      ensures var p' := pods[i].(tasks := []);
              StateOk(pods[i := p'], Closed(work, pods[i].tasks, o, 0.0), last, tear')
              && WithinBudget(l, pods[i := p'], last, deadline)
              && DistinctHeights(pods[i].tasks) && forall a :: a in pods[i].tasks ==> TaskOk(work, i, a)
    {
      var p' := pods[i].(tasks := []);
      TimesIs(|pods[i].tasks|, 0.0);
      assert DistinctHeights(pods[i].tasks);
      GivingUpKeepsState(pods, work, last, i, p', pods[i].tasks, o, 0.0, tear');
      UpdateKeepsBudget(l, pods, last, deadline, i, p');
    }

    lemma CutStopKeepsState(i: nat, o: Outcome, n: nat)
      requires StateOk(pods, work, last, Whole) && i < |pods| && n <= |pods[i].tasks|
      ensures StateOk(pods, Closed(work, pods[i].tasks[..n], o, 0.0), last, Stopping(i))
    {
      var tasks := pods[i].tasks;
      assert DistinctHeights(tasks);
      CutClosingKeepsState(pods, work, last, i, tasks[..n], o, 0.0, Stopping(i));
    }

    /** The blocks a pod did not prove get the outcome. */
    method StopTasks(i: nat, o: Outcome)
      requires Accepted(l) && StateOk(pods, work, last, tear) && WithinBudget(l, pods, last, deadline)
      requires i < |pods| && pods[i].Live()
      modifies this`pods, this`work
      ensures StateOk(pods, work, last, tear) && WithinBudget(l, pods, last, deadline)
      ensures pods == old(pods)[i := old(pods)[i].(tasks := [])] && work == Closed(old(work), old(pods)[i].tasks, o, 0.0)
    {
      hide StateOk, WithinBudget;
      StopKeepsState(i, o, tear);
      CloseRows(i, pods[i].tasks, o, 0.0);
      pods := pods[i := pods[i].(tasks := [])];
    }

    /** The same, cut before the pod gives its blocks up. */
    method StopTasksCut(i: nat, o: Outcome)
      requires Accepted(l) && StateOk(pods, work, last, tear) && WithinBudget(l, pods, last, deadline) && tear == Whole
      requires i < |pods| && pods[i].Live()
      modifies this`work, this`tear, this`cut
      ensures StateOk(pods, work, last, tear) && tear == Stopping(i)
      ensures exists n :: 0 <= n <= |pods[i].tasks| && work == Closed(old(work), pods[i].tasks[..n], o, 0.0)
      ensures LogGrows(old(work), work)
    {
      hide StateOk, WithinBudget;
      var tasks := pods[i].tasks;
      var n := CutAfter(|tasks|);
      StopKeepsState(i, o, tear);
      CutStopKeepsState(i, o, n);
      tear := Stopping(i);
      CloseRows(i, tasks[..n], o, 0.0);
    }

    /** The bookkeeping half of `_terminate`: landed blocks are proven, the others get the outcome. */
    method Settle(i: nat, answer: set<int>, o: Outcome, counted: real)
      requires Accepted(l) && StateOk(pods, work, last, tear) && WithinBudget(l, pods, last, deadline)
      requires i < |pods| && pods[i].Live() && pods[i].Since() <= counted <= last && !Stuck(pods[i], answer)
      modifies this`pods, this`work
      ensures StateOk(pods, work, last, tear) && WithinBudget(l, pods, last, deadline)
      ensures exists p' :: pods == old(pods)[i := p'] && p'.tasks == [] && p'.Live() && p'.cost == old(pods)[i].cost
                        && p'.created == old(pods)[i].created && p'.Since() <= last
      ensures RowsEnded(old(pods)[i].tasks, old(work), work, answer, o) && OnlyRowsOf(old(work), work, i)
      ensures Logged(work, i, |work|) == LoggedAfter(old(work), i, old(pods)[i].tasks, old(pods)[i].Since(), answer, counted)
    {
      hide StateOk, WithinBudget, SplitOf, Logged, OnlyRowsOf, LoggedAfter, RowsEnded, Closed;
      SinceIsPast(i);
      StopIsLogged(i, answer, o, counted);
      StopHasOutcomes(i, answer, o, counted);
      if Done(pods[i].tasks, answer) != [] {
        RecordProven(i, answer, counted);
      }
      ghost var p' := pods[i].(tasks := []);
      StopTasks(i, o);
      assert pods == old(pods)[i := p'];
    }

    /** The log once pod i is stopped. */
    ghost function StoppedLog(i: nat, answer: set<int>, o: Outcome, t: real): seq<WorkRow>
      reads this
      requires i < |pods|
    {
      var p, done := pods[i], Done(pods[i].tasks, answer);
      if done == [] then Closed(work, p.tasks, o, 0.0)
      else Closed(Closed(work, done, Proven, SplitOf(t - p.Since(), |done|)), Rest(p.tasks, answer), o, 0.0)
    }

    lemma TasksAreOk(i: nat)
      requires StateOk(pods, work, last, tear) && i < |pods|
      ensures OpenIsUnpaid(work) && DistinctHeights(pods[i].tasks)
      ensures forall a :: a in pods[i].tasks ==> TaskOk(work, i, a)
    {
      TasksAreDistinct(pods, work, last, tear, i);
    }

    lemma StopIsLogged(i: nat, answer: set<int>, o: Outcome, t: real)
      requires StateOk(pods, work, last, tear) && i < |pods|
      ensures var p, after := pods[i], StoppedLog(i, answer, o, t);
              OnlyRowsOf(work, after, i) && Logged(after, i, |work|) == LoggedAfter(work, i, p.tasks, p.Since(), answer, t)
    {
      hide SplitOf, Logged, OpenCount, OnlyRowsOf, StateOk, Closed, TaskOk, OpenIsUnpaid, DistinctHeights, Done, Rest;
      var p, done := pods[i], Done(pods[i].tasks, answer);
      TasksAreOk(i);
      if done == [] {
        ClosingLogs(work, i, p.tasks, o, 0.0);
        TimesIs(OpenCount(work, p.tasks, |p.tasks|), 0.0);
      } else {
        StopLogs(work, i, p.tasks, answer, SplitOf(t - p.Since(), |done|), o);
      }
    }

    lemma StopHasOutcomes(i: nat, answer: set<int>, o: Outcome, t: real)
      requires StateOk(pods, work, last, tear) && i < |pods|
      ensures RowsEnded(pods[i].tasks, work, StoppedLog(i, answer, o, t), answer, o)
    {
      hide SplitOf, StateOk, HasRow;
      RowsOfTasks(i, answer);
      var tasks, done, rest := pods[i].tasks, Done(pods[i].tasks, answer), Rest(pods[i].tasks, answer);
      if done == [] {
        NoneDone(tasks, answer);
        NoRowDone(tasks, answer);
      }
      forall r | 0 <= r < |work| ensures RowEnded(tasks, r, work[r], StoppedLog(i, answer, o, t)[r], answer, o) {
      }
    }

    lemma NoRowDone(tasks: Tasks, answer: set<int>)
      requires Done(tasks, answer) == []
      ensures forall r :: !HasRow(Done(tasks, answer), r)
    {
    }

    lemma SinceIsPast(i: nat)
      requires StateOk(pods, work, last, tear) && i < |pods|
      ensures pods[i].created <= pods[i].Since() <= last
    {
    }

    lemma NoneDone(tasks: Tasks, cov: set<int>)
      requires Done(tasks, cov) == []
      ensures forall a :: a in tasks ==> a.height !in cov
    {
      forall a | a in tasks ensures a.height !in cov {
        assert a in Done(tasks, cov) <==> a.height in cov;
      }
    }

    lemma WaitKeepsState(before: real, after: real)
      requires StateOk(pods, work, before, tear) && WithinBudget(l, pods, before, deadline) && before <= after
      ensures StateOk(pods, work, after, tear) && WithinBudget(l, pods, after, deadline)
    {
    }

    /** `_terminate`. `answer` is what the coordinator says has landed (nothing, when it cannot say); `counted`
        and `ended` are the two readings of the clock. */
    method Terminate(i: nat, answer: set<int>, o: Outcome, counted: real, ended: real)
      requires Valid() && i < |pods| && pods[i].Live() && last <= counted <= ended && !Stuck(pods[i], answer)
      requires cleaning || tear == Whole
      modifies this`pods, this`work, this`last
      ensures Valid() && last == ended && |pods| == |old(pods)|
      ensures Stopped(old(pods)[i], pods[i], ended)
      ensures forall j :: 0 <= j < |pods| && j != i ==> pods[j] == old(pods)[j]
      ensures RowsEnded(old(pods)[i].tasks, old(work), work, answer, o) && OnlyRowsOf(old(work), work, i)
      ensures Logged(work, i, |work|) == LoggedAfter(old(work), i, old(pods)[i].tasks, old(pods)[i].Since(), answer, counted)
    {
      hide LinksOk, SecondsOk, WithinBudget, LoggedAfter, Logged, OnlyRowsOf;
      WaitKeepsState(last, ended);
      last := ended;
      Settle(i, answer, o, counted);
      var p' := pods[i].(terminated := Some(ended), state := Terminated);
      UpdateKeepsBudget(l, pods, last, deadline, i, p');
      QuietKeepsState(pods, work, ended, i, p', ended, tear);
      pods := pods[i := p'];
    }

    /** `_terminate`, cut: before the landed blocks are recorded, in the recording, in the stop, or after it. */
    method TerminateCut(i: nat, answer: set<int>, o: Outcome, counted: real, ended: real)
      requires Valid() && tear == Whole && i < |pods| && pods[i].Live() && last <= counted <= ended
      modifies this`pods, this`work, this`last, this`tear, this`cut
      ensures Valid() && last == ended && |pods| == |old(pods)| && LogGrows(old(work), work)
      ensures PerhapsStopped(old(pods)[i], pods[i], ended)
      ensures forall j :: 0 <= j < |pods| && j != i ==> pods[j] == old(pods)[j]
    {
      hide LinksOk, SecondsOk, WithinBudget, RecordingCut, Marked;
      WaitKeepsState(last, ended);
      last := ended;
      MarkedIfWhole(i);
      var at: nat := *;
      if at == 0 {
        return;
      }
      if Done(pods[i].tasks, answer) != [] {
        if at == 1 {
          RecordProvenCut(i, answer, counted);
          return;
        }
        RecordProven(i, answer, counted);
      }
      if at == 2 {
        StopTasksCut(i, o);
      } else {
        StopTasks(i, o);
      }
    }

    lemma MarkedIfWhole(i: nat)
      requires StateOk(pods, work, last, tear) && tear == Whole && i < |pods|
      ensures pods[i].tasks != [] ==> pods[i].segmentStart.Some?
      ensures forall answer :: !Stuck(pods[i], answer)
    {
      assert Marked(pods[i], i, tear);
    }

    /** A stop in the run loop, which a signal may cut. */
    method StopPod(i: nat, answer: set<int>, o: Outcome, counted: real, ended: real, signal: bool)
      requires Valid() && Ready() && i < |pods| && pods[i].Live() && last <= counted <= ended
      modifies this`pods, this`work, this`last, this`tear, this`cut
      ensures Valid() && last == ended && |pods| == |old(pods)| && LogGrows(old(work), work)
      ensures forall j :: 0 <= j < |pods| && j != i ==> pods[j] == old(pods)[j]
      ensures !signal ==> Ready() && Stopped(old(pods)[i], pods[i], ended)
                          && RowsEnded(old(pods)[i].tasks, old(work), work, answer, o)
      ensures signal ==> PerhapsStopped(old(pods)[i], pods[i], ended)
    {
      hide StateOk, WithinBudget;
      if signal {
        TerminateCut(i, answer, o, counted, ended);
      } else {
        MarkedIfWhole(i);
        Terminate(i, answer, o, counted, ended);
      }
    }

    // ---------- looking at the pods ----------

    lemma ChangeIsQuiet(i: nat, p': Pod)
      requires Valid() && i < |pods| && pods[i].Live() && p'.Live() && PodOk(p', last)
      requires p'.tasks == pods[i].tasks && p'.created == pods[i].created && p'.cost == pods[i].cost
      requires pods[i].segmentStart == p'.segmentStart
      ensures StateOk(pods[i := p'], work, last, tear) && WithinBudget(l, pods[i := p'], last, deadline)
    {
      assert Marked(pods[i], i, tear);
      QuietKeepsState(pods, work, last, i, p', last, tear);
      UpdateKeepsBudget(l, pods, last, deadline, i, p');
    }

    /** A waiting pod: it gets ssh and boots, or it is given up. */
    method ObserveWaiting(i: nat, ssh: bool, answer: set<int>, counted: real, ended: real, signal: bool)
      requires Valid() && Ready() && i < |pods| && pods[i].Live() && pods[i].state == WaitingSsh && pods[i].Since() <= look
      requires last <= counted <= ended
      modifies this`pods, this`work, this`last, this`tear, this`cut
      ensures Valid() && |pods| == |old(pods)| && LogGrows(old(work), work) && old(last) <= last <= ended
      ensures forall j :: 0 <= j < |pods| && j != i ==> pods[j] == old(pods)[j]
      ensures !signal ==> Ready()
      ensures !signal ==> (if ssh then pods[i] == old(pods)[i].(state := Booting)
                           else if look - old(pods)[i].created > l.sshTimeout then Stopped(old(pods)[i], pods[i], ended)
                           else pods[i] == old(pods)[i])
    {
      hide LinksOk, SecondsOk, WithinBudget;
      if ssh {
        KeepLive(i, pods[i].(state := Booting));
      } else if look - pods[i].created > l.sshTimeout {
        StopPod(i, answer, Cancelled, counted, ended, signal);
      }
    }

    /** A booting pod: `boot` is the result, once there is one. */
    method ObserveBooting(i: nat, boot: Option<bool>, answer: set<int>, counted: real, ended: real, signal: bool)
      requires Valid() && Ready() && i < |pods| && pods[i].Live() && pods[i].state == Booting
      requires last <= counted <= ended
      modifies this`pods, this`work, this`last, this`tear, this`cut
      ensures Valid() && |pods| == |old(pods)| && LogGrows(old(work), work) && old(last) <= last <= ended
      ensures forall j :: 0 <= j < |pods| && j != i ==> pods[j] == old(pods)[j]
      ensures !signal ==> Ready()
      ensures !signal ==> (if boot == Some(true) then pods[i] == old(pods)[i].(state := Idle)
                           else if boot == Some(false) || look - old(pods)[i].created > l.bootTimeout
                           then Stopped(old(pods)[i], pods[i], ended)
                           else pods[i] == old(pods)[i])
    {
      hide LinksOk, SecondsOk, WithinBudget;
      if boot.Some? {
        if boot.value {
          KeepLive(i, pods[i].(state := Idle));
        } else {
          StopPod(i, answer, Cancelled, counted, ended, signal);
        }
      } else if look - pods[i].created > l.bootTimeout {
        StopPod(i, answer, Cancelled, counted, ended, signal);
      }
    }

    /** A live pod moves to another live state; its blocks, its price and its clock marks stay. */
    method KeepLive(i: nat, p': Pod)
      requires Valid() && Ready() && i < |pods| && pods[i].Live() && pods[i].Since() <= look
      requires p' == pods[i].(state := p'.state, finishedSince := p'.finishedSince) && p'.state != Terminated
      requires p'.tasks != [] ==> p'.state == Working
      modifies this`pods
      ensures Valid() && Ready() && pods == old(pods)[i := p']
    {
      ChangeIsQuiet(i, p');
      pods := pods[i := p'];
    }

    /** The first part of `_progress`: the blocks that landed since the last look. */
    method RecordLanded(i: nat, covered: set<int>)
      requires Valid() && Ready() && i < |pods| && pods[i].Live() && pods[i].state == Working
      modifies this`pods, this`work, this`tear, this`cut
      ensures Valid() && Ready() && LogGrows(old(work), work)
      ensures pods == old(pods)[i := Recorded(old(pods)[i], covered, look)]
      ensures work == RecordedRows(old(work), old(pods)[i], covered, look)
    {
      hide StateOk, WithinBudget;
      MarkedIfWhole(i);
      if Done(pods[i].tasks, covered) != [] {
        RecordProven(i, covered, look);
      }
    }

    method RecordLandedCut(i: nat, covered: set<int>)
      requires Valid() && Ready() && i < |pods| && pods[i].Live() && pods[i].state == Working
      modifies this`pods, this`work, this`tear, this`cut
      ensures Valid() && |pods| == |old(pods)| && LogGrows(old(work), work)
      ensures forall j :: 0 <= j < |pods| && j != i ==> pods[j] == old(pods)[j]
    {
      hide StateOk, WithinBudget;
      MarkedIfWhole(i);
      if Done(pods[i].tasks, covered) != [] {
        RecordProvenCut(i, covered, look);
      }
    }

    /** `_progress`: a working pod is recorded, stopped, freed or left alone. The coordinator may fail to say what is
        covered, or, once that is recorded, whether the sponsorships are still held. */
    method Progress(i: nat, covered: Option<set<int>>, held: Option<bool>, status: WorkerStatus, answer: set<int>,
                    counted: real, ended: real, signal: bool)
      returns (ok: bool)
      requires Valid() && Ready() && i < |pods| && pods[i].Live() && pods[i].state == Working
      requires last <= counted <= ended
      modifies this`pods, this`work, this`last, this`tear, this`cut
      ensures Valid() && |pods| == |old(pods)| && LogGrows(old(work), work) && old(last) <= last <= ended
      ensures forall j :: 0 <= j < |pods| && j != i ==> pods[j] == old(pods)[j]
      ensures !signal ==> Ready() && Progressed(l, old(pods)[i], old(work), look, covered, held, status, answer, ended,
                                                pods[i], work, ok)
      ensures !signal ==> LookDecides(l, old(pods)[i], old(work), look, covered, held, status, answer, ended, pods[i], work, ok)
    {
      hide StateOk, WithinBudget, LookDecides;
      WholePod(i);
      ghost var before, rows0 := pods[i], work;
      ok := RecordAndDecide(i, covered, held, status, answer, counted, ended, signal);
      if !signal {
        LookIsDecided(l, i, before, rows0, look, covered, held, status, answer, ended, pods[i], work, ok);
      }
    }

    /** The steps of `_progress`, up to the decision. */
    method RecordAndDecide(i: nat, covered: Option<set<int>>, held: Option<bool>, status: WorkerStatus, answer: set<int>,
                           counted: real, ended: real, signal: bool)
      returns (ok: bool)
      requires Valid() && Ready() && i < |pods| && pods[i].Live() && pods[i].state == Working
      requires last <= counted <= ended
      modifies this`pods, this`work, this`last, this`tear, this`cut
      ensures Valid() && |pods| == |old(pods)| && LogGrows(old(work), work) && old(last) <= last <= ended
      ensures forall j :: 0 <= j < |pods| && j != i ==> pods[j] == old(pods)[j]
      ensures !signal ==> Ready() && Progressed(l, old(pods)[i], old(work), look, covered, held, status, answer, ended,
                                                pods[i], work, ok)
    {
      hide StateOk, WithinBudget;
      if covered.None? {
        return false;
      }
      if signal {
        var early: bool := *;
        if early {
          RecordLandedCut(i, covered.value);
          return true;
        }
      }
      RecordLanded(i, covered.value);
      if Sponsored(pods[i].tasks) {
        if held.None? {
          return false;
        }
        if !held.value {
          StopPod(i, answer, Cancelled, counted, ended, signal);
          return true;
        }
      }
      Decide(i, status, answer, counted, ended, signal);
      ok := true;
    }

    /** The last part of `_progress`, for a pod whose sponsorships are held. */
    method Decide(i: nat, status: WorkerStatus, answer: set<int>, counted: real, ended: real, signal: bool)
      requires Valid() && Ready() && i < |pods| && pods[i].Live() && pods[i].state == Working
      requires last <= counted <= ended
      modifies this`pods, this`work, this`last, this`tear, this`cut
      ensures Valid() && |pods| == |old(pods)| && LogGrows(old(work), work) && old(last) <= last <= ended
      ensures forall j :: 0 <= j < |pods| && j != i ==> pods[j] == old(pods)[j]
      ensures !signal ==> Ready()
      ensures !signal ==> (match Judge(l, old(pods)[i], look, true, status)
                           case Keep(p') => pods[i] == p' && work == old(work)
                           case Stop(o) => Stopped(old(pods)[i], pods[i], ended)
                                           && RowsEnded(old(pods)[i].tasks, old(work), work, answer, o))
    {
      hide StateOk, WithinBudget;
      if pods[i].tasks == [] {
        KeepLive(i, pods[i].(state := Idle, finishedSince := None));
        return;
      }
      if look - pods[i].lastProgress > l.stall {
        StopPod(i, answer, Stalled, counted, ended, signal);
        return;
      }
      if status != WorkerFinished {
        KeepLive(i, pods[i].(finishedSince := None));
        return;
      }
      var since := if pods[i].finishedSince.Some? then pods[i].finishedSince.value else look;
      if look - since > l.failGrace {
        StopPod(i, answer, Failed, counted, ended, signal);
      } else {
        KeepLive(i, pods[i].(finishedSince := Some(since)));
      }
    }

    // ---------- handing out work ----------

    /** `pending_work`: the queue without the blocks that are busy, repeated, or have no bundle. */
    method PendingWork(queue: Queue, bundled: set<int>) returns (todo: Queue)
      ensures todo == Todo(pods, queue, bundled, |queue|)
      ensures Fresh(pods, todo)
      ensures forall k :: 0 <= k < |todo| ==> todo[k] in queue && todo[k].1 in bundled
      ensures forall k :: 0 <= k < |queue| && queue[k].1 in bundled && !BusyWith(pods, queue[k].1) ==> Lists(todo, queue[k].1)
      ensures exists places :: TakenInOrder(todo, queue, places)
    {
      hide BusyWith, Lists, TakenInOrder;
      todo := [];
      var seen: set<int> := {};
      NothingListed();
      for k := 0 to |queue|
        invariant todo == Todo(pods, queue, bundled, k)
        invariant forall h :: h in seen <==> Lists(todo, h)
      {
        var h := queue[k].1;
        if !BusyWith(pods, h) && h !in seen && h in bundled {
          ListsAppend(todo, queue[k]);
          todo := todo + [queue[k]];
          seen := seen + {h};
        }
      }
      TodoIsTheRest(pods, queue, bundled, |queue|);
      ghost var places := TodoInOrder(pods, queue, bundled, |queue|);
    }

    /** `_assign` for one idle pod. `agreed` says the coordinator accepted the keys and the `proving` marks,
        `started` that the pod took its work. */
    method AssignOne(i: nat, queue: Queue, bundled: set<int>, agreed: bool, started: bool, answer: set<int>,
                     counted: real, ended: real, signal: bool)
      requires Valid() && Ready() && i < |pods| && pods[i].Live() && pods[i].state == Idle
      requires last <= counted <= ended
      modifies this`pods, this`work, this`last, this`tear, this`cut
      ensures Valid() && |pods| == |old(pods)| && LogGrows(old(work), work) && old(last) <= last <= ended
      ensures forall j :: 0 <= j < |pods| && j != i ==> pods[j] == old(pods)[j]
      ensures !signal ==> Ready()
      ensures !signal ==> (
        var chunk := FirstOf(Todo(old(pods), queue, bundled, |queue|), l.blocksPerPod);
        var given := Given(old(pods)[i], |old(work)|, chunk, look);
        if chunk == [] then Stopped(old(pods)[i], pods[i], ended)
        else if !agreed then pods[i] == old(pods)[i] && work == old(work)
        else if started then pods[i] == given && work == old(work) + NewRows(i, chunk)
        else Stopped(given, pods[i], ended) && RowsEnded(given.tasks, old(work) + NewRows(i, chunk), work, answer, Failed))
    {
      hide StateOk, WithinBudget, Todo, NewTasks, NewRows, TakenInOrder;
      var todo := PendingWork(queue, bundled);
      if todo == [] {
        StopPod(i, answer, Cancelled, counted, ended, signal);
        return;
      }
      if !agreed {
        return;
      }
      if signal {
        var early: bool := *;
        if early {
          GiveWorkCut(i, FirstOf(todo, l.blocksPerPod));
          return;
        }
      }
      GiveWork(i, FirstOf(todo, l.blocksPerPod));
      if !started {
        StopPod(i, answer, Failed, counted, ended, signal);
      }
    }

    /** `_assign` for one idle pod, from what the coordinator and the pod answered. */
    method AssignPod(i: nat, queue: Queue, bundled: set<int>, agreed: bool, started: bool, answer: set<int>,
                     counted: real, ended: real, signal: bool)
      requires Valid() && Ready() && i < |pods| && pods[i].Live() && pods[i].state == Idle
      requires last <= counted <= ended
      modifies this`pods, this`work, this`last, this`tear, this`cut
      ensures Valid() && |pods| == |old(pods)| && LogGrows(old(work), work) && old(last) <= last <= ended
      ensures forall j :: 0 <= j < |pods| && j != i ==> pods[j] == old(pods)[j]
      ensures !signal ==> Ready()
      ensures !signal ==> AssignDecides(i, old(pods)[i], old(work), Todo(old(pods), queue, bundled, |queue|), l.blocksPerPod, look,
                                        agreed, started, answer, ended, pods[i], work)
    {
      hide StateOk, WithinBudget, Todo, NewTasks, NewRows, RowsEnded, AssignDecides;
      ghost var before, rows0, todo := pods[i], work, Todo(pods, queue, bundled, |queue|);
      AssignOne(i, queue, bundled, agreed, started, answer, counted, ended, signal);
      if !signal {
        AssignIsDecided(i, before, rows0, todo, l.blocksPerPod, look, agreed, started, answer, ended, pods[i], work);
      }
    }

    /** The rows of a chunk, one INSERT each. */
    method InsertRows(i: nat, chunk: Queue)
      modifies this`work
      ensures work == old(work) + NewRows(i, chunk)
    {
      for k := 0 to |chunk|
        invariant work == old(work) + NewRows(i, chunk[..k])
      {
        work := work + [WorkRow(i, chunk[k].1, None, 0.0)];
        assert NewRows(i, chunk[..k+1]) == NewRows(i, chunk[..k]) + [WorkRow(i, chunk[k].1, None, 0.0)];
      }
      assert chunk[..|chunk|] == chunk;
    }

    method GiveWork(i: nat, chunk: Queue)
      requires Valid() && Ready() && i < |pods| && pods[i].Live() && pods[i].state == Idle && Fresh(pods, chunk)
      modifies this`pods, this`work
      ensures Valid() && Ready() && |pods| == |old(pods)| && LogGrows(old(work), work)
      ensures pods == old(pods)[i := Given(old(pods)[i], |old(work)|, chunk, look)] && work == old(work) + NewRows(i, chunk)
    {
      var p' := Given(pods[i], |work|, chunk, look);
      AssignKeepsState(pods, work, last, i, p', chunk, tear);
      UpdateKeepsBudget(l, pods, last, deadline, i, p');
      InsertRows(i, chunk);
      pods := pods[i := p'];
    }

    lemma CutGivingKeepsState(i: nat, chunk: Queue, n: nat)
      requires Valid() && Ready() && i < |pods| && pods[i].Live() && pods[i].state == Idle && Fresh(pods, chunk)
      requires n <= |chunk|
      ensures n > 0 ==> StateOk(pods, work + NewRows(i, chunk[..n]), last, Inserting(|work|))
      ensures var p' := HandedOver(pods[i], |work|, chunk);
              StateOk(pods[i := p'], work + NewRows(i, chunk), last, Handing(i)) && WithinBudget(l, pods[i := p'], last, deadline)
    {
      var p' := HandedOver(pods[i], |work|, chunk);
      if n > 0 {
        InsertingKeepsState(pods, work, last, i, chunk[..n]);
      }
      AssignKeepsState(pods, work, last, i, p', chunk, Handing(i));
      UpdateKeepsBudget(l, pods, last, deadline, i, p');
    }

    /** Giving work, cut: in or after the INSERTs, or between the hand-over and the start of the segment. */
    method GiveWorkCut(i: nat, chunk: Queue)
      requires Valid() && Ready() && i < |pods| && pods[i].Live() && pods[i].state == Idle && Fresh(pods, chunk)
      modifies this`pods, this`work, this`tear, this`cut
      ensures Valid() && LogGrows(old(work), work)
      ensures if tear == Handing(i)
              then pods == old(pods)[i := HandedOver(old(pods)[i], |old(work)|, chunk)] && work == old(work) + NewRows(i, chunk)
              else pods == old(pods) && exists n :: 0 <= n <= |chunk| && work == old(work) + NewRows(i, chunk[..n])
                                              && tear == if n == 0 then Whole else Inserting(|old(work)|)
    {
      hide StateOk, WithinBudget;
      var n := CutAfter(|chunk|);
      ghost var base := |work|;
      CutGivingKeepsState(i, chunk, n);
      var p' := HandedOver(pods[i], |work|, chunk);
      assert chunk[..|chunk|] == chunk;
      InsertRows(i, chunk[..n]);
      var cut: bool := *;
      if cut || n < |chunk| {
        assert n == 0 ==> work == old(work);
        tear := if n == 0 then Whole else Inserting(base);
        return;
      }
      pods := pods[i := p'];
      tear := Handing(i);
    }

    // ---------- renting ----------

    /** A pod that has just been deployed. */
    function NewPod(cost: real, created: real): Pod {
      Pod(cost, created, None, WaitingSsh, [], None, created, None)
    }

    method AddPod(cost: real, created: real)
      requires Valid() && Ready() && MayDeploy(l, pods, look) && deadline == look + l.lead && last <= created
      modifies this`pods, this`last
      ensures Valid() && Ready() && last == created && pods == old(pods) + [NewPod(cost, created)]
    {
      var p := NewPod(cost, created);
      NewPodKeepsState(pods, work, last, p, created);
      DeployKeepsBudget(l, pods, look, p, created);
      pods := pods + [p];
      last := created;
    }

    function WaitingCount(pods: seq<Pod>): nat {
      if pods == [] then 0
      else
        var p := pods[|pods|-1];
        WaitingCount(pods[..|pods|-1])
        + (if p.Live() && (p.state == WaitingSsh || p.state == Booting || p.state == Idle) then 1 else 0)
    }

    /** A new pod: it waits for ssh with nothing to do, or was stopped for its price. */
    predicate Rented(p: Pod) {
      && (p.terminated == None <==> p.cost <= l.ceiling)
      && (p.terminated == None ==> p.state == WaitingSsh && p.tasks == [] && p.segmentStart == None)
      && (p.terminated == None ==> p.lastProgress == p.created && p.finishedSince == None)
    }

    /** How many more pods the queue calls for: pods that are still to take work count already. */
    function Wanted(pods: seq<Pod>, todo: Queue): int
      requires Accepted(l)
    {
      (|todo| + l.blocksPerPod - 1) / l.blocksPerPod - WaitingCount(pods)
    }

    /** The pods that have no work yet. */
    function WaitingPods(pods: seq<Pod>): set<nat> {
      set i: nat | i < |pods| && HasNoWork(pods[i])
    }

    predicate HasNoWork(p: Pod) {
      p.terminated == None && p.state != Working && p.state != Terminated
    }

    lemma NextWaiting(pods: seq<Pod>, n: nat)
      requires n < |pods|
      ensures |WaitingPods(pods[..n+1])| == |WaitingPods(pods[..n])| + if HasNoWork(pods[n]) then 1 else 0
    {
      hide HasNoWork;
      if HasNoWork(pods[n]) {
        assert WaitingPods(pods[..n+1]) == WaitingPods(pods[..n]) + {n};
      } else {
        assert WaitingPods(pods[..n+1]) == WaitingPods(pods[..n]);
      }
    }

    lemma {:induction false} WaitingCountIs(pods: seq<Pod>)
      ensures WaitingCount(pods) == |WaitingPods(pods)|
    {
      if pods == [] {
        assert WaitingPods(pods) == {};
      } else {
        var n := |pods| - 1;
        WaitingCountIs(pods[..n]);
        NextWaiting(pods, n);
        assert pods[..n+1] == pods;
      }
    }

    /** One deploy request. A refusal or a lack of capacity backs off, and the third refusal in a row stops the run. */
    method AskRunPod() returns (answer: Deploy)
      modifies this`stopReason, this`capacityAt, this`refusals
      ensures refusals == if answer == Refused then old(refusals) + 1 else 0
      ensures capacityAt == if answer.Deployed? then old(capacityAt) else look + l.capacityBackoff
      ensures stopReason == if answer == Refused && old(refusals) + 1 >= 3 then Some(RunPod) else old(stopReason)
    {
      answer := *;
      if answer == Refused {
        refusals := refusals + 1;
        capacityAt := look + l.capacityBackoff;
        if refusals >= RUNPOD_REFUSALS_MAX {
          stopReason := Some(RunPod);
        }
        return;
      }
      refusals := 0;
      if answer == NoCapacity {
        capacityAt := look + l.capacityBackoff;
      }
    }

    /** With the pods wanted, and no fewer, those without work could take the whole list, `blocksPerPod` each. */
    lemma WantedIsJustEnough(pods: seq<Pod>, todo: Queue)
      requires Accepted(l)
      ensures var n := |WaitingPods(pods)| + Wanted(pods, todo);
              n * l.blocksPerPod >= |todo| > (n - 1) * l.blocksPerPod
    {
      WaitingCountIs(pods);
      var b := l.blocksPerPod;
      var q := (|todo| + b - 1) / b;
      assert q * b <= |todo| + b - 1 < (q + 1) * b;
      assert (q + 1) * b == q * b + b && (q - 1) * b == q * b - b;
    }

    /** `_launch`: deploys while there is work for more pods and every limit allows one more. It stops short only
        while it is backing off, or when a limit is reached. */
    method Launch(queue: Queue, bundled: set<int>, signal: bool)
      requires Valid() && Ready() && deadline == look + l.lead
      modifies this`pods, this`work, this`last, this`stopReason, this`capacityAt, this`refusals, this`tear, this`cut
      ensures Valid() && deadline == look + l.lead && LogGrows(old(work), work) && last >= old(last)
      ensures !signal ==> Ready() && old(pods) <= pods
      ensures !signal ==> (
        var want := Wanted(old(pods), Todo(old(pods), queue, bundled, |queue|));
        && |pods| - |old(pods)| <= (if want > 0 then want else 0)
        && (old(capacityAt) > look ==> pods == old(pods))
        && (want > 0 && |pods| - |old(pods)| < want ==>
              look < old(capacityAt) || capacityAt == look + l.capacityBackoff || !MayDeploy(l, pods, look)))
      ensures !signal ==> forall k :: |old(pods)| <= k < |pods| ==> Rented(pods[k])
    {
      hide StateOk, WithinBudget, MayDeploy, Todo, WaitingCount, Fresh, Lists, BusyWith, CutLeft, TakenInOrder;
      var todo := PendingWork(queue, bundled);
      var want := Wanted(pods, todo);
      ghost var all := want;
      while want > 0 && look >= capacityAt
        invariant Valid() && Ready() && deadline == look + l.lead && LogGrows(old(work), work) && last >= old(last)
        invariant old(pods) <= pods && |pods| - |old(pods)| == all - want && (if all > 0 then want >= 0 else want == all)
        invariant capacityAt == old(capacityAt)
        invariant want < all ==> look >= old(capacityAt)
        invariant forall k :: |old(pods)| <= k < |pods| ==> Rented(pods[k])
        decreases want
      {
        if !MayDeploy(l, pods, look) {
          return;
        }
        var answer := AskRunPod();
        if !answer.Deployed? {
          return;
        }
        var cut: bool := *;
        if signal && cut {
          return;
        }
        var created := ReadClock(last);
        AddPod(answer.cost, created);
        if answer.cost > l.ceiling {
          StopNow(|pods| - 1, Cancelled, signal);
          if !signal {
            capacityAt := look + l.capacityBackoff;
          }
          return;
        }
        want := want - 1;
      }
    }

    /** A stop at whatever moment it happens, with whatever the coordinator answers. */
    method StopNow(i: nat, o: Outcome, signal: bool)
      requires Valid() && Ready() && i < |pods| && pods[i].Live()
      modifies this`pods, this`work, this`last, this`tear, this`cut
      ensures Valid() && |pods| == |old(pods)| && LogGrows(old(work), work) && last >= old(last)
      ensures forall j :: 0 <= j < |pods| && j != i ==> pods[j] == old(pods)[j]
      ensures !signal ==> Ready() && !pods[i].Live() && pods[i].cost == old(pods)[i].cost
    {
      hide StateOk, WithinBudget;
      var answer: set<int> := *;
      var counted := ReadClock(last);
      var ended := ReadClock(counted);
      StopPod(i, answer, o, counted, ended, signal);
    }

    // ---------- the cleanup ----------

    lemma OnlyHandingIsStuck(i: nat, answer: set<int>)
      requires StateOk(pods, work, last, tear) && i < |pods| && Stuck(pods[i], answer)
      ensures tear == Handing(i)
    {
      assert Marked(pods[i], i, tear);
    }

    /** `terminate_all`, after whatever cut; `answers` are what the coordinator says of each pod's blocks, `counts` when
        each pod's recording reads the clock. Recording a landed block of a pod whose segment was never started raises,
        and leaves the later pods running. */
    method TerminateAll(answers: seq<set<int>>) returns (raised: bool, ghost counts: seq<real>)
      requires Valid() && |answers| == |pods|
      modifies this`pods, this`work, this`last, this`cleaning
      ensures Valid() && |pods| == |old(pods)| && LogGrows(old(work), work) && |work| == |old(work)|
      ensures raised <==> exists i :: 0 <= i < |pods| && old(pods)[i].Live() && Stuck(old(pods)[i], answers[i])
      ensures if raised then exists i :: 0 <= i < |pods| && pods[i].Live() && tear == Handing(i)
              else forall j :: 0 <= j < |pods| ==> !pods[j].Live()
      ensures !raised ==> |counts| == |pods| && forall j :: 0 <= j < |pods| && old(pods)[j].Live() ==>
                Cleaned(j, old(pods)[j], old(work), pods[j], work, answers[j], counts[j], old(last))
    {
      hide StateOk, WithinBudget, Stuck, LoggedAfter, Logged, OnlyRowsOf, RowsEnded, CutLeft, EndedAs;
      ghost var pods0, work0, last0 := pods, work, last;
      cleaning := true;
      counts := [];
      SameToStart(work);
      for i := 0 to |pods|
        invariant Valid() && cleaning && |pods| == |pods0| && LogGrows(work0, work) && last0 <= last
        invariant forall j :: 0 <= j < i ==> !pods[j].Live() && !(pods0[j].Live() && Stuck(pods0[j], answers[j]))
        invariant forall j :: i <= j < |pods| ==> pods[j] == pods0[j] && SameRowsOf(work0, work, j)
        invariant |counts| == i && |work| == |work0|
        invariant forall j :: 0 <= j < i && pods0[j].Live() ==>
          Cleaned(j, pods0[j], work0, pods[j], work, answers[j], counts[j], last0)
      {
        if pods[i].Live() {
          if Stuck(pods[i], answers[i]) {
            OnlyHandingIsStuck(i, answers[i]);
            return true, counts;
          }
          var counted := ReadClock(last);
          var ended := ReadClock(counted);
          ghost var before := work;
          TasksOfPod(i);
          LoggedAfterUnmoved(i, pods0[i], work0, answers[i], counted);
          Terminate(i, answers[i], Cancelled, counted, ended);
          RowsEndedGrow(pods0[i].tasks, before, work, answers[i], Cancelled);
          counts := counts + [counted];
          forall j | 0 <= j < i && pods0[j].Live()
            ensures Cleaned(j, pods0[j], work0, pods[j], work, answers[j], counts[j], last0)
          {
            OthersStayCleaned(i, j, pods0[j], work0, pods[j], before, work, answers[j], counts[j], last0);
          }
          forall j | i < j < |pods| ensures SameRowsOf(work0, work, j) {
            SameRowsFollow(work0, before, work, i, j);
          }
        } else {
          counts := counts + [last];
        }
      }
      return false, counts;
    }

    lemma TasksOfPod(i: nat)
      requires StateOk(pods, work, last, tear) && i < |pods|
      ensures forall a :: a in pods[i].tasks ==> TaskOk(work, i, a)
    {
    }

    /** The rows of a pod not yet stopped are those the cleanup found. */
    lemma LoggedAfterUnmoved(i: nat, p: Pod, work0: seq<WorkRow>, answer: set<int>, t: real)
      requires SameRowsOf(work0, work, i) && forall a :: a in p.tasks ==> TaskOk(work, i, a)
      ensures LoggedAfter(work, i, p.tasks, p.Since(), answer, t) == LoggedAfter(work0, i, p.tasks, p.Since(), answer, t)
    {
      forall a | a in p.tasks ensures TaskOk(work0, i, a) {
        assert TaskOk(work, i, a);
      }
      LoggedAfterSame(work0, work, i, p.tasks, p.Since(), answer, t);
    }

    // ---------- the loop ----------

    /** `_observe`: one pass over the pods in each state. The pass can be cut short by the coordinator. */
    method Observe(signal: bool) returns (ok: bool)
      requires Valid() && tear == Whole && forall i :: 0 <= i < |pods| ==> pods[i].Since() <= look
      modifies this`pods, this`work, this`last, this`tear, this`cut
      ensures Valid() && |pods| == |old(pods)| && LogGrows(old(work), work)
      ensures !signal ==> Ready()
    {
      hide StateOk, WithinBudget;
      for i := 0 to |pods|
        invariant Valid() && Ready() && |pods| == |old(pods)| && LogGrows(old(work), work)
        invariant forall j :: i <= j < |pods| ==> pods[j].Since() <= look
      {
        if pods[i].Live() && pods[i].state == WaitingSsh {
          var ssh: bool, answer: set<int>, here: bool := *, *, *;
          var counted := ReadClock(last);
          var ended := ReadClock(counted);
          ObserveWaiting(i, ssh, answer, counted, ended, signal && here);
          if signal && here {
            return true;
          }
        }
      }
      for i := 0 to |pods|
        invariant Valid() && Ready() && |pods| == |old(pods)| && LogGrows(old(work), work)
      {
        if pods[i].Live() && pods[i].state == Booting {
          var boot: Option<bool>, answer: set<int>, here: bool := *, *, *;
          var counted := ReadClock(last);
          var ended := ReadClock(counted);
          ObserveBooting(i, boot, answer, counted, ended, signal && here);
          if signal && here {
            return true;
          }
        }
      }
      ok := true;
      for i := 0 to |pods|
        invariant Valid() && Ready() && |pods| == |old(pods)| && LogGrows(old(work), work)
      {
        if pods[i].Live() && pods[i].state == Working {
          var covered: Option<set<int>>, answer: set<int>, held: Option<bool>, status: WorkerStatus, here: bool := *, *, *, *, *;
          var counted := ReadClock(last);
          var ended := ReadClock(counted);
          ok := Progress(i, covered, held, status, answer, counted, ended, signal && here);
          if !ok || (signal && here) {
            return;
          }
        }
      }
    }

    /** `_assign`: one pass over the idle pods, which can be cut short by the coordinator. */
    method Assign(signal: bool) returns (ok: bool)
      requires Valid() && Ready()
      modifies this`pods, this`work, this`last, this`tear, this`cut
      ensures Valid() && |pods| == |old(pods)| && LogGrows(old(work), work)
      ensures !signal ==> Ready()
    {
      hide StateOk, WithinBudget;
      for i := 0 to |pods|
        invariant Valid() && Ready() && |pods| == |old(pods)| && LogGrows(old(work), work)
      {
        if pods[i].Live() && pods[i].state == Idle {
          var queue: Option<Queue>, bundled: set<int>, agreed: bool, started: bool, answer: set<int>, here: bool := *, *, *, *, *, *;
          if queue.None? {
            return false;
          }
          var counted := ReadClock(last);
          var ended := ReadClock(counted);
          AssignPod(i, queue.value, bundled, agreed, started, answer, counted, ended, signal && here);
          if !agreed || (signal && here) {
            return false;
          }
        }
      }
      return true;
    }

    /** A look the coordinator spoilt. */
    method CoordError()
      modifies this`stopReason, this`coordErrors
      ensures coordErrors == old(coordErrors) + 1
      ensures stopReason == if coordErrors >= 10 then Some(Coordinator) else old(stopReason)
    {
      coordErrors := coordErrors + 1;
      if coordErrors >= COORD_ERRORS_MAX {
        stopReason := Some(Coordinator);
      }
    }

    lemma CheckOpensWindow()
      requires Valid() && !OverBudget(l, pods, look)
      ensures WithinBudget(l, pods, last, look + l.lead)
    {
      CheckKeepsBudget(l, pods, last, deadline, look);
    }

    /** One turn of the run loop; `stop` says it leaves the loop. The coordinator may fail before the pods are even
        observed. A signal hits it before the check, or after. */
    method Look(now: real, signal: bool) returns (stop: bool)
      requires Valid() && Ready() && last <= now
      modifies this`pods, this`work, this`look, this`last, this`deadline, this`stopReason, this`capacityAt, this`refusals,
               this`coordErrors, this`tear, this`cut
      ensures Valid() && LogGrows(old(work), work)
      ensures !signal ==> Ready()
    {
      hide StateOk, WithinBudget;
      var here: bool := *;
      StartLook(now);
      var reconciled: bool := *;
      var seen := false;
      if reconciled {
        seen := Observe(signal && here);
      }
      if signal && here {
        return true;
      }
      if !seen {
        CoordError();
        if stopReason == Some(Coordinator) {
          return true;
        }
      }
      if OverBudget(l, pods, look) {
        stopReason := Some(Budget);
        return true;
      }
      CheckOpensWindow();
      deadline := look + l.lead;
      if seen {
        stop := Rent(signal);
      } else {
        stop := false;
      }
    }

    /** The half of a look that needs the coordinator: hand out work, deploy, and see whether all is done. */
    method Rent(signal: bool) returns (stop: bool)
      requires Valid() && Ready() && deadline == look + l.lead
      modifies this`pods, this`work, this`last, this`stopReason, this`capacityAt, this`refusals, this`coordErrors, this`tear, this`cut
      ensures Valid() && LogGrows(old(work), work)
      ensures !signal ==> Ready()
    {
      hide StateOk, WithinBudget;
      var here: bool := *;
      var agreed := Assign(signal && here);
      if signal && here {
        return true;
      }
      if !agreed {
        CoordError();
        return stopReason == Some(Coordinator);
      }
      var queue: Option<Queue>, bundled: set<int>, idle: bool := *, *, *;
      if queue.None? {
        CoordError();
        return stopReason == Some(Coordinator);
      }
      Launch(queue.value, bundled, signal);
      if stopReason == Some(RunPod) {
        return true;
      }
      if LiveCount(pods) == 0 {
        var answered: bool := *;
        if !answered {
          CoordError();
          return stopReason == Some(Coordinator);
        }
        if idle {
          stopReason := Some(Finished);
          return true;
        }
      }
      coordErrors := 0;
      return false;
    }

    /** The run loop, for any number of looks and any readings of the clock, and the cleanup that always follows it.
        When the run may be cut, a signal or an error ends it inside some step, at whatever statement. */
    method Run(looks: nat, mayBeCut: bool) returns (raised: bool, ghost answers: seq<set<int>>, ghost counts: seq<real>)
      requires Valid() && Ready() && pods == [] && work == [] && !cleaning
      modifies this
      ensures Valid() && (!mayBeCut ==> tear == Whole)
      ensures raised ==> tear.Handing?
      ensures !raised ==> Ended(answers, counts)
      ensures PricedIn(l, pods) && last <= deadline ==> Spend(pods, last, l.ceiling) < l.maxUsd
    {
      hide StateOk, WithinBudget, CutLeft, Ended, Cleaned;
      for n := 0 to looks
        invariant Valid() && Ready() && !cleaning
      {
        var signal: bool := *;
        signal := signal && mayBeCut;
        var now := ReadClock(last);
        var stop := Look(now, signal);
        if stop || signal {
          break;
        }
      }
      var said := Answers(|pods|);
      ghost var pods0, work0, last0 := pods, work, last;
      raised, counts := TerminateAll(said);
      answers := said;
      if !raised {
        AtTheEnd(answers, counts, pods0, work0, last0);
      }
      if PricedIn(l, pods) && last <= deadline {
        SpendStaysBelowCap(last);
      }
    }

    /** What the coordinator says of each of n pods. */
    method Answers(n: nat) returns (a: seq<set<int>>)
      ensures |a| == n
    {
      a := [];
      for i := 0 to n
        invariant |a| == i
      {
        var answer: set<int> := *;
        a := a + [answer];
      }
    }

    predicate FitsWall(i: nat)
      reads this
      requires i < |pods| && pods[i].terminated.Some?
    {
      Logged(work, i, |work|) <= pods[i].terminated.value - pods[i].created
    }

    /** A finished run: no pod is live; the open rows are exactly those stranded by a cut; and each pod's logged
        seconds fit its wall time, but the one's whose recording was cut exactly when `CutFitsWall` says so. */
    ghost predicate Ended(answers: seq<set<int>>, counts: seq<real>)
      reads this
    {
      && (forall j :: 0 <= j < |pods| ==> pods[j].terminated.Some?)
      && (forall r :: 0 <= r < |work| ==> (work[r].outcome.None? <==> Stranded(tear, r)))
      && (tear.Inserting? ==> tear.first < |work|)
      && (forall i :: 0 <= i < |pods| && tear != Recording(i) ==> FitsWall(i))
      && (tear.Recording? ==> CutEnded(answers, counts, tear.pod))
    }

    /** The pod whose recording was cut: what its log is made of, and exactly when that fits its wall time. */
    ghost predicate CutEnded(answers: seq<set<int>>, counts: seq<real>, i: int)
      reads this
    {
      && 0 <= i < |pods| == |answers| == |counts| && pods[i].terminated.Some? && CutOk(cut, i)
      && cut.at <= counts[i] <= pods[i].terminated.value
      && Logged(work, i, |work|) == LoggedAfter(CutLog(cut), i, cut.left, cut.since, answers[i], counts[i])
      && (FitsWall(i) <==> CutFitsWall(cut, i, pods[i].created, answers[i], counts[i], pods[i].terminated.value))
    }

    /** What a bot with no live pod has to show. */
    lemma AtTheEnd(answers: seq<set<int>>, counts: seq<real>, pods0: seq<Pod>, work0: seq<WorkRow>, last0: real)
      requires Valid() && forall j :: 0 <= j < |pods| ==> !pods[j].Live()
      requires |pods0| == |answers| == |counts| == |pods|
      requires forall j :: 0 <= j < |pods| && pods0[j].Live() ==>
                 Cleaned(j, pods0[j], work0, pods[j], work, answers[j], counts[j], last0)
      requires tear.Recording? ==> CutLeft(cut, pods0, work0, last0, tear.pod)
      ensures Ended(answers, counts)
    {
      RowsAtTheEnd();
      forall i | 0 <= i < |pods| && tear != Recording(i) ensures FitsWall(i) {
        assert LogFits(pods[i], work, i);
      }
      if tear.Recording? {
        CutAtTheEnd(answers, counts, pods0, work0, last0);
      }
    }

    lemma RowsAtTheEnd()
      requires Valid() && forall j :: 0 <= j < |pods| ==> !pods[j].Live()
      ensures forall r :: 0 <= r < |work| ==> (work[r].outcome.None? <==> Stranded(tear, r))
    {
      forall r | 0 <= r < |work| && !Stranded(tear, r) ensures !OpenRow(work, r) {
        assert work[r].pod < |pods| && pods[work[r].pod].tasks == [];
      }
    }

    lemma CutAtTheEnd(answers: seq<set<int>>, counts: seq<real>, pods0: seq<Pod>, work0: seq<WorkRow>, last0: real)
      requires |pods0| == |answers| == |counts| == |pods| && tear.Recording?
      requires CutLeft(cut, pods0, work0, last0, tear.pod)
      requires Cleaned(tear.pod, pods0[tear.pod], work0, pods[tear.pod], work, answers[tear.pod], counts[tear.pod], last0)
      ensures CutEnded(answers, counts, tear.pod)
    {
      hide LoggedAfter, CutFitsWall, CutLog, Logged;
      var i := tear.pod;
      CutFitsWallExactly(cut, i, pods[i].created, answers[i], counts[i], pods[i].terminated.value);
    }

    /** A look begins: the clock is read. */
    method StartLook(now: real)
      requires Valid() && Ready() && last <= now
      modifies this`look, this`last
      ensures Valid() && tear == Whole && look == last == now
      ensures forall i :: 0 <= i < |pods| ==> pods[i].Since() <= look
    {
      WaitKeepsState(last, now);
      look := now;
      last := now;
    }
  }

  /** What becomes of an idle pod: stopped when there is nothing to prove; left alone when the coordinator does not agree;
      otherwise it gets the first blocks of the list, at most `most` of them, each with a row of its own, and proves them
      from now on, or, if it does not start, is stopped, its rows failed but for those that have landed. */
  ghost predicate AssignDecides(i: nat, before: Pod, rows0: seq<WorkRow>, todo: Queue, most: nat, look: real, agreed: bool,
                                started: bool, answer: set<int>, ended: real, after: Pod, rows: seq<WorkRow>) {
    var n := if |todo| <= most then |todo| else most;
    if todo == [] || most == 0 then after.terminated == Some(ended)
    else if !agreed then after == before && rows == rows0
    else
      && |rows| == |rows0| + n
      && (forall r :: |rows0| <= r < |rows| ==> rows[r].pod == i && rows[r].height == todo[r-|rows0|].1)
      && if started then
           && (forall r :: 0 <= r < |rows0| ==> rows[r] == rows0[r])
           && (forall r :: |rows0| <= r < |rows| ==> rows[r].outcome == None && rows[r].seconds == 0.0)
           && |after.tasks| == n
           && (forall k :: 0 <= k < n ==> after.tasks[k] == Assignment(todo[k].0, todo[k].1, |rows0| + k))
           && after.state == Working && after.segmentStart == Some(look) && after.lastProgress == look
           && after.finishedSince == None && after.terminated == before.terminated
           && after.cost == before.cost && after.created == before.created
         else
           && after.terminated == Some(ended)
           && (forall r :: 0 <= r < |rows0| ==> rows[r].outcome == rows0[r].outcome)
           && (forall r :: |rows0| <= r < |rows| ==> rows[r].outcome == Some(if rows[r].height in answer then Proven else Failed))
  }

  lemma AssignIsDecided(i: nat, before: Pod, rows0: seq<WorkRow>, todo: Queue, most: nat, look: real, agreed: bool,
                        started: bool, answer: set<int>, ended: real, after: Pod, rows: seq<WorkRow>)
    requires most >= 1
    requires var chunk := FirstOf(todo, most);
             var given := Given(before, |rows0|, chunk, look);
             if chunk == [] then Stopped(before, after, ended)
             else if !agreed then after == before && rows == rows0
             else if started then after == given && rows == rows0 + NewRows(i, chunk)
             else Stopped(given, after, ended) && RowsEnded(given.tasks, rows0 + NewRows(i, chunk), rows, answer, Failed)
    ensures AssignDecides(i, before, rows0, todo, most, look, agreed, started, answer, ended, after, rows)
  {
    var chunk := FirstOf(todo, most);
    var tasks := NewTasks(|rows0|, chunk);
    forall r ensures HasRow(tasks, r) <==> |rows0| <= r < |rows0| + |chunk| {
      if |rows0| <= r < |rows0| + |chunk| {
        assert tasks[r-|rows0|] in tasks;
      }
    }
  }

  /** A task that has not landed. */
  predicate Remains(p: Pod, covered: set<int>, a: Assignment) {
    a in p.tasks && a.height !in covered
  }

  predicate SomethingLanded(p: Pod, covered: set<int>) {
    exists a :: a in p.tasks && a.height in covered
  }

  ghost predicate SomethingLeft(p: Pod, covered: set<int>) {
    exists a :: Remains(p, covered, a)
  }

  /** A task that is left belongs to a sponsorship. */
  ghost predicate AsksForHolds(p: Pod, covered: set<int>) {
    exists a :: Remains(p, covered, a) && a.sid != None
  }

  /** Tasks are left, and none landed for more than `stall`. */
  ghost predicate StalledAt(l: Limits, p: Pod, covered: set<int>, look: real) {
    SomethingLeft(p, covered) && (if SomethingLanded(p, covered) then 0.0 else look - p.lastProgress) > l.stall
  }

  /** Tasks are left, and the worker has been finished for more than `failGrace`. */
  ghost predicate DeadAt(l: Limits, p: Pod, covered: set<int>, look: real, status: WorkerStatus) {
    && SomethingLeft(p, covered) && status == WorkerFinished
    && (match p.finishedSince case Some(t) => look - t case None => 0.0) > l.failGrace
  }

  /** What a look at a working pod decides, from what was seen: a sponsorship no longer held cancels it, a stall and a
      dead worker stop it with their outcomes, and nothing else does; and a pod that is not stopped is idle exactly when
      no task is left. */
  ghost predicate LookDecides(l: Limits, before: Pod, rows0: seq<WorkRow>, look: real, covered: Option<set<int>>,
                              held: Option<bool>, status: WorkerStatus, answer: set<int>, ended: real,
                              after: Pod, rows: seq<WorkRow>, ok: bool) {
    match covered
    case None => !ok && after == before && rows == rows0
    case Some(cov) =>
      if AsksForHolds(before, cov) && held == None then
        !ok && after.terminated == None && RowsBecome(before.tasks, rows0, rows, cov, {}, None)
      else
        var unheld := AsksForHolds(before, cov) && held == Some(false);
        var stalled, dead := StalledAt(l, before, cov, look), DeadAt(l, before, cov, look, status);
        ok && if unheld || stalled || dead then
                && after.terminated == Some(ended)
                && RowsBecome(before.tasks, rows0, rows, cov, answer,
                              Some(if unheld then Cancelled else if stalled then Stalled else Failed))
              else
                && after.terminated == None && after.state == (if SomethingLeft(before, cov) then Working else Idle)
                && (forall a :: a in after.tasks <==> Remains(before, cov, a))
                && after.finishedSince == (if !(SomethingLeft(before, cov) && status == WorkerFinished) then None
                                           else if before.finishedSince == None then Some(look) else before.finishedSince)
                && ClocksBecome(before, cov, look, after)
                && RowsBecome(before.tasks, rows0, rows, cov, {}, None)
  }

  /** A landed block restarts the pod's segment and its progress clock; what it costs and when it was made stay. */
  ghost predicate ClocksBecome(before: Pod, covered: set<int>, look: real, after: Pod) {
    && after.lastProgress == (if SomethingLanded(before, covered) then look else before.lastProgress)
    && after.segmentStart == (if SomethingLanded(before, covered) then Some(look) else before.segmentStart)
    && after.cost == before.cost && after.created == before.created
  }

  /** The outcomes of these tasks' rows: proven when the block had landed by the look or, for a stopped pod, by the stop;
      otherwise `o`. No other row's outcome changes. */
  ghost predicate RowsBecome(tasks: Tasks, before: seq<WorkRow>, after: seq<WorkRow>, landed: set<int>, later: set<int>,
                             o: Option<Outcome>) {
    && |after| == |before|
    && forall r :: 0 <= r < |after| ==>
         after[r].outcome == if !HasRow(tasks, r) then before[r].outcome
                             else if before[r].height in landed then Some(Proven)
                             else if o != None && before[r].height in later then Some(Proven) else o
  }

  lemma LookIsDecided(l: Limits, i: int, before: Pod, rows0: seq<WorkRow>, look: real, covered: Option<set<int>>,
                      held: Option<bool>, status: WorkerStatus, answer: set<int>, ended: real,
                      after: Pod, rows: seq<WorkRow>, ok: bool)
    requires Progressed(l, before, rows0, look, covered, held, status, answer, ended, after, rows, ok)
    requires before.Live() && before.state == Working
    requires forall a :: a in before.tasks ==> TaskOk(rows0, i, a) && OpenRow(rows0, a.row)
    ensures LookDecides(l, before, rows0, look, covered, held, status, answer, ended, after, rows, ok)
  {
    if covered.Some? {
      hide Judge, Recorded, RowsBecome, RowsEnded, RecordedRows, Sponsored, Remains, SomethingLanded, SomethingLeft,
           AsksForHolds, StalledAt, DeadAt, ClocksBecome;
      var cov, p := covered.value, Recorded(before, covered.value, look);
      RecordedIs(before, cov, look);
      RecordedRowsBecome(i, before, rows0, cov, look);
      if !(Sponsored(p.tasks) && held.None?) {
        JudgeIs(l, before, cov, look, held != Some(false), status);
        var verdict := Judge(l, p, look, held != Some(false), status);
        if verdict.Stop? {
          EndedRowsBecome(i, before, rows0, cov, look, rows, answer, verdict.o);
        }
      }
    }
  }

  /** The verdict on a recorded pod, case by case. */
  lemma JudgeIs(l: Limits, before: Pod, cov: set<int>, look: real, held: bool, status: WorkerStatus)
    requires before.Live() && before.state == Working
    ensures var unheld := AsksForHolds(before, cov) && !held;
            var stalled, dead := StalledAt(l, before, cov, look), DeadAt(l, before, cov, look, status);
            match Judge(l, Recorded(before, cov, look), look, held, status)
            case Stop(o) => (unheld || stalled || dead) && o == if unheld then Cancelled else if stalled then Stalled else Failed
            case Keep(p') =>
              && !unheld && !stalled && !dead && p'.terminated == None
              && (forall a :: a in p'.tasks <==> Remains(before, cov, a))
              && p'.state == (if SomethingLeft(before, cov) then Working else Idle)
              && p'.finishedSince == (if !(SomethingLeft(before, cov) && status == WorkerFinished) then None
                                      else if before.finishedSince == None then Some(look) else before.finishedSince)
              && ClocksBecome(before, cov, look, p')
  {
    hide Recorded, Remains, Sponsored, SomethingLanded, SomethingLeft, AsksForHolds;
    RecordedIs(before, cov, look);
  }

  /** A recorded pod has the tasks that remain, and its progress clock starts again exactly when something landed. */
  lemma RecordedIs(p: Pod, cov: set<int>, look: real)
    ensures var p' := Recorded(p, cov, look);
            && (forall a :: a in p'.tasks <==> Remains(p, cov, a))
            && (p'.tasks == [] <==> !SomethingLeft(p, cov))
            && ClocksBecome(p, cov, look, p')
            && p'.finishedSince == p.finishedSince && p'.state == p.state && p'.terminated == p.terminated
            && (Sponsored(p'.tasks) <==> AsksForHolds(p, cov))
  {
    var p' := Recorded(p, cov, look);
    var done := Done(p.tasks, cov);
    assert done != [] ==> done[0] in done;
    forall a ensures a in p'.tasks <==> Remains(p, cov, a) {
      assert a in done <==> a in p.tasks && a.height in cov;
    }
    assert p'.tasks != [] ==> p'.tasks[0] in p'.tasks;
  }

  lemma RecordedRowsBecome(i: int, p: Pod, rows: seq<WorkRow>, cov: set<int>, look: real)
    requires forall a :: a in p.tasks ==> TaskOk(rows, i, a) && OpenRow(rows, a.row)
    ensures RowsBecome(p.tasks, rows, RecordedRows(rows, p, cov, look), cov, {}, None)
  {
    hide SplitOf;
    var done, after := Done(p.tasks, cov), RecordedRows(rows, p, cov, look);
    forall r | 0 <= r < |after|
      ensures after[r].outcome == if !HasRow(p.tasks, r) then rows[r].outcome
                                  else if rows[r].height in cov then Some(Proven) else None
    {
      RowIsDone(i, p, rows, cov, r);
    }
  }

  lemma RowIsDone(i: int, p: Pod, rows: seq<WorkRow>, cov: set<int>, r: int)
    requires forall a :: a in p.tasks ==> TaskOk(rows, i, a) && OpenRow(rows, a.row)
    ensures HasRow(p.tasks, r) ==> OpenRow(rows, r)
    ensures HasRow(Done(p.tasks, cov), r) <==> HasRow(p.tasks, r) && rows[r].height in cov
    ensures HasRow(Recorded(p, cov, 0.0).tasks, r) <==> HasRow(p.tasks, r) && rows[r].height !in cov
    ensures Done(p.tasks, cov) == [] ==> !HasRow(Done(p.tasks, cov), r)
  {
    RecordedIs(p, cov, 0.0);
    if HasRow(p.tasks, r) {
      var a :| a in p.tasks && a.row == r;
      assert TaskOk(rows, i, a) && OpenRow(rows, a.row);
      assert if rows[r].height in cov then a in Done(p.tasks, cov) else a in Recorded(p, cov, 0.0).tasks;
    }
    forall b | b in p.tasks && b.row == r ensures rows[r].height == b.height {
      assert TaskOk(rows, i, b);
    }
  }

  lemma EndedRowsBecome(i: int, p: Pod, rows0: seq<WorkRow>, cov: set<int>, look: real, rows: seq<WorkRow>,
                        answer: set<int>, o: Outcome)
    requires forall a :: a in p.tasks ==> TaskOk(rows0, i, a) && OpenRow(rows0, a.row)
    requires RowsEnded(Recorded(p, cov, look).tasks, RecordedRows(rows0, p, cov, look), rows, answer, o)
    ensures RowsBecome(p.tasks, rows0, rows, cov, answer, Some(o))
  {
    hide SplitOf;
    RecordedRowsBecome(i, p, rows0, cov, look);
    var recorded := RecordedRows(rows0, p, cov, look);
    assert Recorded(p, cov, look).tasks == Recorded(p, cov, 0.0).tasks;
    forall r | 0 <= r < |rows|
      ensures rows[r].outcome == if !HasRow(p.tasks, r) then rows0[r].outcome
                                 else if rows0[r].height in cov then Some(Proven)
                                 else if rows0[r].height in answer then Some(Proven) else Some(o)
    {
      RowIsDone(i, p, rows0, cov, r);
      assert recorded[r].height == rows0[r].height;
    }
  }

  /** A pod the cleanup found live, and what it made of it: stopped, with the landed blocks of its log counted at t. */
  ghost predicate Cleaned(j: int, before: Pod, work0: seq<WorkRow>, after: Pod, work: seq<WorkRow>, answer: set<int>, t: real,
                          from: real) {
    && after.terminated.Some? && Stopped(before, after, after.terminated.value) && from <= t <= after.terminated.value
    && Logged(work, j, |work|) == LoggedAfter(work0, j, before.tasks, before.Since(), answer, t)
  }

  lemma SameToStart(work: seq<WorkRow>)
    ensures forall j :: SameRowsOf(work, work, j)
  {
  }

  lemma RowsEndedGrow(tasks: Tasks, before: seq<WorkRow>, after: seq<WorkRow>, answer: set<int>, o: Outcome)
    requires RowsEnded(tasks, before, after, answer, o)
    ensures LogGrows(before, after) && |after| == |before|
  {
  }

  lemma OthersStayCleaned(i: int, j: int, p0: Pod, work0: seq<WorkRow>, p: Pod, before: seq<WorkRow>, after: seq<WorkRow>,
                          answer: set<int>, t: real, from: real)
    requires Cleaned(j, p0, work0, p, before, answer, t, from) && OnlyRowsOf(before, after, i) && i != j
    ensures Cleaned(j, p0, work0, p, after, answer, t, from)
  {
    LoggedSame(before, after, j, |before|);
  }

  lemma SameRowsFollow(work0: seq<WorkRow>, before: seq<WorkRow>, after: seq<WorkRow>, i: int, j: int)
    requires SameRowsOf(work0, before, j) && OnlyRowsOf(before, after, i) && i != j
    ensures SameRowsOf(work0, after, j)
  {
  }

  /** A pod with a new chunk of work. */
  function Given(p: Pod, base: nat, chunk: Queue, now: real): Pod {
    HandedOver(p, base, chunk).(segmentStart := Some(now), lastProgress := now, finishedSince := None)
  }

  /** A pod that has its new chunk, just before its segment starts. */
  function HandedOver(p: Pod, base: nat, chunk: Queue): Pod {
    p.(tasks := NewTasks(base, chunk), state := Working)
  }

  /** What one look does to a working pod and its rows, and whether the coordinator answered. */
  ghost predicate Progressed(l: Limits, before: Pod, rows0: seq<WorkRow>, look: real, covered: Option<set<int>>,
                             held: Option<bool>, status: WorkerStatus, answer: set<int>, ended: real,
                             after: Pod, rows: seq<WorkRow>, ok: bool) {
    if covered.None? then !ok && after == before && rows == rows0
    else
      var p := Recorded(before, covered.value, look);
      var recorded := RecordedRows(rows0, before, covered.value, look);
      if Sponsored(p.tasks) && held.None? then !ok && after == p && rows == recorded
      else
        ok && match Judge(l, p, look, held != Some(false), status)
              case Keep(p') => after == p' && rows == recorded
              case Stop(o) => Stopped(p, after, ended) && RowsEnded(p.tasks, recorded, rows, answer, o)
  }
}
