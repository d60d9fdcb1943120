/** The sponsor bot's work log: which pod has which block, and what became of every row; also when a signal or an
    error cuts a step in two. */
module BotWork {
  import opened Ranges
  import opened BotMoney

  datatype Outcome = Proven | Cancelled | Stalled | Failed

  /** One row of `sponsor_work`; `seconds` stays 0 until the block is recorded as proven. */
  datatype WorkRow = WorkRow(pod: nat, height: int, outcome: Option<Outcome>, seconds: real)

  type Tasks = seq<Assignment>

  type Queue = seq<(Option<nat>, int)>

  /** Where a signal or an error cut the run, as far as it shows in the state: nowhere; after the first INSERT of a
      chunk, whose rows start at `first`, and before the chunk was handed to its pod; after the hand-over and before
      the pod's segment was started; after the first UPDATE of a recording and before the pod's segment was restarted;
      after the first UPDATE of a stop and before the pod gave its blocks up. */
  datatype Tear = Whole | Inserting(first: nat) | Handing(pod: int) | Recording(pod: int) | Stopping(pod: int)

  predicate DistinctHeights(tasks: Tasks) {
    forall k, m :: 0 <= k < m < |tasks| ==> tasks[k].height != tasks[m].height
  }

  predicate HasRow(tasks: Tasks, r: int) {
    exists a :: a in tasks && a.row == r
  }

  predicate OpenRow(work: seq<WorkRow>, r: int) {
    0 <= r < |work| && work[r].outcome.None?
  }

  // ---------- the invariant ----------

  /** A task's row is about that block on that pod. */
  predicate TaskOk(work: seq<WorkRow>, i: int, a: Assignment) {
    0 <= a.row < |work| && work[a.row].pod == i && work[a.row].height == a.height
  }

  ghost predicate TasksOk(pods: seq<Pod>, work: seq<WorkRow>) {
    forall i, a :: 0 <= i < |pods| && a in pods[i].tasks ==> TaskOk(work, i, a)
  }

  /** The rows of a pod's tasks are open, unless the cut fell into closing them. */
  ghost predicate TasksOpen(pods: seq<Pod>, work: seq<WorkRow>, tear: Tear) {
    forall i, a :: 0 <= i < |pods| && a in pods[i].tasks && tear != Recording(i) && tear != Stopping(i) ==>
      OpenRow(work, a.row)
  }

  /** A row that no pod is to be given any more. */
  predicate Stranded(tear: Tear, r: int) {
    tear.Inserting? && tear.first <= r
  }

  predicate AssignedRow(pods: seq<Pod>, work: seq<WorkRow>, r: int)
    requires 0 <= r < |work|
  {
    work[r].pod < |pods| && HasRow(pods[work[r].pod].tasks, r)
  }

  /** Every open row is some pod's task, unless it is stranded. */
  ghost predicate OpenIsAssigned(pods: seq<Pod>, work: seq<WorkRow>, tear: Tear) {
    forall r :: OpenRow(work, r) && !Stranded(tear, r) ==> AssignedRow(pods, work, r)
  }

  /** Stranded rows are open, and no pod's task. */
  ghost predicate StrandedOk(pods: seq<Pod>, work: seq<WorkRow>, tear: Tear) {
    && (tear.Inserting? ==> tear.first < |work|)
    && (forall r :: 0 <= r < |work| && Stranded(tear, r) ==> work[r].outcome.None?)
    && (forall i, a :: 0 <= i < |pods| && a in pods[i].tasks ==> !Stranded(tear, a.row))
  }

  predicate OpenIsUnpaid(work: seq<WorkRow>) {
    forall r :: 0 <= r < |work| && work[r].outcome.None? ==> work[r].seconds == 0.0
  }

  /** No block is on two pods, nor twice on one. */
  ghost predicate Disjoint(pods: seq<Pod>) {
    && (forall i :: 0 <= i < |pods| ==> DistinctHeights(pods[i].tasks))
    && (forall i, j, a, b :: 0 <= i < j < |pods| && a in pods[i].tasks && b in pods[j].tasks ==> a.height != b.height)
  }

  /** A pod's clock marks are in order, and only a live working pod has tasks. */
  predicate PodOk(p: Pod, last: real) {
    && p.created <= p.Since() <= last
    && (p.terminated.Some? <==> p.state == Terminated)
    && (p.terminated.Some? ==> p.Since() <= p.terminated.value <= last)
    && (p.tasks != [] ==> p.state == Working)
  }

  predicate PodsOk(pods: seq<Pod>, last: real) {
    forall i :: 0 <= i < |pods| ==> PodOk(pods[i], last)
  }

  /** A pod with tasks has its segment started, unless the cut fell just before that. */
  predicate Marked(p: Pod, i: int, tear: Tear) {
    p.tasks != [] && tear != Handing(i) ==> p.segmentStart.Some?
  }

  predicate AllMarked(pods: seq<Pod>, tear: Tear) {
    forall i :: 0 <= i < |pods| ==> Marked(pods[i], i, tear)
  }

  /** The seconds logged for pod i, over the first n rows. */
  function Logged(work: seq<WorkRow>, i: int, n: nat): real
    requires n <= |work|
  {
    if n == 0 then 0.0 else Logged(work, i, n - 1) + (if work[n-1].pod == i then work[n-1].seconds else 0.0)
  }

  predicate LogFits(p: Pod, work: seq<WorkRow>, i: int) {
    Logged(work, i, |work|) <= p.Since() - p.created
  }

  predicate SecondsOk(pods: seq<Pod>, work: seq<WorkRow>, tear: Tear) {
    forall i :: 0 <= i < |pods| && tear != Recording(i) ==> LogFits(pods[i], work, i)
  }

  predicate RowsOk(pods: seq<Pod>, work: seq<WorkRow>) {
    forall r :: 0 <= r < |work| ==> work[r].pod < |pods|
  }

  ghost predicate LinksOk(pods: seq<Pod>, work: seq<WorkRow>, tear: Tear) {
    && TasksOk(pods, work) && TasksOpen(pods, work, tear) && OpenIsAssigned(pods, work, tear)
    && StrandedOk(pods, work, tear) && Disjoint(pods) && RowsOk(pods, work) && OpenIsUnpaid(work)
  }

  ghost predicate StateOk(pods: seq<Pod>, work: seq<WorkRow>, last: real, tear: Tear) {
    PodsOk(pods, last) && AllMarked(pods, tear) && LinksOk(pods, work, tear) && SecondsOk(pods, work, tear)
  }

  /** A cut that leaves less to expect. */
  lemma TearWeakens(pods: seq<Pod>, work: seq<WorkRow>, last: real, tear: Tear)
    requires StateOk(pods, work, last, Whole) && !tear.Inserting?
    ensures StateOk(pods, work, last, tear)
  {
  }

  lemma TasksAreDistinct(pods: seq<Pod>, work: seq<WorkRow>, last: real, tear: Tear, i: nat)
    requires StateOk(pods, work, last, tear) && i < |pods|
    ensures DistinctHeights(pods[i].tasks)
  {
  }

  // ---------- closing rows ----------

  function CloseRow(w: WorkRow, o: Outcome, s: real): WorkRow {
    w.(outcome := Some(o), seconds := s)
  }

  /** The row once the UPDATE, which leaves closed rows alone, has run for these tasks. */
  function ClosedRow(w: WorkRow, r: int, tasks: Tasks, o: Outcome, s: real): WorkRow {
    if HasRow(tasks, r) && w.outcome.None? then CloseRow(w, o, s) else w
  }

  /** The log with the open rows of these tasks given an outcome. */
  ghost function Closed(work: seq<WorkRow>, tasks: Tasks, o: Outcome, s: real): (w: seq<WorkRow>)
    ensures |w| == |work|
    ensures forall r :: 0 <= r < |work| ==> w[r] == ClosedRow(work[r], r, tasks, o, s)
  {
    seq(|work|, r requires 0 <= r < |work| => ClosedRow(work[r], r, tasks, o, s))
  }

  lemma HasRowAppend(tasks: Tasks, a: Assignment, r: int)
    ensures HasRow(tasks + [a], r) <==> HasRow(tasks, r) || a.row == r
  {
    if a.row == r {
      assert a in tasks + [a];
    }
    if HasRow(tasks, r) {
      var b :| b in tasks && b.row == r;
      assert b in tasks + [a];
    }
  }

  lemma ClosedStep(work: seq<WorkRow>, tasks: Tasks, k: nat, o: Outcome, s: real)
    requires k < |tasks| && 0 <= tasks[k].row < |work|
    ensures var r, before := tasks[k].row, Closed(work, tasks[..k], o, s);
            Closed(work, tasks[..k+1], o, s) == if before[r].outcome.None? then before[r := CloseRow(work[r], o, s)] else before
  {
    assert tasks[..k+1] == tasks[..k] + [tasks[k]];
    forall r | 0 <= r < |work| ensures HasRow(tasks[..k+1], r) <==> HasRow(tasks[..k], r) || tasks[k].row == r {
      HasRowAppend(tasks[..k], tasks[k], r);
    }
  }

  /** The tasks whose height is in the set, and the others. */
  function Done(tasks: Tasks, cov: set<int>): (d: Tasks)
    ensures forall a :: a in d <==> a in tasks && a.height in cov
  {
    if tasks == [] then []
    else
      assert tasks == tasks[..|tasks|-1] + [tasks[|tasks|-1]];
      Done(tasks[..|tasks|-1], cov) + (if tasks[|tasks|-1].height in cov then [tasks[|tasks|-1]] else [])
  }

  function Rest(tasks: Tasks, cov: set<int>): (d: Tasks)
    ensures forall a :: a in d <==> a in tasks && a.height !in cov
  {
    if tasks == [] then []
    else
      assert tasks == tasks[..|tasks|-1] + [tasks[|tasks|-1]];
      Rest(tasks[..|tasks|-1], cov) + (if tasks[|tasks|-1].height !in cov then [tasks[|tasks|-1]] else [])
  }

  lemma {:induction false} FiltersDistinct(tasks: Tasks, cov: set<int>)
    requires DistinctHeights(tasks)
    ensures DistinctHeights(Done(tasks, cov)) && DistinctHeights(Rest(tasks, cov))
  {
    if tasks != [] {
      var init, last := tasks[..|tasks|-1], tasks[|tasks|-1];
      FiltersDistinct(init, cov);
      assert forall a :: a in init ==> a.height != last.height;
      AppendDistinct(Done(init, cov), last);
      AppendDistinct(Rest(init, cov), last);
    }
  }

  lemma AppendDistinct(tasks: Tasks, a: Assignment)
    requires DistinctHeights(tasks) && forall b :: b in tasks ==> b.height != a.height
    ensures DistinctHeights(tasks + [a])
  {
  }

  // ---------- seconds ----------

  function Times(n: nat, s: real): real {
    if n == 0 then 0.0 else Times(n - 1, s) + s
  }

  lemma {:induction false} TimesIs(n: nat, s: real)
    ensures Times(n, s) == n as real * s
  {
    if n > 0 {
      TimesIs(n - 1, s);
      Distribute((n - 1) as real, 1.0, s);
      assert n as real == (n - 1) as real + 1.0;
    }
  }

  lemma {:induction false} TimesOrder(m: nat, n: nat, s: real)
    requires m <= n && s >= 0.0
    ensures 0.0 <= Times(m, s) <= Times(n, s)
  {
    if n > 0 {
      TimesOrder(if m < n then m else n - 1, n - 1, s);
    }
  }

  /** An even split adds back up to the whole. */
  lemma EvenSplit(d: real, n: nat)
    requires n > 0
    ensures Times(n, d / n as real) == d
  {
    TimesIs(n, d / n as real);
  }

  /** seconds / n. */
  function SplitOf(d: real, n: nat): (s: real)
    requires n > 0
    ensures Times(n, s) == d
  {
    EvenSplit(d, n);
    d / n as real
  }

  lemma SplitIsNonNegative(d: real, n: nat)
    requires d >= 0.0 && n > 0
    ensures SplitOf(d, n) >= 0.0
  {
  }

  lemma {:induction false} LoggedUpdate(work: seq<WorkRow>, r: nat, w: WorkRow, i: int, n: nat)
    requires r < |work| && n <= |work| && w.pod == work[r].pod
    ensures Logged(work[r := w], i, n)
         == Logged(work, i, n) + if r < n && w.pod == i then w.seconds - work[r].seconds else 0.0
  {
    if n > 0 {
      LoggedUpdate(work, r, w, i, n - 1);
    }
  }

  /** How many of the first k tasks still have an open row. */
  function OpenCount(work: seq<WorkRow>, tasks: Tasks, k: nat): (n: nat)
    requires k <= |tasks|
    ensures n <= k
  {
    if k == 0 then 0 else OpenCount(work, tasks, k - 1) + (if OpenRow(work, tasks[k-1].row) then 1 else 0)
  }

  lemma {:induction false} AllOpenCount(work: seq<WorkRow>, tasks: Tasks, k: nat)
    requires k <= |tasks| && forall a :: a in tasks ==> OpenRow(work, a.row)
    ensures OpenCount(work, tasks, k) == k
  {
    if k > 0 {
      AllOpenCount(work, tasks, k - 1);
      assert tasks[k-1] in tasks;
    }
  }

  /** Closing distinct rows of pod i with s seconds each adds that much for every open one to its log, and nothing to
      any other's. */
  lemma {:induction false} LoggedClosed(work: seq<WorkRow>, tasks: Tasks, k: nat, i: int, j: int, o: Outcome, s: real)
    requires k <= |tasks| && DistinctHeights(tasks) && OpenIsUnpaid(work)
    requires forall a :: a in tasks ==> TaskOk(work, i, a)
    ensures Logged(Closed(work, tasks[..k], o, s), j, |work|)
         == Logged(work, j, |work|) + if i == j then Times(OpenCount(work, tasks, k), s) else 0.0
  {
    if k == 0 {
      assert Closed(work, tasks[..0], o, s) == work;
    } else {
      LoggedClosed(work, tasks, k - 1, i, j, o, s);
      LoggedClosesOne(work, tasks, k - 1, i, j, o, s);
    }
  }

  lemma LoggedClosesOne(work: seq<WorkRow>, tasks: Tasks, k: nat, i: int, j: int, o: Outcome, s: real)
    requires k < |tasks| && DistinctHeights(tasks) && OpenIsUnpaid(work)
    requires forall a :: a in tasks ==> TaskOk(work, i, a)
    ensures Logged(Closed(work, tasks[..k+1], o, s), j, |work|)
         == Logged(Closed(work, tasks[..k], o, s), j, |work|) + if i == j && OpenRow(work, tasks[k].row) then s else 0.0
  {
    hide Logged;
    var before, a := Closed(work, tasks[..k], o, s), tasks[k];
    assert TaskOk(work, i, a);
    RowsDiffer(work, tasks, i, k);
    assert before[a.row] == work[a.row];
    ClosedStep(work, tasks, k, o, s);
    if OpenRow(work, a.row) {
      LoggedUpdate(before, a.row, CloseRow(work[a.row], o, s), j, |work|);
    }
  }

  lemma RowsDiffer(work: seq<WorkRow>, tasks: Tasks, i: int, k: nat)
    requires k < |tasks| && DistinctHeights(tasks) && forall a :: a in tasks ==> TaskOk(work, i, a)
    ensures !HasRow(tasks[..k], tasks[k].row)
  {
    forall b | b in tasks[..k] ensures b.row != tasks[k].row {
      var m :| 0 <= m < k && tasks[..k][m] == b;
      assert tasks[m] == b && TaskOk(work, i, tasks[m]) && TaskOk(work, i, tasks[k]);
    }
  }

  // ---------- the invariant under the bot's steps ----------

  /** Pod i gives up the tasks in `gone`, whose rows are closed with s seconds each. */
  ghost predicate GivesUp(pods: seq<Pod>, i: nat, p': Pod, gone: Tasks, s: real, tear: Tear) {
    && i < |pods|
    && DistinctHeights(gone) && DistinctHeights(p'.tasks)
    && (forall a :: a in pods[i].tasks <==> a in gone || a in p'.tasks)
    && (forall a, b :: a in gone && b in p'.tasks ==> a.height != b.height)
    && p'.created == pods[i].created && s >= 0.0 && Marked(p', i, tear)
    && (tear != Recording(i) ==> p'.Since() - pods[i].Since() >= Times(|gone|, s))
  }

  lemma GivingUpKeepsTasks(pods: seq<Pod>, work: seq<WorkRow>, i: nat, p': Pod, gone: Tasks, o: Outcome, s: real, tear: Tear)
    requires TasksOk(pods, work) && TasksOpen(pods, work, tear) && GivesUp(pods, i, p', gone, s, tear)
    ensures var pods', work' := pods[i := p'], Closed(work, gone, o, s);
            TasksOk(pods', work') && TasksOpen(pods', work', tear)
  {
    var pods', work' := pods[i := p'], Closed(work, gone, o, s);
    forall j, a | 0 <= j < |pods'| && a in pods'[j].tasks
      ensures TaskOk(work', j, a) && work'[a.row] == work[a.row]
    {
      assert a in pods[j].tasks && TaskOk(work, j, a);
      forall b | b in gone ensures b.row != a.row {
        assert TaskOk(work, i, b);
      }
    }
  }

  lemma GivingUpKeepsOpen(pods: seq<Pod>, work: seq<WorkRow>, i: nat, p': Pod, gone: Tasks, o: Outcome, s: real, tear: Tear)
    requires OpenIsAssigned(pods, work, tear) && GivesUp(pods, i, p', gone, s, tear)
    ensures OpenIsAssigned(pods[i := p'], Closed(work, gone, o, s), tear)
  {
    var pods', work' := pods[i := p'], Closed(work, gone, o, s);
    forall r | OpenRow(work', r) && !Stranded(tear, r) ensures AssignedRow(pods', work', r) {
      assert OpenRow(work, r) && !HasRow(gone, r);
      assert AssignedRow(pods, work, r);
      var a :| a in pods[work[r].pod].tasks && a.row == r;
      assert a in pods'[work[r].pod].tasks;
    }
  }

  lemma GivingUpKeepsStranded(pods: seq<Pod>, work: seq<WorkRow>, i: nat, p': Pod, gone: Tasks, o: Outcome, s: real, tear: Tear)
    requires StrandedOk(pods, work, tear) && Disjoint(pods) && GivesUp(pods, i, p', gone, s, tear)
    requires RowsOk(pods, work) && OpenIsUnpaid(work)
    ensures var pods', work' := pods[i := p'], Closed(work, gone, o, s);
            StrandedOk(pods', work', tear) && Disjoint(pods') && RowsOk(pods', work') && OpenIsUnpaid(work')
  {
    var pods', work' := pods[i := p'], Closed(work, gone, o, s);
    forall r | 0 <= r < |work| && Stranded(tear, r) ensures !HasRow(gone, r) {
      forall a | a in gone ensures a.row != r {
        assert a in pods[i].tasks;
      }
    }
    forall j, a | 0 <= j < |pods'| && a in pods'[j].tasks ensures a in pods[j].tasks {
    }
  }

  lemma GivingUpKeepsSeconds(pods: seq<Pod>, work: seq<WorkRow>, i: nat, p': Pod, gone: Tasks, o: Outcome, s: real, tear: Tear)
    requires TasksOk(pods, work) && OpenIsUnpaid(work) && SecondsOk(pods, work, tear)
    requires GivesUp(pods, i, p', gone, s, tear)
    ensures SecondsOk(pods[i := p'], Closed(work, gone, o, s), tear)
  {
    var pods', work' := pods[i := p'], Closed(work, gone, o, s);
    forall a | a in gone ensures TaskOk(work, i, a) {
      assert a in pods[i].tasks;
    }
    assert gone[..|gone|] == gone;
    forall j | 0 <= j < |pods'| && tear != Recording(j) ensures LogFits(pods'[j], work', j) {
      assert LogFits(pods[j], work, j);
      LoggedClosed(work, gone, |gone|, i, j, o, s);
      TimesOrder(OpenCount(work, gone, |gone|), |gone|, s);
    }
  }

  lemma GivingUpKeepsState(pods: seq<Pod>, work: seq<WorkRow>, last: real, i: nat, p': Pod, gone: Tasks, o: Outcome, s: real, tear: Tear)
    requires StateOk(pods, work, last, tear) && PodOk(p', last) && GivesUp(pods, i, p', gone, s, tear)
    ensures StateOk(pods[i := p'], Closed(work, gone, o, s), last, tear)
  {
    GivingUpKeepsTasks(pods, work, i, p', gone, o, s, tear);
    GivingUpKeepsOpen(pods, work, i, p', gone, o, s, tear);
    GivingUpKeepsStranded(pods, work, i, p', gone, o, s, tear);
    GivingUpKeepsSeconds(pods, work, i, p', gone, o, s, tear);
  }

  /** The rows a new chunk of work adds. */
  function NewRows(i: nat, chunk: Queue): seq<WorkRow> {
    seq(|chunk|, k requires 0 <= k < |chunk| => WorkRow(i, chunk[k].1, None, 0.0))
  }

  function NewTasks(base: nat, chunk: Queue): (t: Tasks)
    ensures |t| == |chunk|
    ensures forall k :: 0 <= k < |t| ==> t[k] == Assignment(chunk[k].0, chunk[k].1, base + k)
  {
    seq(|chunk|, k requires 0 <= k < |chunk| => Assignment(chunk[k].0, chunk[k].1, base + k))
  }

  /** Rows keep the outcome they were given, and are never removed. */
  ghost predicate LogGrows(before: seq<WorkRow>, after: seq<WorkRow>) {
    && |before| <= |after|
    && forall r :: 0 <= r < |before| && before[r].outcome.Some? ==> after[r] == before[r]
  }

  /** The heights every live pod is working on. */
  predicate BusyWith(pods: seq<Pod>, h: int) {
    exists i, a :: 0 <= i < |pods| && a in pods[i].tasks && a.height == h
  }

  /** A chunk of distinct heights that no pod has. */
  predicate Fresh(pods: seq<Pod>, chunk: Queue) {
    && (forall k, m :: 0 <= k < m < |chunk| ==> chunk[k].1 != chunk[m].1)
    && (forall k :: 0 <= k < |chunk| ==> !BusyWith(pods, chunk[k].1))
  }

  lemma {:induction false} LoggedNewRows(work: seq<WorkRow>, i: nat, chunk: Queue, j: int, n: nat)
    requires n <= |work + NewRows(i, chunk)|
    ensures Logged(work + NewRows(i, chunk), j, n) == Logged(work, j, if n < |work| then n else |work|)
  {
    if n > 0 {
      LoggedNewRows(work, i, chunk, j, n - 1);
    }
  }

  lemma NewRowsKeepSeconds(pods: seq<Pod>, work: seq<WorkRow>, i: nat, p': Pod, chunk: Queue, tear: Tear)
    requires SecondsOk(pods, work, Whole) && OpenIsUnpaid(work)
    requires i < |pods| && p'.created == pods[i].created && p'.Since() >= pods[i].Since()
    ensures SecondsOk(pods[i := p'], work + NewRows(i, chunk), tear) && OpenIsUnpaid(work + NewRows(i, chunk))
  {
    var pods', work' := pods[i := p'], work + NewRows(i, chunk);
    forall j | 0 <= j < |pods'| ensures LogFits(pods'[j], work', j) {
      assert LogFits(pods[j], work, j);
      LoggedNewRows(work, i, chunk, j, |work'|);
    }
  }

  /** The rows of a chunk whose hand-over was cut before it happened. */
  lemma InsertingKeepsState(pods: seq<Pod>, work: seq<WorkRow>, last: real, i: nat, chunk: Queue)
    requires StateOk(pods, work, last, Whole) && i < |pods| && chunk != []
    ensures StateOk(pods, work + NewRows(i, chunk), last, Inserting(|work|))
  {
    NewRowsKeepSeconds(pods, work, i, pods[i], chunk, Inserting(|work|));
    assert pods[i := pods[i]] == pods;
    var work' := work + NewRows(i, chunk);
    forall r | OpenRow(work', r) && !Stranded(Inserting(|work|), r) ensures AssignedRow(pods, work', r) {
      assert OpenRow(work, r) && AssignedRow(pods, work, r);
    }
    forall j, a | 0 <= j < |pods| && a in pods[j].tasks ensures TaskOk(work', j, a) && OpenRow(work', a.row) {
      assert TaskOk(work, j, a) && OpenRow(work, a.row);
    }
  }

  lemma AssignKeepsState(pods: seq<Pod>, work: seq<WorkRow>, last: real, i: nat, p': Pod, chunk: Queue, tear: Tear)
    requires StateOk(pods, work, last, Whole) && i < |pods| && pods[i].tasks == [] && Fresh(pods, chunk)
    requires p'.tasks == NewTasks(|work|, chunk) && p'.created == pods[i].created && PodOk(p', last)
    requires pods[i].Since() <= p'.Since() && !tear.Inserting? && Marked(p', i, tear)
    ensures StateOk(pods[i := p'], work + NewRows(i, chunk), last, tear)
  {
    AssignKeepsTasks(pods, work, i, p', chunk, tear);
    AssignKeepsOpen(pods, work, i, p', chunk, tear);
    AssignKeepsDisjoint(pods, i, p', chunk, |work|);
    NewRowsKeepSeconds(pods, work, i, p', chunk, tear);
  }

  lemma AssignKeepsTasks(pods: seq<Pod>, work: seq<WorkRow>, i: nat, p': Pod, chunk: Queue, tear: Tear)
    requires TasksOk(pods, work) && TasksOpen(pods, work, Whole) && i < |pods| && p'.tasks == NewTasks(|work|, chunk)
    ensures TasksOk(pods[i := p'], work + NewRows(i, chunk)) && TasksOpen(pods[i := p'], work + NewRows(i, chunk), tear)
  {
    var pods', work' := pods[i := p'], work + NewRows(i, chunk);
    forall j, a | 0 <= j < |pods'| && a in pods'[j].tasks ensures TaskOk(work', j, a) && OpenRow(work', a.row) {
      if j != i {
        assert TaskOk(work, j, a) && OpenRow(work, a.row);
      }
    }
  }

  lemma AssignKeepsOpen(pods: seq<Pod>, work: seq<WorkRow>, i: nat, p': Pod, chunk: Queue, tear: Tear)
    requires OpenIsAssigned(pods, work, Whole) && i < |pods| && pods[i].tasks == [] && p'.tasks == NewTasks(|work|, chunk)
    ensures OpenIsAssigned(pods[i := p'], work + NewRows(i, chunk), tear)
  {
    var pods', work' := pods[i := p'], work + NewRows(i, chunk);
    forall r | OpenRow(work', r) ensures AssignedRow(pods', work', r) {
      if r < |work| {
        assert OpenRow(work, r) && AssignedRow(pods, work, r);
        var a :| a in pods[work[r].pod].tasks && a.row == r;
        assert a in pods'[work[r].pod].tasks;
      } else {
        assert p'.tasks[r-|work|] in p'.tasks;
      }
    }
  }

  lemma AssignKeepsDisjoint(pods: seq<Pod>, i: nat, p': Pod, chunk: Queue, base: nat)
    requires Disjoint(pods) && i < |pods| && Fresh(pods, chunk) && p'.tasks == NewTasks(base, chunk)
    ensures Disjoint(pods[i := p'])
  {
    var pods' := pods[i := p'];
    forall j, a, b | 0 <= j < |pods| && j != i && a in pods[j].tasks && b in p'.tasks ensures a.height != b.height {
      assert BusyWith(pods, a.height);
    }
  }

  /** A change to pod i that leaves its tasks alone. */
  lemma QuietKeepsState(pods: seq<Pod>, work: seq<WorkRow>, last: real, i: nat, p': Pod, last': real, tear: Tear)
    requires StateOk(pods, work, last, tear) && i < |pods| && last <= last' && PodOk(p', last')
    requires p'.tasks == pods[i].tasks && p'.created == pods[i].created && pods[i].Since() <= p'.Since()
    requires Marked(p', i, tear)
    ensures StateOk(pods[i := p'], work, last', tear)
  {
    QuietKeepsLinks(pods, work, i, p', tear);
    hide LinksOk;
    forall j | 0 <= j < |pods| && tear != Recording(j) ensures LogFits(pods[i := p'][j], work, j) {
      assert LogFits(pods[j], work, j);
    }
  }

  lemma QuietKeepsLinks(pods: seq<Pod>, work: seq<WorkRow>, i: nat, p': Pod, tear: Tear)
    requires LinksOk(pods, work, tear) && i < |pods| && p'.tasks == pods[i].tasks
    ensures LinksOk(pods[i := p'], work, tear)
  {
    hide DistinctHeights;
    forall r | OpenRow(work, r) && !Stranded(tear, r) ensures AssignedRow(pods[i := p'], work, r) {
      assert AssignedRow(pods, work, r);
    }
    assert forall j :: 0 <= j < |pods| ==> pods[i := p'][j].tasks == pods[j].tasks;
  }

  lemma NewPodKeepsState(pods: seq<Pod>, work: seq<WorkRow>, last: real, p: Pod, last': real)
    requires StateOk(pods, work, last, Whole) && last <= last' && PodOk(p, last') && p.tasks == []
    ensures StateOk(pods + [p], work, last', Whole)
  {
    NewPodKeepsLinks(pods, work, p);
    NewPodKeepsSeconds(pods, work, p);
  }

  lemma NewPodKeepsLinks(pods: seq<Pod>, work: seq<WorkRow>, p: Pod)
    requires LinksOk(pods, work, Whole) && p.tasks == []
    ensures LinksOk(pods + [p], work, Whole)
  {
    forall r | OpenRow(work, r) && !Stranded(Whole, r) ensures AssignedRow(pods + [p], work, r) {
      assert AssignedRow(pods, work, r);
    }
    forall i, a | 0 <= i < |pods + [p]| && a in (pods + [p])[i].tasks ensures i < |pods| && a in pods[i].tasks {
    }
  }

  lemma NewPodKeepsSeconds(pods: seq<Pod>, work: seq<WorkRow>, p: Pod)
    requires SecondsOk(pods, work, Whole) && RowsOk(pods, work) && p.created <= p.Since()
    ensures SecondsOk(pods + [p], work, Whole)
  {
    LoggedNothing(work, |pods|, |work|);
    forall j | 0 <= j < |pods + [p]| ensures LogFits((pods + [p])[j], work, j) {
      if j < |pods| {
        assert LogFits(pods[j], work, j);
      }
    }
  }

  lemma {:induction false} LoggedNothing(work: seq<WorkRow>, i: int, n: nat)
    requires n <= |work| && forall r :: 0 <= r < |work| ==> work[r].pod < i
    ensures Logged(work, i, n) == 0.0
  {
    if n > 0 {
      LoggedNothing(work, i, n - 1);
    }
  }

  // ---------- a cut while rows are being closed ----------

  /** Some of a pod's rows are closed while the pod still has the blocks: a recording or a stop was cut. */
  lemma CutClosingKeepsState(pods: seq<Pod>, work: seq<WorkRow>, last: real, i: nat, gone: Tasks, o: Outcome, s: real, tear: Tear)
    requires StateOk(pods, work, last, Whole) && i < |pods|
    requires forall a :: a in gone ==> a in pods[i].tasks
    requires DistinctHeights(gone) && (tear == Recording(i) || (tear == Stopping(i) && s == 0.0))
    ensures StateOk(pods, Closed(work, gone, o, s), last, tear)
  {
    hide Disjoint, DistinctHeights, LogFits;
    CutClosingKeepsTasks(pods, work, i, gone, o, s, tear);
    CutClosingKeepsOpen(pods, work, gone, o, s, tear);
    CutClosingKeepsSeconds(pods, work, i, gone, o, s, tear);
  }

  lemma CutClosingKeepsTasks(pods: seq<Pod>, work: seq<WorkRow>, i: nat, gone: Tasks, o: Outcome, s: real, tear: Tear)
    requires TasksOk(pods, work) && TasksOpen(pods, work, Whole) && i < |pods|
    requires forall a :: a in gone ==> a in pods[i].tasks
    requires tear == Recording(i) || tear == Stopping(i)
    ensures TasksOk(pods, Closed(work, gone, o, s)) && TasksOpen(pods, Closed(work, gone, o, s), tear)
  {
    var work' := Closed(work, gone, o, s);
    forall j, a | 0 <= j < |pods| && a in pods[j].tasks
      ensures TaskOk(work', j, a) && (j != i ==> OpenRow(work', a.row))
    {
      assert TaskOk(work, j, a) && OpenRow(work, a.row);
      if j != i {
        forall b | b in gone ensures b.row != a.row {
          assert TaskOk(work, i, b);
        }
      }
    }
  }

  lemma CutClosingKeepsOpen(pods: seq<Pod>, work: seq<WorkRow>, gone: Tasks, o: Outcome, s: real, tear: Tear)
    requires OpenIsAssigned(pods, work, Whole) && OpenIsUnpaid(work) && !tear.Inserting?
    ensures OpenIsAssigned(pods, Closed(work, gone, o, s), tear) && OpenIsUnpaid(Closed(work, gone, o, s))
  {
    var work' := Closed(work, gone, o, s);
    forall r | OpenRow(work', r) ensures AssignedRow(pods, work', r) {
      assert OpenRow(work, r) && AssignedRow(pods, work, r);
    }
  }

  lemma CutClosingKeepsSeconds(pods: seq<Pod>, work: seq<WorkRow>, i: nat, gone: Tasks, o: Outcome, s: real, tear: Tear)
    requires TasksOk(pods, work) && OpenIsUnpaid(work) && SecondsOk(pods, work, Whole) && i < |pods|
    requires forall a :: a in gone ==> a in pods[i].tasks
    requires DistinctHeights(gone) && (tear == Recording(i) || (tear == Stopping(i) && s == 0.0))
    ensures SecondsOk(pods, Closed(work, gone, o, s), tear)
  {
    assert gone[..|gone|] == gone;
    forall a | a in gone ensures TaskOk(work, i, a) {
    }
    forall j | 0 <= j < |pods| && tear != Recording(j) ensures LogFits(pods[j], Closed(work, gone, o, s), j) {
      assert LogFits(pods[j], work, j);
      LoggedClosed(work, gone, |gone|, i, j, o, s);
      TimesIs(OpenCount(work, gone, |gone|), s);
    }
  }

  // ---------- what a cut recording logs ----------

  lemma {:induction false} TimesAdds(m: nat, n: nat, s: real)
    ensures Times(m + n, s) == Times(m, s) + Times(n, s)
  {
    if n > 0 {
      TimesAdds(m, n - 1, s);
    }
  }

  /** The log once a recording of `gone` was cut after n of its rows, with the share first each. */
  ghost function AfterCut(work: seq<WorkRow>, gone: Tasks, n: nat, first: real): seq<WorkRow>
    requires n <= |gone|
  {
    Closed(work, gone[..n], Proven, first)
  }

  /** Of the tasks recorded again by the cleanup, those whose rows the cut recording had closed already. */
  ghost function ClosedAlready(work: seq<WorkRow>, gone: Tasks, n: nat, first: real, again: Tasks): nat
    requires n <= |gone|
  {
    |again| - OpenCount(AfterCut(work, gone, n, first), again, |again|)
  }

  /** A pod whose recording at t1 was cut after n rows, and whose landed blocks the cleanup records at t2. */
  ghost predicate CutAndRecorded(work: seq<WorkRow>, i: int, since: real, gone: Tasks, n: nat, t1: real, again: Tasks, t2: real) {
    && OpenIsUnpaid(work) && DistinctHeights(gone) && DistinctHeights(again)
    && (forall a :: a in gone ==> TaskOk(work, i, a) && OpenRow(work, a.row))
    && (forall a :: a in again ==> TaskOk(work, i, a) && OpenRow(work, a.row))
    && 0 <= n <= |gone| && |gone| > 0 && |again| > 0 && since <= t1 <= t2
  }

  /** What the cut recording and the cleanup together log for the pod. */
  ghost function LoggedInAll(work: seq<WorkRow>, i: int, since: real, gone: Tasks, n: nat, t1: real, again: Tasks, t2: real): real
    requires CutAndRecorded(work, i, since, gone, n, t1, again, t2)
  {
    var cut := AfterCut(work, gone, n, SplitOf(t1 - since, |gone|));
    Logged(Closed(cut, again, Proven, SplitOf(t2 - since, |again|)), i, |work|) - Logged(work, i, |work|)
  }

  /** Exactly when that fits the time since the segment began and some slack: when the shares paid by the cut recording
      are no more than what the cleanup's split withholds for the blocks it finds closed, and the slack. */
  lemma CutRecordingFits(work: seq<WorkRow>, i: int, since: real, gone: Tasks, n: nat, t1: real, again: Tasks, t2: real, slack: real)
    requires CutAndRecorded(work, i, since, gone, n, t1, again, t2)
    ensures var first, second := SplitOf(t1 - since, |gone|), SplitOf(t2 - since, |again|);
            LoggedInAll(work, i, since, gone, n, t1, again, t2) <= t2 - since + slack
            <==> Times(n, first) <= Times(ClosedAlready(work, gone, n, first, again), second) + slack
  {
    hide SplitOf, Logged, Closed, OpenCount;
    var first, second := SplitOf(t1 - since, |gone|), SplitOf(t2 - since, |again|);
    var cut := AfterCut(work, gone, n, first);
    var left := OpenCount(cut, again, |again|);
    LoggedClosed(work, gone, n, i, i, Proven, first);
    AllOpenCount(work, gone, n);
    CutStillOk(work, i, gone, n, first, again);
    LoggedClosed(cut, again, |again|, i, i, Proven, second);
    assert again[..|again|] == again;
    TimesAdds(|again| - left, left, second);
  }

  lemma CutStillOk(work: seq<WorkRow>, i: int, gone: Tasks, n: nat, first: real, again: Tasks)
    requires OpenIsUnpaid(work) && n <= |gone| && forall a :: a in again ==> TaskOk(work, i, a)
    ensures var cut := AfterCut(work, gone, n, first);
            OpenIsUnpaid(cut) && |cut| == |work| && forall a :: a in again ==> TaskOk(cut, i, a)
  {
  }

  /** How many of the first k tasks are in the set. */
  function CountIn(tasks: Tasks, s: set<Assignment>, k: nat): nat
    requires k <= |tasks|
  {
    if k == 0 then 0 else CountIn(tasks, s, k - 1) + (if tasks[k-1] in s then 1 else 0)
  }

  function TaskSet(tasks: Tasks): set<Assignment> {
    set a | a in tasks
  }

  lemma {:induction false} CountIsCardinality(tasks: Tasks, s: set<Assignment>, k: nat)
    requires k <= |tasks| && DistinctHeights(tasks)
    ensures CountIn(tasks, s, k) == |s * TaskSet(tasks[..k])|
  {
    if k == 0 {
      assert s * TaskSet(tasks[..0]) == {};
    } else {
      CountIsCardinality(tasks, s, k - 1);
      OneMoreInSet(tasks, s, k - 1);
    }
  }

  lemma OneMoreInSet(tasks: Tasks, s: set<Assignment>, k: nat)
    requires k < |tasks| && DistinctHeights(tasks)
    ensures |s * TaskSet(tasks[..k+1])| == |s * TaskSet(tasks[..k])| + (if tasks[k] in s then 1 else 0)
  {
    var a := tasks[k];
    assert a !in tasks[..k];
    assert TaskSet(tasks[..k+1]) == TaskSet(tasks[..k]) + {a} by {
      assert tasks[..k+1] == tasks[..k] + [a];
    }
    if a in s {
      assert s * (TaskSet(tasks[..k]) + {a}) == s * TaskSet(tasks[..k]) + {a};
    } else {
      assert s * (TaskSet(tasks[..k]) + {a}) == s * TaskSet(tasks[..k]);
    }
  }

  lemma {:induction false} ClosedAreCounted(work: seq<WorkRow>, i: int, gone: Tasks, n: nat, first: real, again: Tasks, k: nat)
    requires n <= |gone| && k <= |again|
    requires forall a :: a in gone + again ==> TaskOk(work, i, a) && OpenRow(work, a.row)
    requires forall a, b :: a in gone && b in again && a.row == b.row ==> a == b
    ensures OpenCount(AfterCut(work, gone, n, first), again, k) == k - CountIn(again, TaskSet(gone[..n]), k)
  {
    if k > 0 {
      ClosedAreCounted(work, i, gone, n, first, again, k - 1);
      var b := again[k-1];
      assert b in gone + again && TaskOk(work, i, b);
      assert HasRow(gone[..n], b.row) <==> b in gone[..n] by {
        if HasRow(gone[..n], b.row) {
          var a :| a in gone[..n] && a.row == b.row;
          assert a in gone;
        }
      }
    }
  }

  /** When what had landed still counts as landed, it fits exactly when n times what the first share has over the second
      is within the slack: so always when nothing more has landed. */
  lemma GrownCoverageFits(work: seq<WorkRow>, i: int, since: real, gone: Tasks, n: nat, t1: real, again: Tasks, t2: real, slack: real)
    requires CutAndRecorded(work, i, since, gone, n, t1, again, t2)
    requires forall a :: a in gone ==> a in again
    requires forall a, b :: a in again && b in again && a.row == b.row ==> a == b
    ensures var first, second := SplitOf(t1 - since, |gone|), SplitOf(t2 - since, |again|);
            LoggedInAll(work, i, since, gone, n, t1, again, t2) <= t2 - since + slack <==> Times(n, first - second) <= slack
    ensures |again| <= |gone| && slack >= 0.0 ==> LoggedInAll(work, i, since, gone, n, t1, again, t2) <= t2 - since + slack
  {
    hide SplitOf, LoggedInAll, ClosedAlready;
    var first, second := SplitOf(t1 - since, |gone|), SplitOf(t2 - since, |again|);
    CutRecordingFits(work, i, since, gone, n, t1, again, t2, slack);
    AllClosedAgain(work, i, gone, n, first, again);
    TimesDiffer(n, first, second);
    if |again| <= |gone| && slack >= 0.0 {
      ShareOrder(t1 - since, |gone|, t2 - since, |again|);
      TimesOrder(0, n, second - first);
      TimesDiffer(n, second, first);
    }
  }

  lemma {:induction false} TimesDiffer(n: nat, a: real, b: real)
    ensures Times(n, a - b) == Times(n, a) - Times(n, b)
  {
    if n > 0 {
      TimesDiffer(n - 1, a, b);
    }
  }

  /** A longer time split between no more blocks gives no smaller shares. */
  lemma ShareOrder(d: real, m: nat, e: real, n: nat)
    requires 0.0 <= d <= e && 0 < n <= m
    ensures SplitOf(d, m) <= SplitOf(e, n)
  {
    hide SplitOf;
    var a, b := SplitOf(d, m), SplitOf(e, n);
    if b < a {
      SplitIsNonNegative(e, n);
      TimesOrder(n, m, a);
      TimesCompare(n, b, a);
    }
  }

  lemma AllClosedAgain(work: seq<WorkRow>, i: int, gone: Tasks, n: nat, first: real, again: Tasks)
    requires n <= |gone| && DistinctHeights(gone) && DistinctHeights(again)
    requires forall a :: a in gone ==> a in again
    requires forall a :: a in again ==> TaskOk(work, i, a) && OpenRow(work, a.row)
    requires forall a, b :: a in again && b in again && a.row == b.row ==> a == b
    ensures ClosedAlready(work, gone, n, first, again) == n
  {
    hide OpenCount, TaskOk, OpenRow;
    ClosedAreCounted(work, i, gone, n, first, again, |again|);
    var paid := TaskSet(gone[..n]);
    CountIsCardinality(again, paid, |again|);
    CountIsCardinality(gone, paid, n);
    AllCounted(gone, n);
    assert again[..|again|] == again;
    assert paid * TaskSet(again) == paid == paid * TaskSet(gone[..n]);
  }

  lemma {:induction false} AllCounted(gone: Tasks, n: nat)
    requires n <= |gone|
    ensures CountIn(gone, TaskSet(gone[..n]), n) == n
  {
    CountAll(gone, TaskSet(gone[..n]), n);
  }

  lemma {:induction false} CountAll(tasks: Tasks, s: set<Assignment>, k: nat)
    requires k <= |tasks| && forall m :: 0 <= m < k ==> tasks[m] in s
    ensures CountIn(tasks, s, k) == k
  {
    if k > 0 {
      CountAll(tasks, s, k - 1);
    }
  }

  lemma {:induction false} TimesCompare(n: nat, a: real, b: real)
    requires n > 0
    ensures Times(n, a) <= Times(n, b) <==> a <= b
    ensures a < b ==> Times(n, a) < Times(n, b)
  {
    if n > 1 {
      TimesCompare(n - 1, a, b);
      TimesCompare(n - 1, b, a);
    }
  }

  /** When the pod had given the recorded blocks up already, the time up to the cut is logged twice: it fits only if
      that is within the slack. */
  lemma GivenUpFits(work: seq<WorkRow>, i: int, since: real, gone: Tasks, t1: real, again: Tasks, t2: real, slack: real)
    requires CutAndRecorded(work, i, since, gone, |gone|, t1, again, t2)
    requires forall a, b :: a in gone && b in again ==> a.row != b.row
    ensures LoggedInAll(work, i, since, gone, |gone|, t1, again, t2) <= t2 - since + slack <==> t1 - since <= slack
  {
    hide SplitOf, LoggedInAll, OpenCount;
    var first := SplitOf(t1 - since, |gone|);
    CutRecordingFits(work, i, since, gone, |gone|, t1, again, t2, slack);
    ClosedAreCounted(work, i, gone, |gone|, first, again, |again|);
    CountIsCardinality(again, TaskSet(gone), |again|);
    assert gone[..|gone|] == gone && again[..|again|] == again;
    assert TaskSet(gone) * TaskSet(again) == {};
  }

  // ---------- what the cleanup logs ----------

  /** What is logged for a pod with these tasks once it is stopped, `answer` having landed, at t. */
  ghost function LoggedAfter(work: seq<WorkRow>, i: int, tasks: Tasks, since: real, answer: set<int>, t: real): real {
    var again := Done(tasks, answer);
    Logged(work, i, |work|)
    + if again == [] then 0.0 else Times(OpenCount(work, again, |again|), SplitOf(t - since, |again|))
  }

  /** Only rows of pod i change, and none moves to another pod. */
  predicate OnlyRowsOf(before: seq<WorkRow>, after: seq<WorkRow>, i: int) {
    && |after| == |before|
    && forall r :: 0 <= r < |after| ==> after[r].pod == before[r].pod && (before[r].pod != i ==> after[r] == before[r])
  }

  /** The rows of pod j are as they were. */
  predicate SameRowsOf(before: seq<WorkRow>, after: seq<WorkRow>, j: int) {
    && |after| == |before|
    && forall r :: 0 <= r < |after| ==> after[r].pod == before[r].pod && (before[r].pod == j ==> after[r] == before[r])
  }

  lemma {:induction false} LoggedSame(before: seq<WorkRow>, after: seq<WorkRow>, j: int, n: nat)
    requires SameRowsOf(before, after, j) && n <= |before|
    ensures Logged(after, j, n) == Logged(before, j, n)
  {
    if n > 0 {
      LoggedSame(before, after, j, n - 1);
    }
  }

  lemma {:induction false} OpenCountSame(before: seq<WorkRow>, after: seq<WorkRow>, j: int, tasks: Tasks, k: nat)
    requires SameRowsOf(before, after, j) && k <= |tasks| && forall a :: a in tasks ==> TaskOk(before, j, a)
    ensures OpenCount(after, tasks, k) == OpenCount(before, tasks, k)
  {
    if k > 0 {
      OpenCountSame(before, after, j, tasks, k - 1);
      assert TaskOk(before, j, tasks[k-1]);
    }
  }

  lemma LoggedAfterSame(before: seq<WorkRow>, after: seq<WorkRow>, j: int, tasks: Tasks, since: real, answer: set<int>, t: real)
    requires SameRowsOf(before, after, j) && forall a :: a in tasks ==> TaskOk(before, j, a)
    ensures LoggedAfter(after, j, tasks, since, answer, t) == LoggedAfter(before, j, tasks, since, answer, t)
  {
    LoggedSame(before, after, j, |before|);
    OpenCountSame(before, after, j, Done(tasks, answer), |Done(tasks, answer)|);
  }

  /** The log of a stopped pod: the landed tasks' rows with their shares, the others' without seconds. */
  lemma StopLogs(work: seq<WorkRow>, i: int, tasks: Tasks, answer: set<int>, s: real, o: Outcome)
    requires OpenIsUnpaid(work) && DistinctHeights(tasks) && forall a :: a in tasks ==> TaskOk(work, i, a)
    ensures var done := Done(tasks, answer);
            var after := Closed(Closed(work, done, Proven, s), Rest(tasks, answer), o, 0.0);
            && OnlyRowsOf(work, after, i)
            && Logged(after, i, |work|) == Logged(work, i, |work|) + Times(OpenCount(work, done, |done|), s)
  {
    var done, rest := Done(tasks, answer), Rest(tasks, answer);
    FiltersDistinct(tasks, answer);
    ClosingLogs(work, i, done, Proven, s);
    ClosingLogs(Closed(work, done, Proven, s), i, rest, o, 0.0);
    TimesIs(OpenCount(Closed(work, done, Proven, s), rest, |rest|), 0.0);
  }

  lemma ClosingLogs(work: seq<WorkRow>, i: int, tasks: Tasks, o: Outcome, s: real)
    requires OpenIsUnpaid(work) && DistinctHeights(tasks) && forall a :: a in tasks ==> TaskOk(work, i, a)
    ensures var after := Closed(work, tasks, o, s);
            && OnlyRowsOf(work, after, i) && OpenIsUnpaid(after)
            && Logged(after, i, |work|) == Logged(work, i, |work|) + Times(OpenCount(work, tasks, |tasks|), s)
  {
    LoggedClosed(work, tasks, |tasks|, i, i, o, s);
    assert tasks[..|tasks|] == tasks;
  }

  /** A cut recording: the log before it, the tasks that had landed, how many of their rows were closed, when, and the
      tasks the pod still had. */
  datatype CutShort = CutShort(work: seq<WorkRow>, since: real, gone: Tasks, n: nat, at: real, left: Tasks)

  ghost predicate CutOk(c: CutShort, i: int) {
    && OpenIsUnpaid(c.work) && DistinctHeights(c.gone) && DistinctHeights(c.left)
    && c.n <= |c.gone| && |c.gone| > 0 && c.since <= c.at
    && (forall a :: a in c.gone ==> TaskOk(c.work, i, a) && OpenRow(c.work, a.row))
    && (forall a :: a in c.left ==> TaskOk(c.work, i, a) && OpenRow(c.work, a.row))
  }

  /** The share its closed rows got, and the log it left. */
  function FirstShare(c: CutShort): real
    requires |c.gone| > 0
  {
    SplitOf(c.at - c.since, |c.gone|)
  }

  ghost function CutLog(c: CutShort): seq<WorkRow>
    requires c.n <= |c.gone| && |c.gone| > 0
  {
    AfterCut(c.work, c.gone, c.n, FirstShare(c))
  }

  /** The state such a cut left: its log, and pod i with its segment still running. */
  ghost predicate CutLeft(c: CutShort, pods: seq<Pod>, work: seq<WorkRow>, last: real, i: int) {
    && CutOk(c, i) && c.at <= last && work == CutLog(c)
    && 0 <= i < |pods| && pods[i].Live() && pods[i].segmentStart == Some(c.since) && pods[i].tasks == c.left
    && Logged(c.work, i, |c.work|) <= c.since - pods[i].created
  }

  /** What the pod's wall time has beyond the segment up to t2, its earlier log taken off. */
  function Slack(c: CutShort, i: int, created: real, t2: real, ended: real): real {
    ended - t2 + (c.since - created - Logged(c.work, i, |c.work|))
  }

  /** What a cleanup at t2, `answer` having landed, has to find for the log to fit the pod's wall time. */
  ghost predicate CutFitsWall(c: CutShort, i: int, created: real, answer: set<int>, t2: real, ended: real)
    requires CutOk(c, i)
  {
    var again := Done(c.left, answer);
    again == []
    || Times(c.n, FirstShare(c)) <= Times(ClosedAlready(c.work, c.gone, c.n, FirstShare(c), again), SplitOf(t2 - c.since, |again|))
                                    + Slack(c, i, created, t2, ended)
  }

  /** Exactly when the log of the pod whose recording was cut fits its wall time. */
  lemma CutFitsWallExactly(c: CutShort, i: int, created: real, answer: set<int>, t2: real, ended: real)
    requires CutOk(c, i) && c.at <= t2 <= ended && Logged(c.work, i, |c.work|) <= c.since - created
    ensures LoggedAfter(CutLog(c), i, c.left, c.since, answer, t2) <= ended - created
            <==> CutFitsWall(c, i, created, answer, t2, ended)
  {
    hide SplitOf, Logged, Closed, OpenCount;
    var again, first := Done(c.left, answer), FirstShare(c);
    LoggedClosed(c.work, c.gone, c.n, i, i, Proven, first);
    AllOpenCount(c.work, c.gone, c.n);
    if again == [] {
      SplitIsNonNegative(c.at - c.since, |c.gone|);
      TimesOrder(c.n, |c.gone|, first);
    } else {
      FiltersDistinct(c.left, answer);
      CutRecordingFits(c.work, i, c.since, c.gone, c.n, c.at, again, t2, Slack(c, i, created, t2, ended));
      CutStillOk(c.work, i, c.gone, c.n, first, again);
      LoggedClosed(CutLog(c), again, |again|, i, i, Proven, SplitOf(t2 - c.since, |again|));
      assert again[..|again|] == again;
    }
  }

  const TWO_ROWS := [WorkRow(0, 5, None, 0.0), WorkRow(0, 6, None, 0.0)]
  const FIFTH := Assignment(None, 5, 0)
  const SIXTH := Assignment(None, 6, 1)

  /** A pod created at 0 starts two blocks at 10, and the recording of the first is cut at 110, when the pod has just
      given it up. */
  const OVERLOGGED := CutShort(TWO_ROWS, 10.0, [FIFTH], 1, 110.0, [SIXTH])
  const TORN_POD := Pod(1.0, 0.0, None, Working, [SIXTH], Some(10.0), 10.0, None)

  /** The cleanup finds the other block landed at 120 and stops the pod at 130: 210 seconds are logged. */
  lemma CutRecordingCanOverrun()
    ensures CutLeft(OVERLOGGED, [TORN_POD], CutLog(OVERLOGGED), 110.0, 0)
    ensures LoggedAfter(CutLog(OVERLOGGED), 0, TORN_POD.tasks, TORN_POD.Since(), {6}, 120.0) > 130.0 - TORN_POD.created
  {
    var c := OVERLOGGED;
    assert forall a :: a in c.gone ==> a == FIFTH;
    assert forall a :: a in c.left ==> a == SIXTH;
    assert OpenIsUnpaid(TWO_ROWS);
    assert CutOk(c, 0);
    var again := Done(c.left, {6});
    assert again == [SIXTH] by {
      assert [SIXTH][..0] == [] && Done([], {6}) == [];
      assert SIXTH.height in {6};
    }
    assert Logged(TWO_ROWS, 0, 2) == 0.0 by {
      assert Logged(TWO_ROWS, 0, 1) == 0.0;
    }
    CutFitsWallExactly(c, 0, 0.0, {6}, 120.0, 130.0);
    GivenUpFits(TWO_ROWS, 0, 10.0, c.gone, 110.0, again, 120.0, 20.0);
    CutRecordingFits(TWO_ROWS, 0, 10.0, c.gone, 1, 110.0, again, 120.0, 20.0);
  }
}
