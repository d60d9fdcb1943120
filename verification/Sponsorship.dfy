/** The payment status of sponsorships: the invoice poller, the proving bot, and the end of a hold. */
module SponsorRules {
  import opened Ranges
  import opened Intervals

  datatype Status = Requested | Invoiced | Expired | Underpaid | Paid | Proving | Proven | Cancelled | Refunded

  datatype Sponsor = Sponsor(span: Span, status: Status, minSats: Option<int>, paidSats: Option<int>,
                             holdUntil: Option<real>, paidAt: Option<real>)

  type Sponsors = map<nat, Sponsor>

  datatype PaymentState = Settled | Processing | Other

  datatype Payment = Payment(sats: int, state: PaymentState)

  datatype InvoiceState = New | InvoiceProcessing | InvoiceExpired | InvoiceInvalid | InvoiceSettled

  /** What BTCPay answers about one invoice. `marked` says someone changed it by hand. */
  datatype Answer = Answer(payments: seq<Payment>, state: InvoiceState, marked: bool)

  const SPONSOR_CONFIRMING_HOLD := 7200.0

  function SettledSats(payments: seq<Payment>): int {
    if payments == [] then 0
    else
      var last := payments[|payments|-1];
      SettledSats(payments[..|payments|-1]) + (if last.state == Settled then last.sats else 0)
  }

  predicate Confirming(payments: seq<Payment>) {
    exists i :: 0 <= i < |payments| && payments[i].state == Processing
  }

  /** SPONSOR_HOLD_SQL */
  predicate Holds(s: Sponsor) {
    (s.status == Paid || s.status == Proving) && s.paidSats.Some? && s.minSats.Some? && s.paidSats.value >= s.minSats.value
  }

  /** The statuses the poller still asks about. */
  predicate Watched(s: Status) {
    s == Invoiced || s == Expired || s == Underpaid
  }

  function MinSats(s: Sponsor): int {
    if s.minSats.Some? then s.minSats.value else 0
  }

  /** The status an answer calls for, given the row as the poller read it. */
  function Decided(read: Sponsor, a: Answer): Status {
    var settled := SettledSats(a.payments);
    if settled >= MinSats(read) && settled > 0 then Paid
    else if Confirming(a.payments) || a.state == InvoiceProcessing then read.status
    else if a.state == New then read.status
    else if settled > 0 then Underpaid
    else if read.status == Invoiced then Expired
    else read.status
  }

  function HeldUntil(read: Sponsor, a: Answer, now: real): Option<real> {
    if Decided(read, a) == read.status && read.status == Invoiced
       && (Confirming(a.payments) || a.state == InvoiceProcessing)
    then
      var old_ := if read.holdUntil.Some? then read.holdUntil.value else 0.0;
      Some(if old_ > now + SPONSOR_CONFIRMING_HOLD then old_ else now + SPONSOR_CONFIRMING_HOLD)
    else read.holdUntil
  }

  function OrNone(sats: int): Option<int> {
    if sats == 0 then None else Some(sats)
  }

  predicate Overlap(a: Span, b: Span) {
    a.lo <= b.hi && a.hi >= b.lo
  }

  /** A hold whose whole span is covered by verified ranges ends. */
  ghost function EndedHold(s: Sponsor, span: Span, rows: seq<Span>): Sponsor {
    if Holds(s) && Overlap(s.span, span) && AllCovered(rows, s.span.lo, s.span.hi) then s.(status := Proven) else s
  }

  ghost function EndedHolds(table: Sponsors, span: Span, rows: seq<Span>): Sponsors {
    map id | id in table :: EndedHold(table[id], span, rows)
  }

  /** One answered poll. Every update is guarded by the status the row was read with. */
  ghost function Polled(table: Sponsors, id: nat, read: Sponsor, a: Answer, now: real, rows: seq<Span>): Sponsors
    requires id in table
  {
    var settled := SettledSats(a.payments);
    if a.marked || table[id].status != read.status then table
    else if Decided(read, a) == Paid then
      EndedHolds(table[id := table[id].(status := Paid, paidSats := Some(settled), paidAt := Some(now))], read.span, rows)
    else
      table[id := table[id].(status := Decided(read, a), paidSats := OrNone(settled), holdUntil := HeldUntil(read, a, now))]
  }

  function StartedProving(table: Sponsors, id: nat): Sponsors {
    if id in table && Holds(table[id]) && table[id].status == Paid then table[id := table[id].(status := Proving)] else table
  }

  /** A block of lo..hi that sponsorship s holds and no verified range covers yet. */
  ghost predicate NewlyProves(s: Sponsor, span: Span, rows: seq<Span>, h: int) {
    Holds(s) && s.span.Has(h) && span.Has(h) && !Covered(rows, h)
  }

  /** The refusal's order: the oldest payment first, a missing time before any, equal times by id. */
  predicate PaidBefore(table: Sponsors, a: nat, b: nat)
    requires a in table && b in table
  {
    var s, t := table[a].paidAt, table[b].paidAt;
    if s == t then a < b
    else s.None? || (t.Some? && s.value < t.value)
  }

  /** Sponsorship id refuses the submission: it would newly prove one of its blocks under a key not registered for
      it. */
  ghost predicate Refuses(table: Sponsors, id: nat, mine: set<nat>, span: Span, rows: seq<Span>)
    requires id in table
  {
    id !in mine && exists h :: NewlyProves(table[id], span, rows, h)
  }

  // ---------- runs ----------

  datatype Event =
    | Poll(id: nat, read: Sponsor, answer: Answer, now: real)
    | BotProving(id: nat)
    | Recorded(span: Span)

  /** A poll acts on a copy of the row made earlier; the span and the minimum never change. */
  predicate ReadOf(read: Sponsor, s: Sponsor) {
    Watched(read.status) && read.span == s.span && read.minSats == s.minSats
  }

  ghost predicate Next(table: Sponsors, rows: seq<Span>, e: Event, table': Sponsors) {
    match e
    case Poll(id, read, answer, now) =>
      id in table && ReadOf(read, table[id]) && table' == Polled(table, id, read, answer, now, rows)
    case BotProving(id) => table' == StartedProving(table, id)
    case Recorded(span) => table' == EndedHolds(table, span, rows)
  }

  function Rank(s: Status): int {
    match s
    case Requested => 0
    case Invoiced => 1
    case Expired => 2
    case Underpaid => 3
    case Paid => 4
    case Proving => 5
    case Proven => 6
    case Cancelled => 7
    case Refunded => 7
  }

  /** A change raises the rank; `paid` is entered by enough settled sats, `proven` by full coverage of a span
      whose sponsor paid at least the minimum. */
  ghost predicate GoodChange(s: Sponsor, s': Sponsor, rows: seq<Span>, settled: int) {
    && s'.span == s.span && s'.minSats == s.minSats
    && (s'.status != s.status ==> Rank(s'.status) > Rank(s.status))
    && (s'.status == Paid && s.status != Paid ==> s'.paidSats == Some(settled) && settled >= MinSats(s) && settled > 0)
    && (s'.status == Proving && s.status != Proving ==> s.status == Paid && Holds(s))
    && (s'.status == Proven && s.status != Proven ==>
          AllCovered(rows, s.span.lo, s.span.hi) && s.minSats.Some? && s'.paidSats.Some? && s'.paidSats.value >= s.minSats.value)
  }

  function EventSats(e: Event): int {
    if e.Poll? then SettledSats(e.answer.payments) else 0
  }

  lemma StepIsGood(table: Sponsors, rows: seq<Span>, e: Event, table': Sponsors, k: nat)
    requires Next(table, rows, e, table') && k in table
    ensures k in table' && GoodChange(table[k], table'[k], rows, EventSats(e))
  {
  }

  ghost predicate IsRun(tables: seq<Sponsors>, coverage: seq<seq<Span>>, events: seq<Event>) {
    && |tables| == |events| + 1 && |coverage| == |events|
    && forall n :: 0 <= n < |events| ==> Next(tables[n], coverage[n], events[n], tables[n+1])
  }

  /** Step n of a run settled at least k's minimum and made it paid. */
  ghost predicate PaidAt(tables: seq<Sponsors>, events: seq<Event>, n: nat, k: nat)
    requires n < |events| && |tables| == |events| + 1
  {
    && k in tables[n] && k in tables[n+1] && tables[n+1][k].status == Paid
    && events[n].Poll? && EventSats(events[n]) >= MinSats(tables[n][k]) && EventSats(events[n]) > 0
    && tables[n+1][k].paidSats == Some(EventSats(events[n]))
  }

  /** Step n of a run ended k's hold with its whole span covered. */
  ghost predicate ProvenAt(tables: seq<Sponsors>, coverage: seq<seq<Span>>, n: nat, k: nat)
    requires n < |coverage| && |tables| == |coverage| + 1
  {
    && k in tables[n] && k in tables[n+1] && tables[n+1][k].status == Proven
    && AllCovered(coverage[n], tables[n][k].span.lo, tables[n][k].span.hi)
    && tables[n][k].minSats.Some? && tables[n+1][k].paidSats.Some?
    && tables[n+1][k].paidSats.value >= tables[n][k].minSats.value
  }

  /** Over any run a sponsorship's status only rises: it is proven only by a step that found its whole span
      covered, after a step that settled at least its minimum, and stays proven. */
  lemma {:induction false} StatusesOnlyRise(tables: seq<Sponsors>, coverage: seq<seq<Span>>, events: seq<Event>, j: nat, k: nat)
    requires IsRun(tables, coverage, events) && j < |tables| && k in tables[0]
    ensures k in tables[j] && Rank(tables[0][k].status) <= Rank(tables[j][k].status)
    ensures forall i :: 0 <= i <= j && k in tables[i] && tables[i][k].status == Proven ==> tables[j][k].status == Proven
    ensures Rank(tables[0][k].status) < Rank(Paid) <= Rank(tables[j][k].status) <= Rank(Proven) ==>
              exists n :: 0 <= n < j && (PaidAt(tables, events, n, k) || (ProvenAt(tables, coverage, n, k) && events[n].Poll?))
    ensures tables[0][k].status != Proven && tables[j][k].status == Proven ==>
              exists n :: 0 <= n < j && ProvenAt(tables, coverage, n, k)
  {
    if j > 0 {
      StatusesOnlyRise(tables, coverage, events, j - 1, k);
      assert Next(tables[j-1], coverage[j-1], events[j-1], tables[j]);
      StepIsGood(tables[j-1], coverage[j-1], events[j-1], tables[j], k);
      var before, after := tables[j-1][k].status, tables[j][k].status;
      if before != Proven && after == Proven {
        assert ProvenAt(tables, coverage, j - 1, k);
      }
      if Rank(before) < Rank(Paid) && after == Paid {
        assert PaidAt(tables, events, j - 1, k);
      }
    }
  }
}

/** What a poll, a hold and its end mean, from the payments and the stored columns. */
module SponsorLaws {
  import opened Ranges
  import opened Intervals
  import opened SponsorRules

  /** The settled sum of an invoice's payments. */
  function SettledSum(payments: seq<Payment>): int {
    if payments == [] then 0
    else (if payments[0].state == Settled then payments[0].sats else 0) + SettledSum(payments[1..])
  }

  lemma {:induction false} SettledSumAppend(payments: seq<Payment>, p: Payment)
    ensures SettledSum(payments + [p]) == SettledSum(payments) + if p.state == Settled then p.sats else 0
  {
    if payments == [] {
      assert payments + [p] == [p];
    } else {
      assert (payments + [p])[1..] == payments[1..] + [p];
      SettledSumAppend(payments[1..], p);
    }
  }

  lemma {:induction false} SettledSumIs(payments: seq<Payment>)
    ensures SettledSats(payments) == SettledSum(payments)
  {
    if payments != [] {
      var init, last := payments[..|payments|-1], payments[|payments|-1];
      SettledSumIs(init);
      SettledSumAppend(init, last);
      assert payments == init + [last];
    }
  }

  /** The payments reach the minimum, and are something. */
  predicate ReachesMinimum(s: Sponsor, a: Answer) {
    var sum := SettledSum(a.payments);
    sum > 0 && match s.minSats case Some(min) => min <= sum case None => true
  }

  predicate NoneConfirming(a: Answer) {
    forall p :: p in a.payments ==> p.state != Processing
  }

  /** The invoice is over, and nothing that could still count is on its way. */
  predicate Over(a: Answer) {
    NoneConfirming(a) && (a.state == InvoiceExpired || a.state == InvoiceInvalid || a.state == InvoiceSettled)
  }

  /** What an answered poll makes of the row it was about, whose hold the poller had read as `hold`. */
  ghost predicate PolledRow(s: Sponsor, hold: Option<real>, a: Answer, now: real, rows: seq<Span>, s': Sponsor) {
    var sum := SettledSum(a.payments);
    && s'.span == s.span && s'.minSats == s.minSats
    && (s'.status == Paid || s'.status == Proven <==> ReachesMinimum(s, a))
    && (s'.status == Underpaid <==> !ReachesMinimum(s, a) && ((Over(a) && sum > 0) || s.status == Underpaid))
    && (s'.status == Expired <==>
          !ReachesMinimum(s, a) && !(Over(a) && sum > 0) && (s.status == Expired || (s.status == Invoiced && Over(a))))
    && (s'.status == Invoiced <==> !ReachesMinimum(s, a) && s.status == Invoiced && !Over(a))
    && (s'.status == Proven ==> forall h :: s.span.lo <= h <= s.span.hi ==> Covered(rows, h))
    && (s'.status == Paid && s.minSats.Some? ==> exists h :: s.span.lo <= h <= s.span.hi && !Covered(rows, h))
    && s'.paidSats == (if sum == 0 then None else Some(sum))
    && s'.paidAt == (if ReachesMinimum(s, a) then Some(now) else s.paidAt)
    && (if ReachesMinimum(s, a) then s'.holdUntil == s.holdUntil
        else if s.status == Invoiced && (!NoneConfirming(a) || a.state == InvoiceProcessing) then
          && s'.holdUntil.Some? && s'.holdUntil.value >= now + 7200.0
          && (s'.holdUntil.value == now + 7200.0 || s'.holdUntil == hold || (hold == None && s'.holdUntil.value == 0.0))
          && (hold.Some? ==> s'.holdUntil.value >= hold.value)
        else s'.holdUntil == hold)
  }

  lemma ConfirmingIs(a: Answer)
    ensures Confirming(a.payments) <==> !NoneConfirming(a)
  {
    forall i | 0 <= i < |a.payments| && a.payments[i].state == Processing ensures !NoneConfirming(a) {
      assert a.payments[i] in a.payments;
    }
  }

  lemma AllCoveredIs(rows: seq<Span>, lo: int, hi: int)
    ensures AllCovered(rows, lo, hi) <==> forall h :: lo <= h <= hi ==> Covered(rows, h)
  {
  }

  /** A poll whose guard holds moves its row as the payments say; a marked invoice, or a row that has moved since it was
      read, is left alone with everything else. */
  lemma PollIsAnswered(table: Sponsors, id: nat, read: Sponsor, a: Answer, now: real, rows: seq<Span>)
    requires id in table && ReadOf(read, table[id]) && table[id].span.lo <= table[id].span.hi
    ensures var after := Polled(table, id, read, a, now, rows);
            && after.Keys == table.Keys
            && if a.marked || table[id].status != read.status then after == table
               else PolledRow(table[id], read.holdUntil, a, now, rows, after[id])
  {
    hide Confirming, AllCovered, SettledSats, SettledSum;
    SettledSumIs(a.payments);
    ConfirmingIs(a);
    AllCoveredIs(rows, table[id].span.lo, table[id].span.hi);
  }

  /** A recorded range, or a sponsorship paid late, that has a block in common with the span. */
  predicate EventTouches(e: Event, span: Span) {
    match e
    case Poll(_, read, _, _) => read.span.lo <= span.hi && span.lo <= read.span.hi
    case BotProving(_) => false
    case Recorded(s) => s.lo <= span.hi && span.lo <= s.hi
  }

  /** Every other row of the table changes, at a poll or at a recorded range, only by its hold ending, with its whole span
      covered. */
  lemma OthersOnlyEnd(table: Sponsors, rows: seq<Span>, e: Event, table': Sponsors, k: nat)
    requires Next(table, rows, e, table') && k in table && (e.Poll? || e.BotProving? ==> k != e.id)
    ensures k in table' && (table'[k] == table[k]
              || (Holds(table[k]) && table'[k] == table[k].(status := Proven)
                  && EventTouches(e, table[k].span)
                  && forall h :: table[k].span.lo <= h <= table[k].span.hi ==> Covered(rows, h)))
  {
    AllCoveredIs(rows, table[k].span.lo, table[k].span.hi);
  }

  /** The order of refusals: a row without a payment time first, then by that time, then by id; any two rows are ordered
      one way. */
  lemma OldestPaymentFirst(table: Sponsors, a: nat, b: nat)
    requires a in table && b in table && a != b
    ensures PaidBefore(table, a, b) <==>
              match (table[a].paidAt, table[b].paidAt)
              case (None, None) => a < b
              case (None, Some(_)) => true
              case (Some(_), None) => false
              case (Some(s), Some(t)) => s < t || (s == t && a < b)
    ensures PaidBefore(table, a, b) <==> !PaidBefore(table, b, a)
  {
  }

  /** A sponsorship holds its blocks exactly while it is paid, or being proved, with at least its minimum paid. */
  predicate HasPaid(s: Sponsor) {
    s.minSats != None && s.paidSats != None && s.minSats.value <= s.paidSats.value
  }

  /** A hold begins with the payment, lasts through the proving, and ends only by being proven. */
  lemma HoldLastsUntilProven(table: Sponsors, rows: seq<Span>, e: Event, table': Sponsors, k: nat)
    requires Next(table, rows, e, table') && k in table
    ensures k in table' && (HasPaid(table'[k]) && (table'[k].status == Paid || table'[k].status == Proving) <==> Holds(table'[k]))
    ensures Holds(table[k]) ==> Holds(table'[k]) || table'[k].status == Proven
    ensures e == BotProving(k) && Holds(table[k]) ==> table'[k].status == Proving
    ensures e == BotProving(k) && !(HasPaid(table[k]) && table[k].status == Paid) ==> table'[k] == table[k]
    ensures (e.Recorded? && Holds(table[k]) && e.span.lo <= table[k].span.hi && table[k].span.lo <= e.span.hi
             && (forall h :: table[k].span.lo <= h <= table[k].span.hi ==> Covered(rows, h))) ==> table'[k].status == Proven
  {
    AllCoveredIs(rows, table[k].span.lo, table[k].span.hi);
  }
}

module SponsorLedger {
  import opened Ranges
  import opened Intervals
  import opened SponsorRules

  class Ledger {
    var table: Sponsors

    constructor (table: Sponsors)
      ensures this.table == table
    {
      this.table := table;
    }

    /** `_sponsor_mark_proven`: called under the lock with the ranges in lo order. */
    method MarkProven(span: Span, rows: seq<Span>) returns (done: set<nat>)
      requires SortedLo(rows) && forall id :: id in table ==> table[id].span.lo <= table[id].span.hi
      modifies this
      ensures table == EndedHolds(old(table), span, rows)
      ensures done == set id | id in table && table[id] != old(table)[id]
    {
      done := {};
      var left := set id | id in table && Holds(table[id]) && Overlap(table[id].span, span);
      ghost var before := table;
      hide EndedHold, EndedHolds, Holds, Overlap, AllCovered;
      SweepStart(table, left, span, rows);
      while left != {}
        invariant SweepState(before, table, left, done, span, rows)
        invariant forall id :: id in table ==> table[id].span.lo <= table[id].span.hi
        decreases |left|
      {
        var id :| id in left;
        var whole := SweepCovered(rows, table[id].span.lo, table[id].span.hi);
        SweepStep(before, table, left, done, id, whole, span, rows);
        left := left - {id};
        if whole {
          table := table[id := table[id].(status := Proven)];
          done := done + {id};
        }
      }
      SweepDone(before, table, done, span, rows);
    }

    /** The holds not in `left` have been looked at, and ended where their span is covered. */
    ghost predicate SweepState(before: Sponsors, now: Sponsors, left: set<nat>, done: set<nat>, span: Span, rows: seq<Span>) {
      && now.Keys == before.Keys && left <= before.Keys
      && (forall id :: id in left ==> now[id] == before[id] && Holds(before[id]) && Overlap(before[id].span, span))
      && (forall id :: id in before && id !in left ==> now[id] == EndedHold(before[id], span, rows))
      && (forall id :: id in done <==> id in before && now[id] != before[id])
    }

    lemma SweepStart(before: Sponsors, left: set<nat>, span: Span, rows: seq<Span>)
      requires left == set id | id in before && Holds(before[id]) && Overlap(before[id].span, span)
      ensures SweepState(before, before, left, {}, span, rows)
    {
    }

    lemma SweepStep(before: Sponsors, now: Sponsors, left: set<nat>, done: set<nat>, id: nat, whole: bool, span: Span, rows: seq<Span>)
      requires SweepState(before, now, left, done, span, rows) && id in left
      requires whole <==> AllCovered(rows, before[id].span.lo, before[id].span.hi)
      ensures SweepState(before, if whole then now[id := now[id].(status := Proven)] else now, left - {id},
                         if whole then done + {id} else done, span, rows)
    {
      hide AllCovered;
    }

    lemma SweepDone(before: Sponsors, now: Sponsors, done: set<nat>, span: Span, rows: seq<Span>)
      requires SweepState(before, now, {}, done, span, rows)
      ensures now == EndedHolds(before, span, rows)
      ensures done == set id | id in now && now[id] != before[id]
    {
    }

    /** One sponsorship of `sponsor_payments_poll`: the answer is in, and the row is updated under its guard. */
    method Poll(id: nat, read: Sponsor, a: Answer, now: real, rows: seq<Span>)
      requires id in table && ReadOf(read, table[id])
      requires SortedLo(rows) && forall k :: k in table ==> table[k].span.lo <= table[k].span.hi
      modifies this
      ensures table == Polled(old(table), id, read, a, now, rows)
    {
      var settled := 0;
      var confirming := false;
      for i := 0 to |a.payments|
        invariant table == old(table)
        invariant settled == SettledSats(a.payments[..i]) && confirming == Confirming(a.payments[..i])
      {
        var p := a.payments[i];
        assert a.payments[..i+1][..i] == a.payments[..i];
        ConfirmingStep(a.payments, i);
        if p.state == Settled {
          settled := settled + p.sats;
        }
        if p.state == Processing {
          confirming := true;
        }
      }
      assert a.payments[..|a.payments|] == a.payments;
      var status, hold := read.status, read.holdUntil;
      if a.marked {
        return;
      }
      if settled >= (if read.minSats.Some? then read.minSats.value else 0) && settled > 0 {
        status := Paid;
      } else if confirming || a.state == InvoiceProcessing {
        if read.status == Invoiced {
          var held := if hold.Some? then hold.value else 0.0;
          hold := Some(if held > now + SPONSOR_CONFIRMING_HOLD then held else now + SPONSOR_CONFIRMING_HOLD);
        }
      } else if a.state == InvoiceExpired || a.state == InvoiceInvalid || a.state == InvoiceSettled {
        status := if settled > 0 then Underpaid else if read.status == Invoiced then Expired else read.status;
      }
      if table[id].status != read.status {
        return;
      }
      if status == Paid {
        table := table[id := table[id].(status := Paid, paidSats := Some(settled), paidAt := Some(now))];
        var done := MarkProven(read.span, rows);
      } else {
        table := table[id := table[id].(status := status, paidSats := OrNone(settled), holdUntil := hold)];
      }
    }

    lemma ConfirmingStep(payments: seq<Payment>, i: nat)
      requires i < |payments|
      ensures Confirming(payments[..i+1]) <==> Confirming(payments[..i]) || payments[i].state == Processing
    {
      if Confirming(payments[..i]) {
        var j :| 0 <= j < i && payments[..i][j].state == Processing;
        assert payments[..i+1][j].state == Processing;
      }
      if payments[i].state == Processing {
        assert payments[..i+1][i].state == Processing;
      }
    }

    /** The sponsorship of `left` that was paid first. */
    method FirstPaid(left: set<nat>) returns (first: nat)
      requires left != {} && left <= table.Keys
      ensures first in left && forall id :: id in left && id != first ==> PaidBefore(table, first, id)
    {
      first :| first in left;
      var rest := left - {first};
      while rest != {}
        invariant first in left && rest <= left - {first}
        invariant forall id :: id in left && id !in rest && id != first ==> PaidBefore(table, first, id)
        decreases |rest|
      {
        var id :| id in rest;
        rest := rest - {id};
        if PaidBefore(table, id, first) {
          first := id;
        }
      }
    }

    /** The first block of the submission that sponsorship s holds and no verified range covers. */
    method FirstNewlyProven(s: Sponsor, span: Span, rows: seq<Span>) returns (r: Option<int>)
      requires Holds(s)
      ensures r.Some? ==> NewlyProves(s, span, rows, r.value) && forall k :: k < r.value ==> !NewlyProves(s, span, rows, k)
      ensures r.None? ==> forall h :: !NewlyProves(s, span, rows, h)
    {
      var h := if span.lo > s.span.lo then span.lo else s.span.lo;
      var covered := Heights(rows);
      while s.span.Has(h) && span.Has(h) && h in covered
        invariant span.lo <= h && s.span.lo <= h
        invariant forall k :: k < h ==> !NewlyProves(s, span, rows, k)
        decreases span.hi - h
      {
        h := h + 1;
      }
      return if s.span.Has(h) && span.Has(h) then Some(h) else None;
    }

    /** `_hold_refusal`: a submission is refused when it would newly prove a held block under a key that is not
        registered for that sponsorship; of those, the oldest payment's first such block is named. Folds over covered
        blocks never are. */
    method HoldRefusal(span: Span, mine: set<nat>, rows: seq<Span>) returns (held: Option<(nat, int)>)
      ensures held.Some? ==>
        var (id, h) := held.value;
        && id in table && id !in mine && NewlyProves(table[id], span, rows, h)
        && (forall k :: k < h ==> !NewlyProves(table[id], span, rows, k))
        && (forall other :: other in table && other != id && Refuses(table, other, mine, span, rows) ==> PaidBefore(table, id, other))
      ensures held.None? ==> forall id :: id in table ==> !Refuses(table, id, mine, span, rows)
    {
      var left := table.Keys;
      while left != {}
        invariant left <= table.Keys
        invariant forall id :: id in table && id !in left ==> !Refuses(table, id, mine, span, rows)
        decreases |left|
      {
        var id := FirstPaid(left);
        left := left - {id};
        if Holds(table[id]) {
          var h := FirstNewlyProven(table[id], span, rows);
          if h.Some? && id !in mine {
            return Some((id, h.value));
          }
        }
      }
      return None;
    }

    /** `bot_proving` */
    method StartProving(id: nat) returns (ok: bool)
      modifies this
      ensures ok <==> id in old(table) && Holds(old(table)[id])
      ensures table == StartedProving(old(table), id)
    {
      if id !in table || !Holds(table[id]) {
        return false;
      }
      if table[id].status == Paid {
        table := table[id := table[id].(status := Proving)];
      }
      return true;
    }
  }
}
