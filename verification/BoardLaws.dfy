/** What the board's rules mean for a worker, stated on the stored columns: how long a claim keeps its block, which
    block a claim and a suggestion get, what a beat buys, and when a block is parked. */
module BoardLaws {
  import opened Ranges
  import opened Frontier
  import opened BoardRules

  // ---------- how long a claim keeps its block ----------

  /** The claim in this row keeps nothing any more: it is finished, CLAIM_MAX old, CLAIM_TTL without a beat, or never
      beaten at all within CLAIM_GRACE. */
  predicate Lapsed(cfg: Config, r: RangeRow, now: real) {
    || r.status != Claimed
    || now - r.claimedAt >= cfg.claimMax
    || match r.lastBeat
       case Some(beat) => now - beat >= cfg.claimTtl
       case None => now - r.claimedAt >= cfg.claimTtl || now - r.claimedAt >= cfg.claimGrace
  }

  /** A block is free of claims exactly when every row that starts there has lapsed. */
  lemma FreeOfClaimsExactly(cfg: Config, ranges: RangeTable, now: real, h: int)
    ensures !HeldByClaim(cfg, ranges, now, h) <==> forall id :: id in ranges && id.lo == h ==> Lapsed(cfg, ranges[id], now)
  {
    forall id | id in ranges && id.lo == h ensures Lapsed(cfg, ranges[id], now) <==> !Live(cfg, ranges[id], now) {
    }
  }

  /** A block no verified range covers. */
  predicate Uncovered(v: VTable, h: int) {
    forall id :: id in v ==> h < v[id].lo || v[id].hi < h
  }

  /** This key took the row's block, never beat, and has to leave it to others for a while. */
  predicate KeptFromKey(cfg: Config, r: RangeRow, q: ClaimRequest) {
    && q.pk != NO_KEY && r.assignee == q.pk && r.signed == q.signedAt.Some? && r.status == Claimed && r.lastBeat == None
    && q.at - r.claimedAt < cfg.retakeWait
  }

  /** Nothing keeps block h from this request: no row's claim, no sponsor, and not its own key's lapsed claims. */
  predicate Unreserved(cfg: Config, ranges: RangeTable, w: World, q: ClaimRequest, h: int) {
    && h !in w.sponsorHeld
    && (forall id :: id in ranges && id.lo == h ==> Lapsed(cfg, ranges[id], q.at))
    && (cfg.retakeWait > 0.0 ==> forall id :: id in ranges && id.lo == h ==> !KeptFromKey(cfg, ranges[id], q))
  }

  /** A block this request may be given by the scan. */
  predicate FreeBlock(cfg: Config, ranges: RangeTable, v: VTable, w: World, q: ClaimRequest, h: int) {
    1 <= h < w.ceiling && h in w.servable && Uncovered(v, h) && Unreserved(cfg, ranges, w, q, h)
  }

  lemma UnreservedExactly(cfg: Config, ranges: RangeTable, w: World, q: ClaimRequest, h: int)
    ensures Unreserved(cfg, ranges, w, q, h) <==> !Held(cfg, ranges, w, q, h)
  {
    hide Live;
    FreeOfClaimsExactly(cfg, ranges, q.at, h);
    forall id | id in ranges && cfg.retakeWait > 0.0
      ensures KeptFromKey(cfg, ranges[id], q) <==> q.pk != NO_KEY && NeverBeaten(cfg, ranges[id], q)
    {
    }
  }

  lemma FreeBlockExactly(cfg: Config, ranges: RangeTable, v: VTable, w: World, q: ClaimRequest, h: int)
    ensures FreeBlock(cfg, ranges, v, w, q, h) <==> Available(cfg, ranges, v, w, q, h)
  {
    hide Held, Unreserved;
    UnreservedExactly(cfg, ranges, w, q, h);
    UncoveredExactly(v, h);
  }

  lemma UncoveredExactly(v: VTable, h: int)
    ensures Uncovered(v, h) <==> !CoveredIn(v, h)
  {
  }

  // ---------- what a claim gets ----------

  /** The row is the live claim this very request made before. */
  predicate SameClaim(cfg: Config, r: RangeRow, q: ClaimRequest) {
    && q.nonce.Some? && q.pk != NO_KEY && r.status == Claimed && r.assignee == q.pk && r.nonce == q.nonce
    && q.at - r.claimedAt < cfg.claimMax
    && q.at - (match r.lastBeat case Some(beat) => beat case None => r.claimedAt) < cfg.claimTtl
  }

  /** The key's claims of this kind, signed or unsigned, that have not lapsed. */
  function OwnClaims(cfg: Config, ranges: RangeTable, q: ClaimRequest): set<Span> {
    set id | id in ranges && ranges[id].assignee == q.pk && ranges[id].signed == q.signedAt.Some? && !Lapsed(cfg, ranges[id], q.at)
  }

  predicate TooManyOpen(cfg: Config, ranges: RangeTable, q: ClaimRequest) {
    0 < cfg.claimOpenMax <= |OwnClaims(cfg, ranges, q)| && q.pk != NO_KEY
  }

  /** The block right above the frontier, to be proved again: covered, by rows that all settled before the snapshot. */
  predicate Blocker(cfg: Config, ranges: RangeTable, v: VTable, snap: Snap, w: World, q: ClaimRequest, h: int) {
    && h == snap.frontier.hi + 1 && h < w.ceiling && h in w.servable && !Uncovered(v, h)
    && Unreserved(cfg, ranges, w, q, h)
    && (forall id :: id in v && v[id].lo <= h <= v[id].hi ==> snap.taken - v[id].ts >= cfg.frontierSettle)
  }

  /** Only block h's row has changed, to a fresh claim of this request. */
  predicate Handed(ranges: RangeTable, after: RangeTable, q: ClaimRequest, h: int) {
    && after.Keys == ranges.Keys + {Span(h, h)}
    && (forall id :: id in ranges && id != Span(h, h) ==> after[id] == ranges[id])
    && var r := after[Span(h, h)];
       && r.status == Claimed && r.assignee == q.pk && r.claimedAt == q.at && r.lastBeat == None && r.nonce == q.nonce
       && r.signed == q.signedAt.Some? && r.attempts == 0 && r.envFailures == 0
  }

  /** What a claim is answered, and what it changes. */
  ghost predicate Answers(cfg: Config, ranges: RangeTable, v: VTable, snap: Snap, w: World, q: ClaimRequest,
                          resp: ClaimResponse, after: RangeTable)
  {
    var again := exists id :: id in ranges && SameClaim(cfg, ranges[id], q);
    match resp
    case Again(id) => after == ranges && id in ranges && SameClaim(cfg, ranges[id], q)
    case TooMany => !again && TooManyOpen(cfg, ranges, q) && after == ranges
    case Granted(h) =>
      && !again && !TooManyOpen(cfg, ranges, q) && Handed(ranges, after, q, h)
      && (Blocker(cfg, ranges, v, snap, w, q, h)
          || (FreeBlock(cfg, ranges, v, w, q, h) && forall k :: k < h ==> !FreeBlock(cfg, ranges, v, w, q, k)))
      && (Blocker(cfg, ranges, v, snap, w, q, snap.frontier.hi + 1) ==> h == snap.frontier.hi + 1)
    case Nothing =>
      && !again && !TooManyOpen(cfg, ranges, q) && after == ranges
      && !Blocker(cfg, ranges, v, snap, w, q, snap.frontier.hi + 1) && forall k :: !FreeBlock(cfg, ranges, v, w, q, k)
  }

  lemma SameClaimExactly(cfg: Config, r: RangeRow, q: ClaimRequest)
    ensures SameClaim(cfg, r, q) <==> MadeBy(cfg, r, q)
  {
  }

  lemma OwnClaimsExactly(cfg: Config, ranges: RangeTable, q: ClaimRequest)
    ensures OwnClaims(cfg, ranges, q) == OpenClaims(cfg, ranges, q)
  {
    forall id | id in ranges ensures Lapsed(cfg, ranges[id], q.at) <==> !Live(cfg, ranges[id], q.at) {
    }
  }

  lemma BlockerExactly(cfg: Config, ranges: RangeTable, v: VTable, snap: Snap, w: World, q: ClaimRequest)
    ensures Blocker(cfg, ranges, v, snap, w, q, snap.frontier.hi + 1) <==> Reoffers(cfg, ranges, v, snap, w, q)
  {
    hide Held, Unreserved;
    var h := snap.frontier.hi + 1;
    UnreservedExactly(cfg, ranges, w, q, h);
    UncoveredExactly(v, h);
  }

  /** Every claim: a live claim this request made is repeated; a key at its cap gets none; the frontier's settled blocker
      comes first; otherwise it is the lowest free block, and nothing only when there is none. */
  lemma ClaimIsAnswered(cfg: Config, ranges: RangeTable, v: VTable, snap: Snap, w: World, q: ClaimRequest,
                        resp: ClaimResponse, after: RangeTable)
    requires Claims(cfg, ranges, v, snap, w, q, resp, after)
    ensures Answers(cfg, ranges, v, snap, w, q, resp, after)
  {
    hide Reoffers, Blocker, FreeBlock, Available, SameClaim, MadeBy, OwnClaims, OpenClaims;
    forall id | id in ranges ensures SameClaim(cfg, ranges[id], q) <==> MadeBy(cfg, ranges[id], q) {
      SameClaimExactly(cfg, ranges[id], q);
    }
    OwnClaimsExactly(cfg, ranges, q);
    BlockerExactly(cfg, ranges, v, snap, w, q);
    forall h ensures FreeBlock(cfg, ranges, v, w, q, h) <==> Available(cfg, ranges, v, w, q, h) {
      FreeBlockExactly(cfg, ranges, v, w, q, h);
    }
    AvailableIsPositive(cfg, ranges, v, w, q);
  }

  lemma AvailableIsPositive(cfg: Config, ranges: RangeTable, v: VTable, w: World, q: ClaimRequest)
    ensures forall k :: Available(cfg, ranges, v, w, q, k) ==> 1 <= k
  {
  }

  // ---------- what a suggestion is ----------

  /** A block a worker may be told about. */
  predicate OpenBlock(cfg: Config, ranges: RangeTable, v: VTable, w: World, now: real, h: int) {
    && h < w.ceiling && h in w.servable && h !in w.sponsorHeld && Uncovered(v, h)
    && forall id :: id in ranges && id.lo == h ==> Lapsed(cfg, ranges[id], now)
  }

  /** pick suggests the first open block of the two million above the frontier that no peer has proven, and of those one
      that no peer is proving if there is any; and nothing only when there is none. */
  ghost predicate Suggests(cfg: Config, ranges: RangeTable, v: VTable, w: World, now: real, frontierHi: int,
                           peers: set<int>, busy: set<int>, r: Option<int>)
  {
    var n := if frontierHi < 0 then 1 else frontierHi + 1;
    match r
    case Some(h) =>
      && n <= h < n + 2_000_000 && OpenBlock(cfg, ranges, v, w, now, h) && h !in peers
      && (forall k :: n <= k < h && OpenBlock(cfg, ranges, v, w, now, k) ==> k in peers || (k in busy && h !in busy))
      && (h in busy ==> forall k :: n <= k < n + 2_000_000 && OpenBlock(cfg, ranges, v, w, now, k) ==> k in peers || k in busy)
    case None => forall k :: n <= k < n + 2_000_000 && OpenBlock(cfg, ranges, v, w, now, k) ==> k in peers
  }

  lemma OpenBlockExactly(cfg: Config, ranges: RangeTable, v: VTable, w: World, now: real, avoid: set<int>, h: int)
    ensures Suggestible(cfg, ranges, v, w, now, avoid, h) <==> OpenBlock(cfg, ranges, v, w, now, h) && h !in avoid
  {
    hide Lapsed, HeldByClaim;
    FreeOfClaimsExactly(cfg, ranges, now, h);
    UncoveredExactly(v, h);
  }

  lemma PickSuggests(cfg: Config, ranges: RangeTable, v: VTable, w: World, now: real, frontierHi: int,
                     peers: set<int>, busy: set<int>, r: Option<int>)
    requires Picks(cfg, ranges, v, w, now, frontierHi, peers, busy, r)
    ensures Suggests(cfg, ranges, v, w, now, frontierHi, peers, busy, r)
  {
    hide OpenBlock, Suggestible;
    forall h ensures Suggestible(cfg, ranges, v, w, now, peers, h) <==> OpenBlock(cfg, ranges, v, w, now, h) && h !in peers {
      OpenBlockExactly(cfg, ranges, v, w, now, peers, h);
    }
    forall h ensures Suggestible(cfg, ranges, v, w, now, peers + busy, h)
                <==> OpenBlock(cfg, ranges, v, w, now, h) && h !in peers && h !in busy
    {
      OpenBlockExactly(cfg, ranges, v, w, now, peers + busy, h);
    }
  }

  // ---------- what a beat buys ----------

  /** A beat moves only the row of a claim of that key no older than CLAIM_MAX, and then the claim lapses exactly
      CLAIM_TTL after the beat, or at CLAIM_MAX, whichever comes first. */
  lemma BeatBuysTime(cfg: Config, ranges: RangeTable, id: Span, pk: Key, at: real)
    ensures var after := Beaten(cfg, ranges, id, pk, at);
            && after.Keys == ranges.Keys && (forall other :: other in ranges && other != id ==> after[other] == ranges[other])
            && if id in ranges && ranges[id].status == Claimed && ranges[id].assignee == pk
                  && at - ranges[id].claimedAt <= cfg.claimMax
               then && after[id] == ranges[id].(lastBeat := Some(at))
                    && forall now :: Lapsed(cfg, after[id], now) <==>
                         now - at >= cfg.claimTtl || now - ranges[id].claimedAt >= cfg.claimMax
               else after == ranges
  {
  }

  // ---------- when a block is parked ----------

  /** A row after these failed submissions. */
  function AfterFaults(r: RangeRow, faults: seq<Verdict>): RangeRow {
    if faults == [] then r else Faulted(AfterFaults(r, faults[..|faults|-1]), faults[|faults|-1])
  }

  function CountOf(faults: seq<Verdict>, fault: Verdict): nat {
    if faults == [] then 0
    else CountOf(faults[..|faults|-1], fault) + (if faults[|faults|-1] == fault then 1 else 0)
  }

  /** Failures of the environment are counted and never park a block; a block is parked by its third failure of its
      own, and stays its claimant's until then; a verified block is never parked. */
  lemma {:induction false} ThirdFaultParks(r: RangeRow, faults: seq<Verdict>)
    requires r.attempts < 3
    requires forall i :: 0 <= i < |faults| ==> !faults[i].Accepted?
    ensures var after := AfterFaults(r, faults);
            && after.attempts == r.attempts + CountOf(faults, BlockFault)
            && after.envFailures == r.envFailures + CountOf(faults, EnvFault)
            && after.status == (if r.status != Verified && r.attempts + CountOf(faults, BlockFault) >= 3 then Failed else r.status)
            && after == r.(attempts := after.attempts, envFailures := after.envFailures, status := after.status)
  {
    if faults != [] {
      ThirdFaultParks(r, faults[..|faults|-1]);
    }
  }
}
