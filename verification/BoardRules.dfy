/** The board's tables, and what each locked section of the coordinator does to them. Every rule is a
    relation between the tables before and after; the class Board implements them. */
module BoardRules {
  import opened Ranges
  import opened Frontier

  /** The timing settings, in seconds (each is an environment variable of the coordinator). */
  datatype Config = Config(claimTtl: real, claimMax: real, claimGrace: real, claimOpenMax: int,
                           retakeWait: real, beatSkew: real, frontierSettle: real)

  const MAX_ATTEMPTS := 3

  datatype Status = Open | Claimed | Verified | Failed

  /** One row of `ranges`; its id is a Span. */
  datatype RangeRow = RangeRow(status: Status, assignee: Key, claimedAt: real, lastBeat: Option<real>,
                               nonce: Option<nat>, signed: bool, attempts: nat, envFailures: nat)

  const OPEN_ROW := RangeRow(Open, NO_KEY, 0.0, None, None, false, 0, 0)

  type RangeTable = map<Span, RangeRow>
  type VTable = map<Span, VRow>

  /** A frontier walk: when its read of `vranges` began, the rows it read, and what it found. */
  datatype Snap = Snap(taken: real, rows: seq<VRow>, frontier: End)

  /** What a request sees of the world outside the tables: the bridge's reach, the witnesses it can serve,
      and the blocks held for sponsors (paid, or on an open invoice). */
  datatype World = World(ceiling: int, servable: set<int>, sponsorHeld: set<int>)

  /** A claim that got past the signature checks. `at` is its reading of the clock, taken before the lock; a signed
      claim's time was tested against an earlier one, `checkedAt`, and its signature verified in between. */
  datatype ClaimRequest = ClaimRequest(pk: Key, nonce: Option<nat>, signedAt: Option<real>, checkedAt: real, at: real)
  {
    predicate Signed() {
      signedAt.Some?
    }
  }

  datatype ClaimResponse = Again(id: Span) | TooMany | Nothing | Granted(height: int)

  // ---------- claims: liveness and holds ----------

  function LastSign(r: RangeRow): real {
    if r.lastBeat.Some? then r.lastBeat.value else r.claimedAt
  }

  /** LIVE_CLAIM_SQL */
  predicate Live(cfg: Config, r: RangeRow, now: real) {
    && r.status == Claimed
    && LastSign(r) > now - cfg.claimTtl
    && r.claimedAt > now - cfg.claimMax
    && (r.lastBeat.Some? || r.claimedAt > now - cfg.claimGrace)
  }

  predicate HeldByClaim(cfg: Config, ranges: RangeTable, now: real, h: int) {
    exists id :: id in ranges && id.lo == h && Live(cfg, ranges[id], now)
  }

  predicate CoveredIn(v: VTable, h: int) {
    exists id :: id in v && v[id].Covers(h)
  }

  /** CLAIM_RETAKE_WAIT: a never-beaten claim of this key that lapsed recently. */
  predicate HeldForKey(cfg: Config, ranges: RangeTable, q: ClaimRequest, h: int) {
    && q.pk != NO_KEY && cfg.retakeWait > 0.0
    && exists id :: id in ranges && id.lo == h && NeverBeaten(cfg, ranges[id], q)
  }

  predicate NeverBeaten(cfg: Config, r: RangeRow, q: ClaimRequest) {
    r.assignee == q.pk && r.signed == q.Signed() && r.status == Claimed && r.lastBeat.None?
    && r.claimedAt > q.at - cfg.retakeWait
  }

  predicate Held(cfg: Config, ranges: RangeTable, w: World, q: ClaimRequest, h: int) {
    HeldByClaim(cfg, ranges, q.at, h) || h in w.sponsorHeld || HeldForKey(cfg, ranges, q, h)
  }

  function OpenClaims(cfg: Config, ranges: RangeTable, q: ClaimRequest): set<Span> {
    set id | id in ranges && ranges[id].assignee == q.pk && ranges[id].signed == q.Signed()
             && Live(cfg, ranges[id], q.at)
  }

  // ---------- claim ----------

  /** `_claim_by_nonce`: this row is the claim the same request already made. */
  predicate MadeBy(cfg: Config, r: RangeRow, q: ClaimRequest) {
    && q.nonce.Some? && q.pk != NO_KEY
    && r.status == Claimed && r.assignee == q.pk && r.nonce == q.nonce
    && LastSign(r) > q.at - cfg.claimTtl && r.claimedAt > q.at - cfg.claimMax
  }

  predicate AlreadyMade(cfg: Config, ranges: RangeTable, q: ClaimRequest) {
    exists id :: id in ranges && MadeBy(cfg, ranges[id], q)
  }

  predicate AtCap(cfg: Config, ranges: RangeTable, q: ClaimRequest) {
    cfg.claimOpenMax > 0 && q.pk != NO_KEY && |OpenClaims(cfg, ranges, q)| >= cfg.claimOpenMax
  }

  /** `_cover_settled`: no cover of h was recorded after the snapshot, allowing for the settling time. */
  predicate CoverSettled(cfg: Config, v: VTable, h: int, taken: real) {
    forall id :: id in v && v[id].Covers(h) ==> v[id].ts <= taken - cfg.frontierSettle
  }

  /** #281/#339: the frontier's next block is covered, free, and its covers are settled, so hand it out again. */
  predicate Reoffers(cfg: Config, ranges: RangeTable, v: VTable, snap: Snap, w: World, q: ClaimRequest) {
    var b := snap.frontier.hi + 1;
    && b < w.ceiling && CoveredIn(v, b) && !Held(cfg, ranges, w, q, b) && b in w.servable
    && CoverSettled(cfg, v, b, snap.taken)
  }

  predicate Available(cfg: Config, ranges: RangeTable, v: VTable, w: World, q: ClaimRequest, h: int) {
    1 <= h < w.ceiling && !CoveredIn(v, h) && !Held(cfg, ranges, w, q, h) && h in w.servable
  }

  ghost predicate FirstAvailable(cfg: Config, ranges: RangeTable, v: VTable, w: World, q: ClaimRequest, h: int) {
    && Available(cfg, ranges, v, w, q, h)
    && forall k :: 1 <= k < h ==> !Available(cfg, ranges, v, w, q, k)
  }

  function ClaimRow(q: ClaimRequest): RangeRow {
    RangeRow(Claimed, q.pk, q.at, None, q.nonce, q.Signed(), 0, 0)
  }

  /** The locked section of `claim`. */
  ghost predicate Claims(cfg: Config, ranges: RangeTable, v: VTable, snap: Snap, w: World, q: ClaimRequest,
                         resp: ClaimResponse, after: RangeTable)
  {
    if AlreadyMade(cfg, ranges, q) then
      after == ranges && resp.Again? && resp.id in ranges && MadeBy(cfg, ranges[resp.id], q)
    else if AtCap(cfg, ranges, q) then
      after == ranges && resp == TooMany
    else if Reoffers(cfg, ranges, v, snap, w, q) then
      var b := snap.frontier.hi + 1;
      resp == Granted(b) && after == ranges[Span(b, b) := ClaimRow(q)]
    else match resp
      case Granted(h) => FirstAvailable(cfg, ranges, v, w, q, h) && after == ranges[Span(h, h) := ClaimRow(q)]
      case Nothing => after == ranges && forall h :: !Available(cfg, ranges, v, w, q, h)
      case _ => false
  }

  // ---------- pick ----------

  const PICK_WINDOW := 2_000_000

  /** A block pick may suggest: open, unheld, not done by a peer, servable. */
  predicate Suggestible(cfg: Config, ranges: RangeTable, v: VTable, w: World, now: real, avoid: set<int>, h: int) {
    && h < w.ceiling && !CoveredIn(v, h) && !HeldByClaim(cfg, ranges, now, h) && h !in w.sponsorHeld
    && h !in avoid && h in w.servable
  }

  /** One pass of pick from block n: the first suggestible block of the window. */
  ghost predicate PickPass(cfg: Config, ranges: RangeTable, v: VTable, w: World, now: real, avoid: set<int>, n: int,
                           r: Option<int>)
  {
    match r
    case Some(h) => && n <= h < n + PICK_WINDOW && Suggestible(cfg, ranges, v, w, now, avoid, h)
                    && (forall k :: n <= k < h ==> !Suggestible(cfg, ranges, v, w, now, avoid, k))
    case None => forall k :: n <= k < n + PICK_WINDOW ==> !Suggestible(cfg, ranges, v, w, now, avoid, k)
  }

  function PickStart(frontierHi: int): int {
    if frontierHi + 1 > 1 then frontierHi + 1 else 1
  }

  /** `pick`: first avoiding what peers have proven and are proving, then only what they have proven. */
  ghost predicate Picks(cfg: Config, ranges: RangeTable, v: VTable, w: World, now: real, frontierHi: int,
                        peers: set<int>, busy: set<int>, r: Option<int>)
  {
    var n := PickStart(frontierHi);
    if r.Some? && PickPass(cfg, ranges, v, w, now, peers + busy, n, r) then true
    else PickPass(cfg, ranges, v, w, now, peers + busy, n, None) && PickPass(cfg, ranges, v, w, now, peers, n, r)
  }

  // ---------- beat ----------

  predicate MayBeat(cfg: Config, ranges: RangeTable, id: Span, pk: Key, at: real) {
    && id in ranges && ranges[id].status == Claimed && ranges[id].assignee == pk
    && ranges[id].claimedAt >= at - cfg.claimMax
  }

  function Beaten(cfg: Config, ranges: RangeTable, id: Span, pk: Key, at: real): RangeTable {
    if MayBeat(cfg, ranges, id, pk, at) then ranges[id := ranges[id].(lastBeat := Some(at))] else ranges
  }

  // ---------- submit ----------

  /** Every height of the span is covered by a verified range inside it. */
  predicate TiledIn(v: VTable, s: Span) {
    forall h :: s.lo <= h <= s.hi ==> TiledAtIn(v, s, h)
  }

  predicate TiledAtIn(v: VTable, s: Span, h: int) {
    exists id :: id in v && s.lo <= v[id].lo && v[id].hi <= s.hi && v[id].Covers(h)
  }

  /** What submit demands of a range before anything else: not block 0, and a wide range must be a fold. */
  predicate PassesGate(v: VTable, s: Span) {
    1 <= s.lo <= s.hi && (s.hi > s.lo ==> TiledIn(v, s))
  }

  /** The outcome of the checks made outside the lock. */
  datatype Verdict = Accepted(row: VRow) | BlockFault | EnvFault

  /** An accepted receipt proves exactly the submitted range. */
  predicate Proves(verdict: Verdict, s: Span) {
    verdict.Accepted? ==> verdict.row.lo == s.lo && verdict.row.hi == s.hi
  }

  /** `record_submission_failure`: only a failure that implicates the block can park it. */
  function Faulted(r: RangeRow, verdict: Verdict): RangeRow {
    match verdict
    case EnvFault => r.(envFailures := r.envFailures + 1)
    case BlockFault =>
      var counted := r.(attempts := r.attempts + 1);
      if counted.attempts >= MAX_ATTEMPTS && r.status != Verified then counted.(status := Failed) else counted
    case Accepted(_) => r
  }
}
