/** Key rotation: an append-only graph of old -> new edges, resolved to its head at read time. */
module Rotation {
  import opened Ranges

  const ROTATE_MAX_DEPTH: nat := 32

  type Edges = map<Key, Key>

  // ---------- chains of rotations ----------

  /** The key n edges on from k, or None when the chain ends before that. */
  function Follow(edges: Edges, k: Key, n: nat): Option<Key>
    decreases n
  {
    if n == 0 then Some(k)
    else if k in edges then Follow(edges, edges[k], n - 1)
    else None
  }

  /** h is the head of k's chain, n edges on. */
  ghost predicate HeadAt(edges: Edges, k: Key, n: nat, h: Key) {
    Follow(edges, k, n) == Some(h) && h !in edges
  }

  ghost predicate Ends(edges: Edges, k: Key) {
    exists n: nat, h :: HeadAt(edges, k, n, h)
  }

  ghost predicate Acyclic(edges: Edges) {
    forall k :: Ends(edges, k)
  }

  /** No chain has more than ROTATE_MAX_DEPTH edges. */
  ghost predicate Shallow(edges: Edges) {
    forall k, n: nat, h :: HeadAt(edges, k, n, h) ==> n <= ROTATE_MAX_DEPTH
  }

  lemma {:induction false} FollowAdd(edges: Edges, k: Key, a: nat, b: nat)
    requires Follow(edges, k, a).Some?
    ensures Follow(edges, k, a + b) == Follow(edges, Follow(edges, k, a).value, b)
    decreases a
  {
    if a > 0 {
      FollowAdd(edges, edges[k], a - 1, b);
    }
  }

  lemma {:induction false} HeadUnique(edges: Edges, k: Key, n: nat, h: Key, n': nat, h': Key)
    requires HeadAt(edges, k, n, h) && HeadAt(edges, k, n', h')
    ensures n == n' && h == h'
  {
    if n < n' {
      FollowAdd(edges, k, n, n' - n);
    } else if n' < n {
      FollowAdd(edges, k, n', n - n');
    }
  }

  /** A chain with a head never comes back to where it started. */
  lemma {:induction false} NoReturn(edges: Edges, k: Key, n: nat, h: Key, i: nat)
    requires HeadAt(edges, k, n, h) && 1 <= i <= n
    ensures Follow(edges, k, i) != Some(k)
  {
    if Follow(edges, k, i) == Some(k) {
      FollowAdd(edges, k, i, n - i);
      HeadUnique(edges, k, n, h, n - i, h);
    }
  }

  // ---------- resolve_pubkey ----------

  /** The bounded walk, from cur with `left` steps to go, that also stops at a key already seen. */
  function ResolveFrom(edges: Edges, cur: Key, seen: set<Key>, left: nat): Key
    decreases left
  {
    if left == 0 || cur !in edges || edges[cur] in seen then cur
    else ResolveFrom(edges, edges[cur], seen + {edges[cur]}, left - 1)
  }

  function Resolve(edges: Edges, k: Key): Key {
    ResolveFrom(edges, k, {k}, ROTATE_MAX_DEPTH)
  }

  method ResolvePubkey(edges: Edges, pk: Key) returns (cur: Key)
    ensures cur == Resolve(edges, pk)
  {
    cur := pk;
    var seen := {cur};
    for i := 0 to ROTATE_MAX_DEPTH
      invariant ResolveFrom(edges, cur, seen, ROTATE_MAX_DEPTH - i) == Resolve(edges, pk)
    {
      if cur !in edges || edges[cur] in seen {
        return;
      }
      cur := edges[cur];
      seen := seen + {cur};
    }
  }

  /** Where the chain has a head, the walk goes to it, or stops after `left` edges if it is farther. */
  lemma {:induction false} ResolveFollows(edges: Edges, cur: Key, seen: set<Key>, left: nat, n: nat, h: Key)
    requires HeadAt(edges, cur, n, h)
    requires forall i :: 1 <= i <= n ==> Follow(edges, cur, i).Some? && Follow(edges, cur, i).value !in seen
    ensures Follow(edges, cur, if n <= left then n else left) == Some(ResolveFrom(edges, cur, seen, left))
    decreases left
  {
    if left > 0 && n > 0 {
      var next := edges[cur];
      assert Follow(edges, cur, 1) == Some(next);
      forall i | 1 <= i <= n - 1
        ensures Follow(edges, next, i).Some? && Follow(edges, next, i).value !in seen + {next}
      {
        assert Follow(edges, cur, i + 1) == Follow(edges, next, i);
        NoReturn(edges, next, n - 1, h, i);
      }
      ResolveFollows(edges, next, seen + {next}, left - 1, n - 1, h);
    }
  }

  lemma {:induction false} FollowSome(edges: Edges, k: Key, n: nat, i: nat)
    requires Follow(edges, k, n).Some? && i <= n
    ensures Follow(edges, k, i).Some?
    decreases i
  {
    if i > 0 {
      FollowSome(edges, edges[k], n - 1, i - 1);
    }
  }

  lemma {:induction false} ResolveOnChain(edges: Edges, k: Key, n: nat, h: Key)
    requires HeadAt(edges, k, n, h)
    ensures Follow(edges, k, if n <= ROTATE_MAX_DEPTH then n else ROTATE_MAX_DEPTH) == Some(Resolve(edges, k))
    ensures Resolve(edges, k) == h <==> n <= 32
  {
    forall i | 1 <= i <= n
      ensures Follow(edges, k, i).Some? && Follow(edges, k, i).value !in {k}
    {
      FollowSome(edges, k, n, i);
      NoReturn(edges, k, n, h, i);
    }
    ResolveFollows(edges, k, {k}, ROTATE_MAX_DEPTH, n, h);
    if n > ROTATE_MAX_DEPTH && Resolve(edges, k) == h {
      HeadUnique(edges, k, n, h, ROTATE_MAX_DEPTH, h);
    }
  }

  /** While no chain is too deep, resolving gives the unique head, and resolving again changes nothing. */
  lemma {:induction false} ResolveGivesHead(edges: Edges, k: Key)
    requires Acyclic(edges) && Shallow(edges)
    ensures exists n: nat :: HeadAt(edges, k, n, Resolve(edges, k))
    ensures forall n: nat, h :: HeadAt(edges, k, n, h) ==> h == Resolve(edges, k)
    ensures Resolve(edges, Resolve(edges, k)) == Resolve(edges, k)
  {
    assert Ends(edges, k);
    var n: nat, h :| HeadAt(edges, k, n, h);
    ResolveOnChain(edges, k, n, h);
    forall n': nat, h' | HeadAt(edges, k, n', h') ensures h' == Resolve(edges, k) {
      HeadUnique(edges, k, n, h, n', h');
    }
  }

  // ---------- rotate ----------

  /** A rotation request, with the verdict of everything checked before the graph is looked at: the switch,
      the two signatures, the timestamp window, the moderation list and the handle. */
  datatype Request = Request(oldKey: Key, newKey: Key, authorised: bool)

  function Rotate(edges: Edges, q: Request): Option<Edges> {
    if !q.authorised || q.oldKey == NO_KEY || q.newKey == NO_KEY || q.oldKey == q.newKey then None
    else if q.oldKey in edges then None
    else if Resolve(edges, q.newKey) == q.oldKey then None
    else Some(edges[q.oldKey := q.newKey])
  }

  /** A set of keys that every edge keeps inside has no head. */
  lemma {:induction false} ClosedHasNoHead(edges: Edges, keys: set<Key>, k: Key, n: nat)
    requires k in keys && forall x :: x in keys ==> x in edges && edges[x] in keys
    ensures Follow(edges, k, n).Some? && Follow(edges, k, n).value in keys
    decreases n
  {
    if n > 0 {
      ClosedHasNoHead(edges, keys, edges[k], n - 1);
    }
  }

  /** The keys on k's chain up to and including edge n. */
  ghost function OnChain(edges: Edges, k: Key, n: nat): (s: set<Key>)
    requires Follow(edges, k, n).Some?
    ensures k in s && Follow(edges, k, n).value in s
    ensures forall x :: x in s && x != Follow(edges, k, n).value ==> x in edges && edges[x] in s
    decreases n
  {
    if n == 0 then {k} else {k} + OnChain(edges, edges[k], n - 1)
  }

  /** An edge added at a head that k's chain does not end at leaves the chain alone. */
  lemma {:induction false} ChainUnchanged(edges: Edges, q: Request, k: Key, n: nat, h: Key)
    requires q.oldKey !in edges && HeadAt(edges, k, n, h) && h != q.oldKey
    ensures HeadAt(edges[q.oldKey := q.newKey], k, n, h)
    decreases n
  {
    if n > 0 {
      ChainUnchanged(edges, q, edges[k], n - 1, h);
    }
  }

  lemma {:induction false} ChainExtended(edges: Edges, q: Request, k: Key, n: nat, m: nat, h: Key)
    requires q.oldKey !in edges && HeadAt(edges, k, n, q.oldKey) && HeadAt(edges, q.newKey, m, h) && h != q.oldKey
    ensures HeadAt(edges[q.oldKey := q.newKey], k, n + 1 + m, h)
    decreases n
  {
    if n == 0 {
      ChainUnchanged(edges, q, q.newKey, m, h);
    } else {
      ChainExtended(edges, q, edges[k], n - 1, m, h);
    }
  }

  /** The new key already leads to the old one, by a chain longer than the walk follows. */
  ghost predicate LeadsBackTooDeep(edges: Edges, q: Request) {
    exists n: nat :: n > ROTATE_MAX_DEPTH && Follow(edges, q.newKey, n) == Some(q.oldKey)
  }

  lemma AcceptedMeans(edges: Edges, q: Request)
    requires Rotate(edges, q).Some?
    ensures q.oldKey !in edges && Resolve(edges, q.newKey) != q.oldKey
    ensures Rotate(edges, q).value == edges[q.oldKey := q.newKey]
  {
  }

  /** If the new key's chain ends elsewhere, every chain still ends. */
  lemma OtherHeadStaysAcyclic(edges: Edges, q: Request, m: nat, h: Key)
    requires Acyclic(edges) && q.oldKey !in edges && HeadAt(edges, q.newKey, m, h) && h != q.oldKey
    ensures Acyclic(edges[q.oldKey := q.newKey])
  {
    hide Follow;
    var after := edges[q.oldKey := q.newKey];
    forall k ensures Ends(after, k) {
      assert Ends(edges, k);
      var n: nat, g :| HeadAt(edges, k, n, g);
      if g == q.oldKey {
        ChainExtended(edges, q, k, n, m, h);
      } else {
        ChainUnchanged(edges, q, k, n, g);
      }
    }
  }

  /** If it ends at the old key, the new edge closes a loop. */
  lemma SameHeadClosesLoop(edges: Edges, q: Request, m: nat)
    requires q.oldKey !in edges && HeadAt(edges, q.newKey, m, q.oldKey)
    ensures !Acyclic(edges[q.oldKey := q.newKey])
  {
    hide Follow;
    var after := edges[q.oldKey := q.newKey];
    var loop := OnChain(edges, q.newKey, m);
    forall n: nat, g ensures !HeadAt(after, q.newKey, n, g) {
      ClosedHasNoHead(after, loop, q.newKey, n);
    }
    assert !Ends(after, q.newKey);
  }

  /** Exactly when an accepted rotation closes a loop. */
  lemma {:induction false} CycleIffTooDeep(edges: Edges, q: Request)
    requires Acyclic(edges) && Rotate(edges, q).Some?
    ensures !Acyclic(Rotate(edges, q).value) <==> LeadsBackTooDeep(edges, q)
  {
    AcceptedMeans(edges, q);
    hide Follow, Rotate, Resolve;
    assert Ends(edges, q.newKey);
    var m: nat, h :| HeadAt(edges, q.newKey, m, h);
    ResolveOnChain(edges, q.newKey, m, h);
    if h == q.oldKey {
      SameHeadClosesLoop(edges, q, m);
    } else {
      OtherHeadStaysAcyclic(edges, q, m, h);
      forall n: nat ensures Follow(edges, q.newKey, n) != Some(q.oldKey) {
        OtherHeadNotReached(edges, q.newKey, m, h, n, q.oldKey);
      }
    }
  }

  lemma OtherHeadNotReached(edges: Edges, k: Key, m: nat, h: Key, n: nat, g: Key)
    requires HeadAt(edges, k, m, h) && g !in edges && g != h
    ensures Follow(edges, k, n) != Some(g)
  {
    if Follow(edges, k, n) == Some(g) {
      HeadUnique(edges, k, m, h, n, g);
    }
  }

  /** While no chain is too deep: a rotation is accepted exactly when it is authorised, names two different keys, the old
      key has not rotated before, and the new key's head is not the old key; and then just that edge is added. */
  lemma {:induction false} AcceptedExactly(edges: Edges, q: Request, n: nat, h: Key)
    requires Acyclic(edges) && Shallow(edges) && HeadAt(edges, q.newKey, n, h)
    ensures Rotate(edges, q).Some? <==>
              q.authorised && q.oldKey != NO_KEY && q.newKey != NO_KEY && q.oldKey != q.newKey && q.oldKey !in edges && h != q.oldKey
    ensures Rotate(edges, q).Some? ==>
              var after := Rotate(edges, q).value;
              after.Keys == edges.Keys + {q.oldKey} && after[q.oldKey] == q.newKey && forall k :: k in edges ==> after[k] == edges[k]
  {
    hide Resolve;
    ResolveGivesHead(edges, q.newKey);
  }

  ghost predicate Run(states: seq<Edges>, requests: seq<Request>) {
    && |states| == |requests| + 1 && states[0] == map[]
    && forall i :: 0 <= i < |requests| ==>
      states[i+1] == (if Rotate(states[i], requests[i]).Some? then Rotate(states[i], requests[i]).value else states[i])
  }

  /** In every run whose chains never get too deep before a rotation, the graph stays acyclic. */
  lemma {:induction false} RotationsStayAcyclic(states: seq<Edges>, requests: seq<Request>, i: nat)
    requires Run(states, requests) && i < |states|
    requires forall j :: 0 <= j < i ==> Shallow(states[j])
    ensures Acyclic(states[i])
  {
    if i == 0 {
      forall k ensures Ends(states[0], k) {
        assert HeadAt(states[0], k, 0, k);
      }
    } else {
      RotationsStayAcyclic(states, requests, i - 1);
      var before, q := states[i-1], requests[i-1];
      if Rotate(before, q).Some? {
        CycleIffTooDeep(before, q);
        AcceptedMeans(before, q);
        forall n: nat | Follow(before, q.newKey, n) == Some(q.oldKey) ensures n <= ROTATE_MAX_DEPTH {
          assert HeadAt(before, q.newKey, n, q.oldKey);
        }
      }
    }
  }

  /** Any chain of more than 32 edges is enough: rotating its head back to its start is accepted, and closes
      a loop. */
  lemma {:induction false} DeepChainAcceptsCycle(edges: Edges, k: Key, n: nat, h: Key)
    requires Acyclic(edges) && HeadAt(edges, k, n, h) && n > ROTATE_MAX_DEPTH && k != NO_KEY && h != NO_KEY
    ensures var q := Request(h, k, true);
            Rotate(edges, q).Some? && !Acyclic(Rotate(edges, q).value)
  {
    hide Resolve;
    NoReturn(edges, k, n, h, n);
    ResolveOnChain(edges, k, n, h);
    assert Follow(edges, k, n) == Some(h);
    CycleIffTooDeep(edges, Request(h, k, true));
  }

  /** Such chains exist, of every length. */
  lemma {:induction false} StaircaseAcceptsCycle(d: nat)
    requires d > ROTATE_MAX_DEPTH
    ensures var edges, q := Staircase(d), Request(d + 1, 1, true);
            Acyclic(edges) && Rotate(edges, q).Some? && !Acyclic(Rotate(edges, q).value)
  {
    hide Follow, Resolve;
    StaircaseAcyclic(d);
    StaircaseFollow(d, 1, d);
    DeepChainAcceptsCycle(Staircase(d), 1, d, d + 1);
  }

  /** The graphs of the run that rotates 1 to 2, then 2 to 3, and so on up to d+1, and last d+1 back to 1. */
  function StaircaseStates(d: nat): (states: seq<Edges>)
    ensures |states| == d + 2 && states[d+1] == Staircase(d)[d + 1 := 1]
    ensures forall i :: 0 <= i <= d ==> states[i] == Staircase(i)
  {
    seq(d + 1, i requires 0 <= i <= d => Staircase(i)) + [Staircase(d)[d + 1 := 1]]
  }

  function StaircaseRequests(d: nat): (requests: seq<Request>)
    ensures |requests| == d + 1 && requests[d] == Request(d + 1, 1, true)
    ensures forall i :: 0 <= i < d ==> requests[i] == Request(i + 1, i + 2, true)
  {
    seq(d, i requires 0 <= i < d => Request(i + 1, i + 2, true)) + [Request(d + 1, 1, true)]
  }

  /** Each step up is accepted: its new key has not rotated yet, so it resolves to itself. */
  lemma StepUpIsAccepted(i: nat)
    ensures Rotate(Staircase(i), Request(i + 1, i + 2, true)) == Some(Staircase(i + 1))
  {
    assert i + 2 !in Staircase(i);
    assert Resolve(Staircase(i), i + 2) == i + 2;
    assert Staircase(i)[i + 1 := i + 2] == Staircase(i + 1);
  }

  /** For every length over 32 edges: a run of accepted rotations, from an empty graph, that ends in a loop. */
  lemma {:induction false} RunEndsInALoop(d: nat)
    requires d > ROTATE_MAX_DEPTH
    ensures Run(StaircaseStates(d), StaircaseRequests(d)) && !Acyclic(StaircaseStates(d)[d+1])
    ensures forall i :: 0 <= i <= d ==> Rotate(StaircaseStates(d)[i], StaircaseRequests(d)[i]).Some?
  {
    hide Staircase, Acyclic, Rotate;
    assert Staircase(0) == map[];
    StaircaseAcceptsCycle(d);
    RotatedIs(Staircase(d), Request(d + 1, 1, true));
    var states, requests := StaircaseStates(d), StaircaseRequests(d);
    forall i | 0 <= i <= d ensures Rotate(states[i], requests[i]).Some? && Rotate(states[i], requests[i]).value == states[i+1] {
      if i < d {
        StepUpIsAccepted(i);
      } else {
        assert states[d] == Staircase(d) && requests[d] == Request(d + 1, 1, true);
      }
    }
  }

  lemma RotatedIs(edges: Edges, q: Request)
    requires Rotate(edges, q).Some?
    ensures Rotate(edges, q).value == edges[q.oldKey := q.newKey]
  {
  }

  lemma StaircaseAcyclic(d: nat)
    ensures Acyclic(Staircase(d))
  {
    var edges := Staircase(d);
    forall k: Key ensures Ends(edges, k) {
      if 1 <= k <= d {
        StaircaseFollow(d, k, d + 1 - k);
        assert HeadAt(edges, k, d + 1 - k, d + 1);
      } else {
        assert HeadAt(edges, k, 0, k);
      }
    }
  }

  /** The chain 1 -> 2 -> ... -> n+1. */
  function Staircase(n: nat): (edges: Edges)
    ensures forall k :: k in edges <==> 1 <= k <= n
    ensures forall k :: k in edges ==> edges[k] == k + 1
  {
    if n == 0 then map[] else Staircase(n - 1)[n := n + 1]
  }

  lemma {:induction false} StaircaseFollow(d: nat, k: Key, n: nat)
    requires 1 <= k && k + n <= d + 1
    ensures Follow(Staircase(d), k, n) == Some(k + n)
    decreases n
  {
    if n > 0 {
      StaircaseFollow(d, k + 1, n - 1);
    }
  }
}
