/** The bounded breadth-first walk over the causes, contexts and reasons of an exception, on graphs that may be
    cyclic or unbounded. */
module ExceptionWalk {
  import opened Text

  /** The identity of an exception object. */
  type Id = nat

  /** An attribute read without running user code; `Missing` also stands for a read that raises. */
  datatype Attribute = Missing | Integer(n: int) | Message(text: string) | Exception(id: Id) | Other

  datatype Base =
    | ModelDownloadError | HTTPError | URLError | SSLCertVerificationError | SSLError | GaiError | TimeoutError
    | ConnectionError | ImportError | OSError | PermissionError

  /** An exception object: its class name, the known classes it is an instance of, its links and attributes. */
  datatype Exception = Raised(
    name: string,
    bases: set<Base>,
    cause: Option<Id>,
    context: Option<Id>,
    reason: Attribute,
    errno: Attribute,
    code: Attribute,
    status: Attribute)

  type Heap = Id -> Exception

  const MAX_EXCEPTION_CHAIN_DEPTH: nat := 8

  function Linked(link: Option<Id>): seq<Id> {
    if link.Some? then [link.value] else []
  }

  /** The exceptions an exception refers to, in the order they are queued. */
  function Links(h: Heap, id: Id): seq<Id> {
    var e := h(id);
    Linked(e.cause) + Linked(e.context) +
    if URLError in e.bases && e.reason.Exception? then [e.reason.id] else []
  }

  // ----- the walk -----

  function WalkFrom(h: Heap, pending: seq<Id>, seen: set<Id>, ordered: seq<Id>): seq<Id>
    decreases MAX_EXCEPTION_CHAIN_DEPTH - |ordered|, |pending|
  {
    if pending == [] || |ordered| >= MAX_EXCEPTION_CHAIN_DEPTH then ordered
    else if pending[0] in seen then WalkFrom(h, pending[1..], seen, ordered)
    else WalkFrom(h, pending[1..] + Links(h, pending[0]), seen + {pending[0]}, ordered + [pending[0]])
  }

  function Walk(h: Heap, root: Id): seq<Id> {
    WalkFrom(h, [root], {}, [])
  }

  /** The walk as the worker runs it, over a queue, a set of identities and a result list. */
  method WalkExceptionChain(h: Heap, root: Id) returns (ordered: seq<Id>)
    ensures ordered == Walk(h, root)
  {
    var pending, seen: set<Id> := [root], {};
    ordered := [];
    while pending != [] && |ordered| < MAX_EXCEPTION_CHAIN_DEPTH
      invariant WalkFrom(h, pending, seen, ordered) == Walk(h, root)
      decreases MAX_EXCEPTION_CHAIN_DEPTH - |ordered|, |pending|
    {
      var candidate := pending[0];
      pending := pending[1..];
      if candidate in seen {
        continue;
      }
      seen := seen + {candidate};
      ordered := ordered + [candidate];
      pending := pending + Links(h, candidate);
    }
  }

  // ----- what the walk is for -----

  /** One exception refers to the other: as its cause, as its context, or, a URL error, as its reason. */
  ghost predicate IsLink(h: Heap, from: Id, to: Id) {
    || (h(from).cause.Some? && h(from).cause.value == to)
    || (h(from).context.Some? && h(from).context.value == to)
    || (URLError in h(from).bases && h(from).reason.Exception? && h(from).reason.id == to)
  }

  lemma LinksAreQueued(h: Heap, from: Id, to: Id)
    ensures to in Links(h, from) <==> IsLink(h, from, to)
  {
  }

  /** Some chain of at most k links leads from the root to the node. */
  ghost predicate Within(h: Heap, root: Id, k: nat, node: Id)
    decreases k, 0
  {
    if k == 0 then node == root
    else Within(h, root, k - 1, node) || OneLinkFrom(h, root, k - 1, node)
  }

  ghost predicate OneLinkFrom(h: Heap, root: Id, k: nat, node: Id)
    decreases k, 1
  {
    exists m :: Within(h, root, k, m) && IsLink(h, m, node)
  }

  ghost predicate Reachable(h: Heap, root: Id, node: Id) {
    exists k: nat :: Within(h, root, k, node)
  }

  lemma {:induction false} WithinGrows(h: Heap, root: Id, j: nat, k: nat, node: Id)
    requires j <= k && Within(h, root, j, node)
    ensures Within(h, root, k, node)
  {
    if j < k {
      WithinGrows(h, root, j, k - 1, node);
    }
  }

  /** The node is at link distance exactly d. */
  ghost predicate AtDistance(h: Heap, root: Id, d: nat, node: Id) {
    Within(h, root, d, node) && (d > 0 ==> !Within(h, root, d - 1, node))
  }

  /** A walk in progress, with the chain length that queued each pending node and the distance of each finished one. */
  datatype Search = Search(pending: seq<Id>, labels: seq<nat>, seen: set<Id>, ordered: seq<Id>, depths: seq<nat>)

  /** Queued nodes are explained by chains of their label's length; labels are in order and at most one apart. */
  ghost predicate QueueExplained(h: Heap, root: Id, s: Search) {
    && |s.labels| == |s.pending|
    && (forall i :: 0 <= i < |s.pending| ==> Within(h, root, s.labels[i], s.pending[i]))
    && (forall i, j :: 0 <= i < j < |s.labels| ==> s.labels[i] <= s.labels[j] <= s.labels[i] + 1)
  }

  /** Finished nodes are distinct, carry their true distance, and come nearest first and before the queue. */
  ghost predicate NearestFirst(h: Heap, root: Id, s: Search) {
    && |s.depths| == |s.ordered|
    && (forall x :: x in s.seen <==> x in s.ordered)
    && (forall i, j :: 0 <= i < j < |s.ordered| ==> s.ordered[i] != s.ordered[j] && s.depths[i] <= s.depths[j])
    && (forall i :: 0 <= i < |s.ordered| ==> AtDistance(h, root, s.depths[i], s.ordered[i]))
    && (forall i, j :: 0 <= i < |s.depths| && 0 <= j < |s.labels| ==> s.depths[i] <= s.labels[j])
  }

  /** The node is finished, or queued under a label of at most d. */
  ghost predicate Covered(s: Search, d: nat, x: Id)
    requires |s.labels| == |s.pending|
  {
    x in s.seen || exists i :: 0 <= i < |s.pending| && s.pending[i] == x && s.labels[i] <= d
  }

  /** No link of a finished node has been forgotten. */
  ghost predicate NothingForgotten(h: Heap, root: Id, s: Search)
    requires |s.labels| == |s.pending| && |s.depths| == |s.ordered|
  {
    && (root in s.seen || (s.pending == [root] && s.labels == [0] && s.ordered == []))
    && forall i, x :: 0 <= i < |s.ordered| && IsLink(h, s.ordered[i], x) ==> Covered(s, s.depths[i] + 1, x)
  }

  ghost predicate Frontier(h: Heap, root: Id, s: Search) {
    QueueExplained(h, root, s) && NearestFirst(h, root, s) && NothingForgotten(h, root, s)
  }

  /** A node's distance is at most the length of any chain to it. */
  lemma DistanceIsLeast(h: Heap, root: Id, d: nat, k: nat, node: Id)
    requires AtDistance(h, root, d, node) && Within(h, root, k, node)
    ensures d <= k
  {
    if k < d {
      WithinGrows(h, root, k, d - 1, node);
    }
  }

  /** A link of a finished node nearer than the head of the queue leads to a finished node. */
  lemma LinkIsSeen(h: Heap, root: Id, s: Search, k: nat, from: Id, to: Id)
    requires Frontier(h, root, s)
    requires s.pending != [] ==> k + 1 < s.labels[0]
    requires from in s.seen && Within(h, root, k, from) && IsLink(h, from, to)
    ensures to in s.seen
  {
    assert from in s.ordered;
    var i :| 0 <= i < |s.ordered| && s.ordered[i] == from;
    DistanceIsLeast(h, root, s.depths[i], k, from);
    assert Covered(s, s.depths[i] + 1, to);
  }

  /** Links of members reached in fewer than `bound` steps stay among the members. */
  ghost predicate ClosedBelow(h: Heap, root: Id, members: set<Id>, bound: nat) {
    forall j: nat, m, x :: StaysInside(h, root, members, bound, j, m, x)
  }

  ghost predicate StaysInside(h: Heap, root: Id, members: set<Id>, bound: nat, j: nat, m: Id, x: Id) {
    j < bound && m in members && Within(h, root, j, m) && IsLink(h, m, x) ==> x in members
  }

  lemma {:induction false} ClosureReaches(h: Heap, root: Id, members: set<Id>, bound: nat, k: nat, node: Id)
    requires root in members && ClosedBelow(h, root, members, bound)
    requires k <= bound && Within(h, root, k, node)
    ensures node in members
    decreases k
  {
    if k > 0 {
      if Within(h, root, k - 1, node) {
        ClosureReaches(h, root, members, bound, k - 1, node);
      } else {
        var m :| Within(h, root, k - 1, m) && IsLink(h, m, node);
        ClosureReaches(h, root, members, bound, k - 1, m);
        assert StaysInside(h, root, members, bound, k - 1, m, node);
      }
    }
  }

  /** Everything nearer than the head of the queue is finished; with an empty queue, everything reachable is. */
  lemma NearerIsSeen(h: Heap, root: Id, s: Search, k: nat, node: Id)
    requires Frontier(h, root, s)
    requires s.pending != [] ==> k < s.labels[0]
    requires Within(h, root, k, node)
    ensures node in s.seen
  {
    forall j: nat, m, x
      ensures StaysInside(h, root, s.seen, k, j, m, x)
    {
      if j < k && m in s.seen && Within(h, root, j, m) && IsLink(h, m, x) {
        LinkIsSeen(h, root, s, j, m, x);
      }
    }
    ClosureReaches(h, root, s.seen, k, k, node);
  }

  /** Dropping the head of the queue, which is already finished. */
  function Dropped(s: Search): Search
    requires s.pending != [] && s.labels != []
  {
    s.(pending := s.pending[1..], labels := s.labels[1..])
  }

  lemma FrontierDrops(h: Heap, root: Id, s: Search)
    requires Frontier(h, root, s)
    requires s.pending != [] && s.pending[0] in s.seen
    ensures Frontier(h, root, Dropped(s))
  {
  }

  /** Finishing the head of the queue at its label, and queueing its links one label further. */
  function Advanced(h: Heap, s: Search): Search
    requires s.pending != [] && s.labels != []
  {
    var links := Links(h, s.pending[0]);
    Search(s.pending[1..] + links, s.labels[1..] + seq(|links|, _ => s.labels[0] + 1),
           s.seen + {s.pending[0]}, s.ordered + [s.pending[0]], s.depths + [s.labels[0]])
  }

  lemma QueueAdvances(h: Heap, root: Id, s: Search)
    requires QueueExplained(h, root, s) && s.pending != []
    ensures QueueExplained(h, root, Advanced(h, s))
    ensures forall i :: 0 <= i < |Advanced(h, s).labels| ==> s.labels[0] <= Advanced(h, s).labels[i] <= s.labels[0] + 1
  {
  }

  lemma FinishedAdvances(h: Heap, root: Id, s: Search)
    requires Frontier(h, root, s) && s.pending != [] && s.pending[0] !in s.seen
    ensures NearestFirst(h, root, Advanced(h, s))
  {
    var t, d, node := Advanced(h, s), s.labels[0], s.pending[0];
    if d > 0 && Within(h, root, d - 1, node) {
      NearerIsSeen(h, root, s, d - 1, node);
    }
    assert AtDistance(h, root, d, node);
    QueueAdvances(h, root, s);
    assert forall i :: 0 <= i < |s.ordered| ==> s.depths[i] <= d;
  }

  lemma LinksAdvance(h: Heap, root: Id, s: Search)
    requires Frontier(h, root, s) && s.pending != [] && s.pending[0] !in s.seen
    ensures NothingForgotten(h, root, Advanced(h, s))
  {
    var t, links, n := Advanced(h, s), Links(h, s.pending[0]), |s.pending| - 1;
    forall i, x | 0 <= i < |t.ordered| && IsLink(h, t.ordered[i], x)
      ensures Covered(t, t.depths[i] + 1, x)
    {
      if i < |s.ordered| {
        assert Covered(s, s.depths[i] + 1, x);
        if x !in t.seen {
          var j :| 0 <= j < |s.pending| && s.pending[j] == x && s.labels[j] <= s.depths[i] + 1;
          assert t.pending[j - 1] == x && t.labels[j - 1] == s.labels[j];
        }
      } else {
        LinksAreQueued(h, s.pending[0], x);
        var j :| 0 <= j < |links| && links[j] == x;
        assert t.pending[n + j] == x && t.labels[n + j] == s.labels[0] + 1;
      }
    }
  }

  lemma FrontierAdvances(h: Heap, root: Id, s: Search)
    requires Frontier(h, root, s) && s.pending != [] && s.pending[0] !in s.seen
    ensures Frontier(h, root, Advanced(h, s))
  {
    QueueAdvances(h, root, s);
    FinishedAdvances(h, root, s);
    LinksAdvance(h, root, s);
  }

  /** What a finished walk is: the true distances of its nodes in order, without repetition, and the whole reachable
      set when it stops short of the bound. */
  ghost predicate Explored(h: Heap, root: Id, nodes: seq<Id>, depths: seq<nat>) {
    && |depths| == |nodes| <= MAX_EXCEPTION_CHAIN_DEPTH
    && (forall i :: 0 <= i < |nodes| ==> AtDistance(h, root, depths[i], nodes[i]))
    && (forall i, j :: 0 <= i < j < |nodes| ==> nodes[i] != nodes[j] && depths[i] <= depths[j])
    && (|nodes| < MAX_EXCEPTION_CHAIN_DEPTH ==> forall x :: Reachable(h, root, x) ==> x in nodes)
  }

  lemma {:induction false} WalkExplores(h: Heap, root: Id, s: Search) returns (final: seq<nat>)
    requires Frontier(h, root, s) && |s.ordered| <= MAX_EXCEPTION_CHAIN_DEPTH
    ensures Explored(h, root, WalkFrom(h, s.pending, s.seen, s.ordered), final)
    ensures s.ordered <= WalkFrom(h, s.pending, s.seen, s.ordered)
    decreases MAX_EXCEPTION_CHAIN_DEPTH - |s.ordered|, |s.pending|
  {
    if s.pending == [] || |s.ordered| >= MAX_EXCEPTION_CHAIN_DEPTH {
      final := s.depths;
      if |s.ordered| < MAX_EXCEPTION_CHAIN_DEPTH {
        forall x | Reachable(h, root, x)
          ensures x in s.ordered
        {
          var k: nat :| Within(h, root, k, x);
          NearerIsSeen(h, root, s, k, x);
        }
      }
    } else if s.pending[0] in s.seen {
      FrontierDrops(h, root, s);
      final := WalkExplores(h, root, Dropped(s));
    } else {
      FrontierAdvances(h, root, s);
      final := WalkExplores(h, root, Advanced(h, s));
    }
  }

  lemma WalkIsExplored(h: Heap, root: Id) returns (depths: seq<nat>)
    ensures Explored(h, root, Walk(h, root), depths)
    ensures [root] <= Walk(h, root)
  {
    var s := Search([root], [0], {}, [], []);
    assert Within(h, root, 0, root);
    assert Frontier(h, root, s);
    FrontierAdvances(h, root, s);
    depths := WalkExplores(h, root, Advanced(h, s));
  }

  /** The walk starts at the given exception, repeats nothing, stays within its bound and visits only reachable
      exceptions. */
  lemma WalkIsSound(h: Heap, root: Id)
    ensures var w := Walk(h, root);
      && 0 < |w| <= 8 && w[0] == root
      && (forall i, j :: 0 <= i < j < |w| ==> w[i] != w[j])
      && (forall i :: 0 <= i < |w| ==> Reachable(h, root, w[i]))
  {
    var w := Walk(h, root);
    var depths := WalkIsExplored(h, root);
    forall i | 0 <= i < |w|
      ensures Reachable(h, root, w[i])
    {
      assert AtDistance(h, root, depths[i], w[i]);
    }
  }

  /** Nearer exceptions are visited first: any number of links that reaches a visited one reaches all before it. */
  lemma WalkVisitsNearestFirst(h: Heap, root: Id, i: nat, j: nat, k: nat)
    requires i < j < |Walk(h, root)| && Within(h, root, k, Walk(h, root)[j])
    ensures Within(h, root, k, Walk(h, root)[i])
  {
    var w := Walk(h, root);
    var depths := WalkIsExplored(h, root);
    DistanceIsLeast(h, root, depths[j], k, w[j]);
    WithinGrows(h, root, depths[i], k, w[i]);
  }

  /** A walk that stops short of its bound has visited exactly the reachable exceptions. */
  lemma ShortWalkIsComplete(h: Heap, root: Id)
    requires |Walk(h, root)| < 8
    ensures forall x :: x in Walk(h, root) <==> Reachable(h, root, x)
  {
    var w := Walk(h, root);
    var depths := WalkIsExplored(h, root);
    forall x | x in w
      ensures Reachable(h, root, x)
    {
      var i :| 0 <= i < |w| && w[i] == x;
      assert Within(h, root, depths[i], x);
    }
  }

  lemma WalkTakes(h: Heap, first: Id, rest: seq<Id>, seen: set<Id>, ordered: seq<Id>)
    requires |ordered| < MAX_EXCEPTION_CHAIN_DEPTH && first !in seen
    ensures WalkFrom(h, [first] + rest, seen, ordered)
         == WalkFrom(h, rest + Links(h, first), seen + {first}, ordered + [first])
  {
    assert ([first] + rest)[1..] == rest;
  }

  lemma TwoAreTaken(h: Heap, a: Id, b: Id, rest: seq<Id>, seen: set<Id>, ordered: seq<Id>) returns (more: seq<Id>)
    requires |ordered| + 2 <= MAX_EXCEPTION_CHAIN_DEPTH && a !in seen && b !in seen && a != b
    ensures WalkFrom(h, [a] + ([b] + rest), seen, ordered)
         == WalkFrom(h, rest + more, seen + {a} + {b}, ordered + [a] + [b])
  {
    WalkTakes(h, a, [b] + rest, seen, ordered);
    assert ([b] + rest) + Links(h, a) == [b] + (rest + Links(h, a));
    WalkTakes(h, b, rest + Links(h, a), seen + {a}, ordered + [a]);
    more := Links(h, a) + Links(h, b);
    assert (rest + Links(h, a)) + Links(h, b) == rest + more;
  }

  lemma WalkStarts(h: Heap, root: Id)
    ensures Walk(h, root) == WalkFrom(h, Links(h, root), {root}, [root])
  {
    assert [root] == [root] + [] && [] + Links(h, root) == Links(h, root);
    WalkTakes(h, root, [], {}, []);
    assert [] + [root] == [root] && {} + {root} == {root};
  }

  /** Links of one exception are visited in their order: the cause, then the context, then the reason of a URL error. */
  lemma CauseComesFirst(h: Heap, root: Id, cause: Id, context: Id, reason: Id)
    requires h(root).cause == Some(cause) && h(root).context == Some(context)
    requires URLError in h(root).bases && h(root).reason == Exception(reason)
    requires root !in {cause, context, reason} && cause !in {context, reason} && context != reason
    ensures [root, cause, context, reason] <= Walk(h, root)
  {
    var seen, ordered := {root} + {cause} + {context}, [root] + [cause] + [context];
    WalkStarts(h, root);
    assert Links(h, root) == [cause] + ([context] + [reason]);
    var more := TwoAreTaken(h, cause, context, [reason], {root}, [root]);
    WalkTakes(h, reason, more, seen, ordered);
    WalkExtends(h, more + Links(h, reason), seen + {reason}, ordered + [reason]);
    assert ordered + [reason] == [root, cause, context, reason];
  }

  lemma {:induction false} WalkExtends(h: Heap, pending: seq<Id>, seen: set<Id>, ordered: seq<Id>)
    ensures ordered <= WalkFrom(h, pending, seen, ordered)
    decreases MAX_EXCEPTION_CHAIN_DEPTH - |ordered|, |pending|
  {
    if pending != [] && |ordered| < MAX_EXCEPTION_CHAIN_DEPTH {
      if pending[0] in seen {
        WalkExtends(h, pending[1..], seen, ordered);
      } else {
        WalkExtends(h, pending[1..] + Links(h, pending[0]), seen + {pending[0]}, ordered + [pending[0]]);
      }
    }
  }
}
