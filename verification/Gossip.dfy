/** Gossip flooding (guest/mesh.ts): the cache of seen ids, one-hop forwarding under a hop
    budget, and why a flood ends. */
module Gossip {
  import opened Ids
  import opened Dicts

  const SEEN_CAP := 4096
  const RELAY_TTL := 4
  const ROOM_WIRE_LIMIT := 64

  // ---- The seen cache ----

  // What markSeen leaves of the order of arrival.
  function Marked(order: seq<Id>, gid: Id): seq<Id> {
    if gid in order then order else
      var o := order + [gid];
      if |o| > SEEN_CAP then o[|o| - SEEN_CAP..] else o
  }

  ghost predicate SeenInv(seen: set<Id>, order: seq<Id>) {
    Distinct(order) && Elements(order) == seen && |order| <= SEEN_CAP
  }

  lemma MarkedKeeps(order: seq<Id>, gid: Id)
    requires Distinct(order) && |order| <= SEEN_CAP
    ensures Distinct(Marked(order, gid)) && |Marked(order, gid)| <= SEEN_CAP && gid in Marked(order, gid)
  {
    if gid !in order {
      AppendDistinct(order, gid);
      var o := order + [gid];
      if |o| > SEEN_CAP {
        SuffixDistinct(o, |o| - SEEN_CAP);
        assert o[|o| - SEEN_CAP..][SEEN_CAP - 1] == gid;
      } else {
        assert o[|o| - 1] == gid;
      }
    }
  }

  function MarkAll(order: seq<Id>, gids: seq<Id>): seq<Id> {
    if gids == [] then order else Marked(MarkAll(order, gids[..|gids| - 1]), gids[|gids| - 1])
  }

  // The id is still remembered, with nothing but later marks behind it; or the cache has
  // been filled by others since.
  ghost predicate HeldOrFlushed(order: seq<Id>, gid: Id, later: seq<Id>) {
    || (exists i | 0 <= i < |order| :: order[i] == gid && Elements(order[i + 1..]) <= Elements(later))
    || |Elements(later)| >= SEEN_CAP
  }

  /** A node that has just handled an id takes it up again only after at least 4096 other
      distinct ids were marked in between. */
  lemma SeenWindow(order: seq<Id>, gid: Id, later: seq<Id>)
    requires Distinct(order) && |order| <= SEEN_CAP && gid !in order && gid !in later
    ensures gid in MarkAll(Marked(order, gid), later) || |Elements(later)| >= SEEN_CAP
  {
    MarkedKeeps(order, gid);
    MarkedIsLast(order, gid);
    WindowHolds(Marked(order, gid), gid, later);
  }

  lemma MarkedIsLast(order: seq<Id>, gid: Id)
    requires Distinct(order) && gid !in order
    ensures var m := Marked(order, gid); m != [] && m[|m| - 1] == gid
    ensures HeldOrFlushed(Marked(order, gid), gid, [])
  {
    var m := Marked(order, gid);
    assert m[|m| - 1 + 1..] == [];
    assert Elements(m[|m| - 1 + 1..]) <= Elements([]);
  }

  lemma {:induction false} WindowHolds(order: seq<Id>, gid: Id, later: seq<Id>)
    requires Distinct(order) && |order| <= SEEN_CAP && HeldOrFlushed(order, gid, []) && gid !in later
    ensures var o := MarkAll(order, later); Distinct(o) && |o| <= SEEN_CAP && HeldOrFlushed(o, gid, later)
  {
    if later == [] {
      assert later == [];
    } else {
      var n := |later| - 1;
      WindowHolds(order, gid, later[..n]);
      var o := MarkAll(order, later[..n]);
      MarkedKeeps(o, later[n]);
      assert later == later[..n] + [later[n]];
      WindowStep(o, gid, later[..n], later[n]);
    }
  }

  lemma WindowStep(order: seq<Id>, gid: Id, later: seq<Id>, next: Id)
    requires Distinct(order) && |order| <= SEEN_CAP && HeldOrFlushed(order, gid, later) && next != gid
    ensures HeldOrFlushed(Marked(order, next), gid, later + [next])
  {
    assert Elements(later) <= Elements(later + [next]);
    SubsetSize(Elements(later), Elements(later + [next]));
    if |Elements(later)| < SEEN_CAP {
      var i :| 0 <= i < |order| && order[i] == gid && Elements(order[i + 1..]) <= Elements(later);
      if next in order { assert Elements(order[i + 1..]) <= Elements(later + [next]); }
      else { WindowPush(order, gid, later, next, i); }
    }
  }

  lemma WindowPush(order: seq<Id>, gid: Id, later: seq<Id>, next: Id, i: nat)
    requires Distinct(order) && |order| <= SEEN_CAP && next !in order
    requires i < |order| && order[i] == gid && Elements(order[i + 1..]) <= Elements(later)
    ensures HeldOrFlushed(Marked(order, next), gid, later + [next])
  {
    var o := order + [next];
    var m := Marked(order, next);
    TailPush(order, later, next, i);
    if |o| <= SEEN_CAP {
      assert m[i] == gid;
    } else if i > 0 {
      assert m[i - 1] == gid && m[i - 1 + 1..] == o[i + 1..];
    } else {
      FullTurn(order, later, next);
    }
  }

  lemma TailPush(order: seq<Id>, later: seq<Id>, next: Id, i: nat)
    requires i < |order| && Elements(order[i + 1..]) <= Elements(later)
    ensures Elements((order + [next])[i + 1..]) <= Elements(later + [next])
  {
    assert (order + [next])[i + 1..] == order[i + 1..] + [next];
    ElementsPush(order[i + 1..], later, next);
  }

  lemma FullTurn(order: seq<Id>, later: seq<Id>, next: Id)
    requires Distinct(order) && |order| == SEEN_CAP && next !in order
    requires Elements((order + [next])[1..]) <= Elements(later + [next])
    ensures |Elements(later + [next])| >= SEEN_CAP
  {
    AppendDistinct(order, next);
    SuffixDistinct(order + [next], 1);
    ElementsSize((order + [next])[1..]);
    SubsetSize(Elements((order + [next])[1..]), Elements(later + [next]));
  }

  lemma ElementsPush(a: seq<Id>, b: seq<Id>, x: Id)
    requires Elements(a) <= Elements(b)
    ensures Elements(a + [x]) <= Elements(b + [x])
  {
    forall y | y in Elements(a + [x]) ensures y in Elements(b + [x]) {
      if y != x { assert y in Elements(a); assert y in Elements(b); }
    }
  }

  // ---- The flood ----

  /** A copy of a frame on one wire. The hop budget is the field _t. */
  datatype Copy = Copy(gid: Id, ttl: nat, from: Id, to: Id)

  /** Everything in flight, every node's cache, and every time a node passed an id on. */
  datatype Net = Net(flight: seq<Copy>, seen: map<Id, seq<Id>>, passed: seq<(Id, Id)>)

  datatype Event =
    | Originate(node: Id, gid: Id, targets: seq<Id>)   // broadcast over the node's wires
    | Deliver(copy: nat, targets: seq<Id>)             // a frame arrives and may be forwarded
    | Lose(copy: nat)
    | Forget(node: Id)                                 // a cache is gone, as after a restart

  // A node sends to no more peers than it may have wires.
  predicate Legal(n: Net, e: Event) {
    match e
    case Originate(_, _, targets) => |targets| <= ROOM_WIRE_LIMIT
    case Deliver(i, targets) => i < |n.flight| && |targets| <= ROOM_WIRE_LIMIT
    case Lose(i) => i < |n.flight|
    case Forget(_) => true
  }

  function Copies(gid: Id, ttl: nat, from: Id, targets: seq<Id>): seq<Copy> {
    if targets == [] then [] else
      Copies(gid, ttl, from, targets[..|targets| - 1]) + [Copy(gid, ttl, from, targets[|targets| - 1])]
  }

  function SeenBy(seen: map<Id, seq<Id>>, node: Id): seq<Id> { if node in seen then seen[node] else [] }

  function Passing(n: Net, node: Id, gid: Id): Net {
    n.(seen := n.seen[node := Marked(SeenBy(n.seen, node), gid)], passed := n.passed + [(node, gid)])
  }

  function Removed<T>(s: seq<T>, i: nat): seq<T>
    requires i < |s|
  {
    s[..i] + s[i + 1..]
  }

  function Step(n: Net, e: Event): Net
    requires Legal(n, e)
  {
    match e
    case Originate(node, gid, targets) =>
      Passing(n, node, gid).(flight := n.flight + Copies(gid, RELAY_TTL, node, targets))
    case Deliver(i, targets) => Delivered(n.(flight := Removed(n.flight, i)), n.flight[i], targets)
    case Lose(i) => n.(flight := Removed(n.flight, i))
    case Forget(node) => n.(seen := n.seen - {node})
  }

  // processFrame up to forward: a seen id goes no further, nor does a spent hop budget.
  function Delivered(n: Net, c: Copy, targets: seq<Id>): Net {
    if c.gid in SeenBy(n.seen, c.to) then n
    else
      var m := Passing(n, c.to, c.gid);
      if c.ttl <= 1 then m else m.(flight := n.flight + Copies(c.gid, c.ttl - 1, c.to, targets))
  }

  lemma {:induction false} CopyAt(gid: Id, ttl: nat, from: Id, targets: seq<Id>)
    ensures var cs := Copies(gid, ttl, from, targets);
            |cs| == |targets| && forall i | 0 <= i < |cs| :: cs[i] == Copy(gid, ttl, from, targets[i])
  {
    if targets != [] { CopyAt(gid, ttl, from, targets[..|targets| - 1]); }
  }

  // All that is in flight after it: what was, and a copy to each of the targets.
  predicate Sends(n: Net, before: seq<Copy>, gid: Id, ttl: nat, from: Id, targets: seq<Id>) {
    && |n.flight| == |before| + |targets| && n.flight[..|before|] == before
    && forall i | 0 <= i < |targets| :: n.flight[|before| + i] == Copy(gid, ttl, from, targets[i])
  }

  // Nothing else about the nodes has changed but that node has passed gid on.
  ghost predicate Passed(n: Net, m: Net, node: Id, gid: Id) {
    && m.passed == n.passed + [(node, gid)] && gid in SeenBy(m.seen, node)
    && forall x | x != node :: SeenBy(m.seen, x) == SeenBy(n.seen, x)
  }

  /** What each event does: an originated frame goes to every target with the whole budget; one that
      arrives goes no further where it is known, or with its budget spent, and else to every target with
      one hop less; a lost one is gone, and a cache that is lost is empty. */
  lemma EventDoes(n: Net, e: Event)
    requires Legal(n, e) && forall x :: Distinct(SeenBy(n.seen, x)) && |SeenBy(n.seen, x)| <= SEEN_CAP
    ensures var m := Step(n, e);
            match e
            case Originate(node, gid, targets) => Sends(m, n.flight, gid, 4, node, targets) && Passed(n, m, node, gid)
            case Deliver(i, targets) =>
              var c, rest := n.flight[i], n.flight[..i] + n.flight[i + 1..];
              if c.gid in SeenBy(n.seen, c.to) then m == n.(flight := rest)
              else Passed(n, m, c.to, c.gid)
                   && if c.ttl <= 1 then m.flight == rest
                      else Sends(m, rest, c.gid, c.ttl - 1, c.to, targets)
            case Lose(i) => m == n.(flight := n.flight[..i] + n.flight[i + 1..])
            case Forget(node) =>
              m.flight == n.flight && m.passed == n.passed && SeenBy(m.seen, node) == []
              && forall x | x != node :: SeenBy(m.seen, x) == SeenBy(n.seen, x)
  {
    match e
    case Originate(node, gid, targets) =>
      CopyAt(gid, RELAY_TTL, node, targets);
      MarkedKeeps(SeenBy(n.seen, node), gid);
    case Deliver(i, targets) => DeliveredDoes(n.(flight := n.flight[..i] + n.flight[i + 1..]), n.flight[i], targets);
    case _ =>
  }

  lemma DeliveredDoes(n: Net, c: Copy, targets: seq<Id>)
    requires Distinct(SeenBy(n.seen, c.to)) && |SeenBy(n.seen, c.to)| <= SEEN_CAP
    ensures var m := Delivered(n, c, targets);
            if c.gid in SeenBy(n.seen, c.to) then m == n
            else Passed(n, m, c.to, c.gid)
                 && if c.ttl <= 1 then m.flight == n.flight else Sends(m, n.flight, c.gid, c.ttl - 1, c.to, targets)
  {
    if c.ttl > 1 { CopyAt(c.gid, c.ttl - 1, c.to, targets); }
    MarkedKeeps(SeenBy(n.seen, c.to), c.gid);
  }

  // The deliveries one copy can cause, itself included.
  function Reach(ttl: nat): nat { if ttl <= 1 then 1 else 1 + ROOM_WIRE_LIMIT * Reach(ttl - 1) }

  function Potential(flight: seq<Copy>): nat {
    if flight == [] then 0 else Potential(flight[..|flight| - 1]) + Reach(flight[|flight| - 1].ttl)
  }

  lemma {:induction false} PotentialConcat(a: seq<Copy>, b: seq<Copy>)
    ensures Potential(a + b) == Potential(a) + Potential(b)
  {
    if b == [] {
      assert a + b == a;
    } else {
      assert (a + b)[..|a + b| - 1] == a + b[..|b| - 1];
      PotentialConcat(a, b[..|b| - 1]);
    }
  }

  lemma {:induction false} PotentialTakeOut(s: seq<Copy>, i: nat)
    requires i < |s|
    ensures Potential(s) == Potential(Removed(s, i)) + Reach(s[i].ttl)
  {
    var n := |s| - 1;
    if i == n {
      assert Removed(s, i) == s[..n];
    } else {
      PotentialTakeOut(s[..n], i);
      assert Removed(s, i)[..n - 1] == Removed(s[..n], i) && Removed(s, i)[n - 1] == s[n];
    }
  }

  lemma {:induction false} PotentialCopies(gid: Id, ttl: nat, from: Id, targets: seq<Id>)
    ensures Potential(Copies(gid, ttl, from, targets)) == |targets| * Reach(ttl)
  {
    if targets != [] {
      var n := |targets| - 1;
      var front := Copies(gid, ttl, from, targets[..n]);
      PotentialCopies(gid, ttl, from, targets[..n]);
      assert (front + [Copy(gid, ttl, from, targets[n])])[..|front|] == front;
      OneMore(n, Reach(ttl));
    }
  }

  lemma OneMore(n: nat, x: nat)
    ensures (n + 1) * x == n * x + x
  {}

  lemma AtMost(n: nat, x: nat)
    requires n <= ROOM_WIRE_LIMIT
    ensures n * x <= ROOM_WIRE_LIMIT * x
  {}

  // What one originated frame can cause in all.
  const WORK_PER_FRAME: nat := ROOM_WIRE_LIMIT * Reach(RELAY_TTL)

  predicate Arrives(e: Event) { e.Deliver? || e.Lose? }

  /** Every arrival, whatever the caches hold and wherever the copies go, uses up potential:
      a copy is worth strictly more than all it can turn into. */
  lemma ArrivalDescends(n: Net, e: Event)
    requires Legal(n, e)
    ensures Arrives(e) ==> Potential(Step(n, e).flight) < Potential(n.flight)
    ensures e.Forget? ==> Potential(Step(n, e).flight) == Potential(n.flight)
    ensures e.Originate? ==> Potential(Step(n, e).flight) <= Potential(n.flight) + WORK_PER_FRAME
  {
    match e
    case Originate(node, gid, targets) =>
      PotentialConcat(n.flight, Copies(gid, RELAY_TTL, node, targets));
      PotentialCopies(gid, RELAY_TTL, node, targets);
      AtMost(|targets|, Reach(RELAY_TTL));
    case Deliver(i, targets) =>
      PotentialTakeOut(n.flight, i);
      DeliveredPotential(n.(flight := Removed(n.flight, i)), n.flight[i], targets);
    case Lose(i) => PotentialTakeOut(n.flight, i);
    case Forget(_) =>
  }

  lemma DeliveredPotential(n: Net, c: Copy, targets: seq<Id>)
    requires |targets| <= ROOM_WIRE_LIMIT
    ensures Potential(Delivered(n, c, targets).flight) < Potential(n.flight) + Reach(c.ttl)
  {
    if c.ttl > 1 {
      PotentialConcat(n.flight, Copies(c.gid, c.ttl - 1, c.to, targets));
      PotentialCopies(c.gid, c.ttl - 1, c.to, targets);
      AtMost(|targets|, Reach(c.ttl - 1));
    }
  }

  ghost predicate LegalRun(n: Net, es: seq<Event>) {
    es == [] || (LegalRun(n, es[..|es| - 1]) && Legal(Run(n, es[..|es| - 1]), es[|es| - 1]))
  }

  ghost function Run(n: Net, es: seq<Event>): Net
    decreases es
  {
    if es == [] then n else
      var before := Run(n, es[..|es| - 1]);
      if Legal(before, es[|es| - 1]) then Step(before, es[|es| - 1]) else before
  }

  function Arrivals(es: seq<Event>): nat {
    if es == [] then 0 else Arrivals(es[..|es| - 1]) + if Arrives(es[|es| - 1]) then 1 else 0
  }

  function Originations(es: seq<Event>): nat {
    if es == [] then 0 else Originations(es[..|es| - 1]) + if es[|es| - 1].Originate? then 1 else 0
  }

  /** A flood ends by itself: in any run over any topology, with caches lost at any time, the
      frames that arrive are bounded by a constant times the frames that were originated. */
  lemma {:induction false} FloodsEnd(n: Net, es: seq<Event>)
    requires n.flight == [] && LegalRun(n, es)
    ensures Arrivals(es) + Potential(Run(n, es).flight) <= Originations(es) * WORK_PER_FRAME
  {
    if es != [] {
      var k := |es| - 1;
      FloodsEnd(n, es[..k]);
      ArrivalDescends(Run(n, es[..k]), es[k]);
      OneMore(Originations(es[..k]), WORK_PER_FRAME);
    }
  }

  // ---- At most once ----

  predicate CacheWithin(order: seq<Id>, universe: set<Id>) { Distinct(order) && Elements(order) <= universe }

  // Nothing was passed on twice, and every node still knows what it passed on.
  ghost predicate Remembers(n: Net, universe: set<Id>) {
    && Distinct(n.passed)
    && (forall p | p in n.passed :: p.1 in SeenBy(n.seen, p.0))
    && (forall node | node in n.seen :: CacheWithin(n.seen[node], universe))
  }

  predicate EventWithin(n: Net, e: Event, universe: set<Id>) {
    !e.Forget? && (e.Originate? ==> e.gid in universe && e.gid !in SeenBy(n.seen, e.node))
  }

  ghost predicate FlightWithin(n: Net, universe: set<Id>) { forall c | c in n.flight :: c.gid in universe }

  // With room for every id there is, marking forgets nothing.
  lemma MarkedForgetsNothing(order: seq<Id>, gid: Id, universe: set<Id>)
    requires Distinct(order) && Elements(order) <= universe && gid in universe && |universe| <= SEEN_CAP
    ensures Elements(Marked(order, gid)) == Elements(order) + {gid} && Distinct(Marked(order, gid))
  {
    AppendDistinct(order, gid);
    if gid !in order {
      ElementsSize(order + [gid]);
      SubsetSize(Elements(order + [gid]), universe);
    } else {
      assert Elements(order) + {gid} == Elements(order);
    }
  }

  lemma PassingRemembers(n: Net, node: Id, gid: Id, universe: set<Id>)
    requires Remembers(n, universe) && |universe| <= SEEN_CAP && gid in universe && gid !in SeenBy(n.seen, node)
    ensures Remembers(Passing(n, node, gid), universe)
  {
    var m := Passing(n, node, gid);
    assert CacheWithin(SeenBy(n.seen, node), universe);
    MarkedForgetsNothing(SeenBy(n.seen, node), gid, universe);
    assert Elements(SeenBy(n.seen, node)) + {gid} <= universe;
    assert CacheWithin(m.seen[node], universe);
    PassedAppend(n.passed, (node, gid));
    forall p | p in m.passed ensures p.1 in SeenBy(m.seen, p.0) {
      assert p in n.passed || p == (node, gid);
      if p.0 == node { assert p.1 in Elements(SeenBy(m.seen, node)); }
    }
  }

  lemma {:induction false} PassedAppend(s: seq<(Id, Id)>, p: (Id, Id))
    requires Distinct(s) && p !in s
    ensures Distinct(s + [p])
  {
    if s != [] {
      PassedAppend(s[1..], p);
      assert (s + [p])[1..] == s[1..] + [p];
    }
  }

  lemma {:induction false} CopiesCarry(gid: Id, ttl: nat, from: Id, targets: seq<Id>)
    ensures forall c | c in Copies(gid, ttl, from, targets) :: c.gid == gid
  {
    if targets != [] { CopiesCarry(gid, ttl, from, targets[..|targets| - 1]); }
  }

  lemma StepRemembers(n: Net, e: Event, universe: set<Id>)
    requires Remembers(n, universe) && FlightWithin(n, universe) && |universe| <= SEEN_CAP
    requires Legal(n, e) && EventWithin(n, e, universe)
    ensures Remembers(Step(n, e), universe) && FlightWithin(Step(n, e), universe)
  {
    match e
    case Originate(node, gid, targets) =>
      PassingRemembers(n, node, gid, universe);
      CopiesCarry(gid, RELAY_TTL, node, targets);
    case Deliver(i, targets) =>
      assert n.flight[i] in n.flight;
      var m := n.(flight := Removed(n.flight, i));
      assert Remembers(m, universe);
      DeliveredRemembers(m, n.flight[i], targets, universe);
    case Lose(i) =>
  }

  lemma DeliveredRemembers(n: Net, c: Copy, targets: seq<Id>, universe: set<Id>)
    requires Remembers(n, universe) && FlightWithin(n, universe) && |universe| <= SEEN_CAP && c.gid in universe
    ensures Remembers(Delivered(n, c, targets), universe) && FlightWithin(Delivered(n, c, targets), universe)
  {
    if c.gid !in SeenBy(n.seen, c.to) {
      PassingRemembers(n, c.to, c.gid, universe);
      if c.ttl > 1 { CopiesCarry(c.gid, c.ttl - 1, c.to, targets); }
    }
  }

  ghost predicate RunWithin(n: Net, es: seq<Event>, universe: set<Id>) {
    es == [] || (RunWithin(n, es[..|es| - 1], universe) && EventWithin(Run(n, es[..|es| - 1]), es[|es| - 1], universe))
  }

  /** While no more than 4096 ids are about and no cache is lost, no node passes the same id
      on twice, its originator included, over any topology and any interleaving. */
  lemma {:induction false} PassedOnAtMostOnce(n: Net, es: seq<Event>, universe: set<Id>)
    requires n == Net([], map[], []) && |universe| <= SEEN_CAP && LegalRun(n, es) && RunWithin(n, es, universe)
    ensures Remembers(Run(n, es), universe) && FlightWithin(Run(n, es), universe)
  {
    if es != [] {
      var k := |es| - 1;
      PassedOnAtMostOnce(n, es[..k], universe);
      StepRemembers(Run(n, es[..k]), es[k], universe);
    }
  }

  // ---- However many ids there are ----

  function PassedBy(passed: seq<(Id, Id)>, node: Id): seq<Id> {
    if passed == [] then [] else
      var p := passed[|passed| - 1];
      PassedBy(passed[..|passed| - 1], node) + if p.0 == node then [p.1] else []
  }

  function Recent(ids: seq<Id>): seq<Id> { if |ids| > SEEN_CAP then ids[|ids| - SEEN_CAP..] else ids }

  // Each id is new against the last 4096 before it.
  predicate Spaced(ids: seq<Id>) {
    ids == [] || (Spaced(ids[..|ids| - 1]) && ids[|ids| - 1] !in Recent(ids[..|ids| - 1]))
  }

  // The node's cache survives the run, and its own frames get ids it has not just handled.
  ghost predicate Careful(n: Net, es: seq<Event>, node: Id) {
    es == [] || (Careful(n, es[..|es| - 1], node) && CarefulEvent(Run(n, es[..|es| - 1]), es[|es| - 1], node))
  }

  predicate CarefulEvent(n: Net, e: Event, node: Id) {
    e != Forget(node) && (e.Originate? && e.node == node ==> e.gid !in SeenBy(n.seen, node))
  }

  ghost predicate KnowsRecent(n: Net, node: Id) {
    var ids := PassedBy(n.passed, node);
    Spaced(ids) && Distinct(Recent(ids)) && SeenBy(n.seen, node) == Recent(ids)
  }

  /** Over any topology and interleaving and however many ids are about, a node's cache is the
      last 4096 ids it has passed on, all different: it passes a frame on exactly when its id
      is none of these. */
  lemma {:induction false} CacheIsRecentPasses(n: Net, es: seq<Event>, node: Id)
    requires n == Net([], map[], []) && LegalRun(n, es) && Careful(n, es, node)
    ensures KnowsRecent(Run(n, es), node)
  {
    if es != [] {
      var k := |es| - 1;
      CacheIsRecentPasses(n, es[..k], node);
      StepKnowsRecent(Run(n, es[..k]), es[k], node);
    }
  }

  lemma StepKnowsRecent(n: Net, e: Event, node: Id)
    requires KnowsRecent(n, node) && Legal(n, e) && CarefulEvent(n, e, node)
    ensures KnowsRecent(Step(n, e), node)
  {
    if e.Originate? {
      PassingKnowsRecent(n, e.node, e.gid, node);
    } else if e.Deliver? {
      var c := n.flight[e.copy];
      if c.gid !in SeenBy(n.seen, c.to) {
        PassingKnowsRecent(n.(flight := Removed(n.flight, e.copy)), c.to, c.gid, node);
      }
    }
  }

  lemma PassingKnowsRecent(n: Net, at: Id, gid: Id, node: Id)
    requires KnowsRecent(n, node) && (at == node ==> gid !in SeenBy(n.seen, node))
    ensures KnowsRecent(Passing(n, at, gid), node)
  {
    var ids := PassedBy(n.passed, node);
    PassedGrows(n.passed, at, gid, node);
    if at == node {
      OneMorePass(ids, gid);
      assert KnowsRecent(Passing(n, at, gid), node);
    } else {
      assert ids + [] == ids;
      assert SeenBy(Passing(n, at, gid).seen, node) == SeenBy(n.seen, node);
    }
  }

  lemma PassedGrows(passed: seq<(Id, Id)>, at: Id, gid: Id, node: Id)
    ensures PassedBy(passed + [(at, gid)], node) == PassedBy(passed, node) + (if at == node then [gid] else [])
  {
    var more := passed + [(at, gid)];
    assert more[..|more| - 1] == passed && more[|more| - 1] == (at, gid);
  }

  lemma OneMorePass(ids: seq<Id>, gid: Id)
    requires Spaced(ids) && Distinct(Recent(ids)) && gid !in Recent(ids)
    ensures Spaced(ids + [gid]) && Distinct(Recent(ids + [gid])) && Marked(Recent(ids), gid) == Recent(ids + [gid])
  {
    var more := ids + [gid];
    assert more[..|more| - 1] == ids;
    assert Marked(Recent(ids), gid) == Recent(more);
    MarkedKeeps(Recent(ids), gid);
  }

  /** Two passes of one id by one node are more than 4096 passes apart, and the 4096 ids passed
      just before the second are different from it and from each other. */
  lemma PassesOfOneIdAreApart(n: Net, es: seq<Event>, node: Id, i: nat, j: nat)
    requires n == Net([], map[], []) && LegalRun(n, es) && Careful(n, es, node)
    requires var ids := PassedBy(Run(n, es).passed, node); i < j < |ids| && ids[i] == ids[j]
    ensures var ids := PassedBy(Run(n, es).passed, node);
            && j - i > SEEN_CAP
            && |Elements(ids[j - SEEN_CAP..j])| == SEEN_CAP && ids[i] !in Elements(ids[j - SEEN_CAP..j])
  {
    CacheIsRecentPasses(n, es, node);
    SpacedApart(PassedBy(Run(n, es).passed, node), i, j);
  }

  lemma SpacedApart(ids: seq<Id>, i: nat, j: nat)
    requires Spaced(ids) && i < j < |ids| && ids[i] == ids[j]
    ensures j - i > SEEN_CAP
    ensures |Elements(ids[j - SEEN_CAP..j])| == SEEN_CAP && ids[i] !in Elements(ids[j - SEEN_CAP..j])
  {
    var front := ids[..j];
    SpacedPrefix(ids, j + 1);
    assert ids[..j + 1][..j] == front && ids[..j + 1][j] == ids[i];
    InRecent(front, i);
    assert front[i] == ids[i];
    assert Recent(front) == ids[j - SEEN_CAP..j];
    SpacedPrefix(ids, j);
    SpacedDistinct(front);
    ElementsSize(Recent(front));
  }

  lemma {:induction false} SpacedPrefix(ids: seq<Id>, n: nat)
    requires Spaced(ids) && n <= |ids|
    ensures Spaced(ids[..n])
    decreases |ids|
  {
    if n < |ids| {
      SpacedPrefix(ids[..|ids| - 1], n);
      assert ids[..|ids| - 1][..n] == ids[..n];
    } else {
      assert ids[..n] == ids;
    }
  }

  lemma {:induction false} SpacedDistinct(ids: seq<Id>)
    requires Spaced(ids)
    ensures Distinct(Recent(ids))
  {
    if ids != [] {
      var front, x := ids[..|ids| - 1], ids[|ids| - 1];
      SpacedDistinct(front);
      OneMorePass(front, x);
      assert ids == front + [x];
    }
  }

  // The last ids, as far back as the cache goes.
  lemma InRecent(ids: seq<Id>, a: nat)
    requires a <= |ids|
    ensures |ids| - a <= SEEN_CAP ==> forall k | a <= k < |ids| :: ids[k] in Recent(ids)
  {
    var drop := if |ids| > SEEN_CAP then |ids| - SEEN_CAP else 0;
    assert Recent(ids) == ids[drop..];
    assert |ids| - a <= SEEN_CAP ==> ids[a..] == ids[drop..][a - drop..];
    assert forall k | a <= k < |ids| :: ids[k] == ids[a..][k - a];
  }
}
