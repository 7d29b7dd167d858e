/** Whom a flood reaches (guest/mesh.ts): a frame goes over every wire but the one it came in
    on, and a node that has seen it drops it, however much of its hop budget is left. */
module Flood {
  import opened Ids
  import opened Gossip

  /** Who is wired to whom. */
  type Wires = map<Id, seq<Id>>

  function Peers(w: Wires, m: Id): seq<Id> { if m in w then w[m] else [] }

  function Except(ids: seq<Id>, from: Id): seq<Id> {
    if ids == [] then [] else
      Except(ids[..|ids| - 1], from) + if ids[|ids| - 1] == from then [] else [ids[|ids| - 1]]
  }

  /** One frame under way: its copies, and for each node it has reached the hop budget it had
      left on arrival. The originator counts as one hop before its peers. */
  datatype Flood = Flood(flight: seq<Copy>, left: map<Id, nat>)

  function Begun(w: Wires, gid: Id, origin: Id): Flood {
    Flood(Copies(gid, RELAY_TTL, origin, Peers(w, origin)), map[origin := RELAY_TTL + 1])
  }

  // The wires a copy is passed on over, none once its budget is spent.
  function Onward(w: Wires, c: Copy): seq<Id> { if c.ttl <= 1 then [] else Except(Peers(w, c.to), c.from) }

  function Arrive(f: Flood, w: Wires, i: nat): Flood
    requires i < |f.flight|
  {
    var c, rest := f.flight[i], Removed(f.flight, i);
    if c.to in f.left then Flood(rest, f.left)
    else Flood(rest + Copies(c.gid, if c.ttl > 0 then c.ttl - 1 else 0, c.to, Onward(w, c)), f.left[c.to := c.ttl])
  }

  // The copies that arrive, one after the other, each by its place among those in flight.
  ghost predicate Arrivable(f: Flood, w: Wires, order: seq<nat>)
    decreases |order|
  {
    order == [] || (order[0] < |f.flight| && Arrivable(Arrive(f, w, order[0]), w, order[1..]))
  }

  ghost function ArriveAll(f: Flood, w: Wires, order: seq<nat>): Flood
    requires Arrivable(f, w, order)
    decreases |order|
  {
    if order == [] then f else ArriveAll(Arrive(f, w, order[0]), w, order[1..])
  }

  // Everybody within so many hops.
  function Ball(w: Wires, origin: Id, hops: nat): set<Id> {
    if hops == 0 then {origin} else
      var near := Ball(w, origin, hops - 1);
      near + (set m, n | m in near && n in Peers(w, m) :: n)
  }

  lemma {:induction false} BallGrows(w: Wires, origin: Id, a: nat, b: nat)
    requires a <= b
    ensures Ball(w, origin, a) <= Ball(w, origin, b)
  {
    if a < b { BallGrows(w, origin, a, b - 1); }
  }

  lemma {:induction false} CopiesAre(gid: Id, ttl: nat, from: Id, targets: seq<Id>)
    ensures forall c | c in Copies(gid, ttl, from, targets) :: c.ttl == ttl && c.from == from && c.to in targets
    ensures forall n | n in targets :: Copy(gid, ttl, from, n) in Copies(gid, ttl, from, targets)
  {
    if targets != [] {
      var k := |targets| - 1;
      CopiesAre(gid, ttl, from, targets[..k]);
      assert targets == targets[..k] + [targets[k]];
    }
  }

  lemma {:induction false} ExceptAre(ids: seq<Id>, from: Id)
    ensures forall x :: x in Except(ids, from) <==> x in ids && x != from
  {
    if ids != [] {
      ExceptAre(ids[..|ids| - 1], from);
      assert ids == ids[..|ids| - 1] + [ids[|ids| - 1]];
    }
  }

  // ---- What holds in any order ----

  predicate Placed(w: Wires, origin: Id, c: Copy) {
    1 <= c.ttl <= RELAY_TTL && c.to in Ball(w, origin, RELAY_TTL + 1 - c.ttl)
  }

  // Copies and nodes are as many hops out as they have lost of the budget.
  ghost predicate InReach(f: Flood, w: Wires, origin: Id) { FlightInReach(f, w, origin) && LeftInReach(f, w, origin) }

  ghost predicate FlightInReach(f: Flood, w: Wires, origin: Id) { forall c | c in f.flight :: Placed(w, origin, c) }

  ghost predicate LeftInReach(f: Flood, w: Wires, origin: Id) {
    forall m | m in f.left :: 1 <= f.left[m] <= RELAY_TTL + 1 && m in Ball(w, origin, RELAY_TTL + 1 - f.left[m])
  }

  ghost predicate SentByReached(f: Flood) { forall c | c in f.flight :: c.from in f.left }

  // A peer of a reached node is reached too, or a copy is on its way, unless the budget is spent.
  ghost predicate OnItsWay(f: Flood, m: Id, n: Id)
    requires m in f.left
  {
    n in f.left || f.left[m] <= 1 || exists c :: c in f.flight && c.to == n && c.ttl == f.left[m] - 1
  }

  ghost predicate Spreading(f: Flood, w: Wires) {
    SentByReached(f) && forall m, n | m in f.left && n in Peers(w, m) :: OnItsWay(f, m, n)
  }

  lemma BegunHolds(w: Wires, gid: Id, origin: Id)
    ensures InReach(Begun(w, gid, origin), w, origin) && Spreading(Begun(w, gid, origin), w)
  {
    var f := Begun(w, gid, origin);
    CopiesAre(gid, RELAY_TTL, origin, Peers(w, origin));
    assert Ball(w, origin, 0) == {origin};
    forall c | c in f.flight ensures Placed(w, origin, c) { assert c.to in Ball(w, origin, 1); }
    forall n | n in Peers(w, origin) ensures OnItsWay(f, origin, n) {
      assert Copy(gid, RELAY_TTL, origin, n) in f.flight;
    }
  }

  lemma RemovedAre<T>(s: seq<T>, i: nat)
    requires i < |s|
    ensures forall x | x in Removed(s, i) :: x in s
    ensures forall x | x in s && x != s[i] :: x in Removed(s, i)
  {
    forall x | x in s && x != s[i] ensures x in Removed(s, i) {
      var k :| 0 <= k < |s| && s[k] == x;
      assert k < i ==> s[..i][k] == x;
      assert k > i ==> s[i + 1..][k - i - 1] == x;
    }
  }

  lemma ArriveInReach(f: Flood, w: Wires, origin: Id, i: nat)
    requires i < |f.flight| && InReach(f, w, origin)
    ensures InReach(Arrive(f, w, i), w, origin)
  {
    FlightStaysInReach(f, w, origin, i);
    LeftStaysInReach(f, w, origin, i);
  }

  lemma FlightStaysInReach(f: Flood, w: Wires, origin: Id, i: nat)
    requires i < |f.flight| && FlightInReach(f, w, origin)
    ensures FlightInReach(Arrive(f, w, i), w, origin)
  {
    var c := f.flight[i];
    RemovedAre(f.flight, i);
    assert Placed(w, origin, c);
    forall d | d in Copies(c.gid, c.ttl - 1, c.to, Onward(w, c)) ensures Placed(w, origin, d) {
      OnwardPlaced(w, origin, c, d);
    }
  }

  lemma LeftStaysInReach(f: Flood, w: Wires, origin: Id, i: nat)
    requires i < |f.flight| && InReach(f, w, origin)
    ensures LeftInReach(Arrive(f, w, i), w, origin)
  {
    assert f.flight[i] in f.flight && Placed(w, origin, f.flight[i]);
  }

  lemma OnwardPlaced(w: Wires, origin: Id, c: Copy, d: Copy)
    requires Placed(w, origin, c) && d in Copies(c.gid, c.ttl - 1, c.to, Onward(w, c))
    ensures Placed(w, origin, d)
  {
    ExceptAre(Peers(w, c.to), c.from);
    CopiesAre(c.gid, c.ttl - 1, c.to, Onward(w, c));
    assert d.to in Peers(w, c.to);
  }

  lemma ArriveSpreads(f: Flood, w: Wires, i: nat)
    requires i < |f.flight| && Spreading(f, w) && f.flight[i].ttl >= 1
    ensures Spreading(Arrive(f, w, i), w)
  {
    var c, g := f.flight[i], Arrive(f, w, i);
    RemovedAre(f.flight, i);
    ExceptAre(Peers(w, c.to), c.from);
    CopiesAre(c.gid, c.ttl - 1, c.to, Onward(w, c));
    assert c in f.flight;
    forall m, n | m in g.left && n in Peers(w, m) ensures OnItsWay(g, m, n) {
      if m in f.left { StillOnItsWay(f, w, i, m, n); } else { NewlyOnItsWay(f, w, i, n); }
    }
  }

  lemma StillOnItsWay(f: Flood, w: Wires, i: nat, m: Id, n: Id)
    requires i < |f.flight| && m in f.left && OnItsWay(f, m, n)
    ensures m in Arrive(f, w, i).left && OnItsWay(Arrive(f, w, i), m, n)
  {
    var g := Arrive(f, w, i);
    RemovedAre(f.flight, i);
    if n !in g.left && f.left[m] > 1 {
      var d :| d in f.flight && d.to == n && d.ttl == f.left[m] - 1;
      assert d in g.flight;
    }
  }

  lemma NewlyOnItsWay(f: Flood, w: Wires, i: nat, n: Id)
    requires i < |f.flight| && SentByReached(f) && f.flight[i].ttl >= 1
    requires f.flight[i].to !in f.left && n in Peers(w, f.flight[i].to)
    ensures OnItsWay(Arrive(f, w, i), f.flight[i].to, n)
  {
    var c, g := f.flight[i], Arrive(f, w, i);
    assert c in f.flight;
    ExceptAre(Peers(w, c.to), c.from);
    CopiesAre(c.gid, c.ttl - 1, c.to, Onward(w, c));
    if c.ttl > 1 && n != c.from { assert Copy(c.gid, c.ttl - 1, c.to, n) in g.flight; }
  }

  // ---- Shorter paths first ----

  ghost predicate ShortestFirst(f: Flood, w: Wires, order: seq<nat>)
    requires Arrivable(f, w, order)
    decreases |order|
  {
    order == [] ||
    (&& (forall c | c in f.flight :: c.ttl <= f.flight[order[0]].ttl)
     && ShortestFirst(Arrive(f, w, order[0]), w, order[1..]))
  }

  // Nobody has less of the budget left than any copy still to come, nor than its peers allow.
  ghost predicate Earliest(f: Flood, w: Wires) {
    && (forall m, c | m in f.left && c in f.flight :: f.left[m] >= c.ttl)
    && (forall m, n | m in f.left && n in Peers(w, m) && n in f.left :: f.left[n] + 1 >= f.left[m])
  }

  lemma ArriveEarliest(f: Flood, w: Wires, i: nat)
    requires i < |f.flight| && Spreading(f, w) && Earliest(f, w) && f.flight[i].ttl >= 1
    requires forall c | c in f.flight :: c.ttl <= f.flight[i].ttl
    ensures Earliest(Arrive(f, w, i), w)
  {
    LeftCoversFlight(f, w, i);
    LeftIsGradual(f, w, i);
  }

  lemma LeftCoversFlight(f: Flood, w: Wires, i: nat)
    requires i < |f.flight| && Earliest(f, w) && forall c | c in f.flight :: c.ttl <= f.flight[i].ttl
    requires f.flight[i].ttl >= 1
    ensures var g := Arrive(f, w, i); forall m, c | m in g.left && c in g.flight :: g.left[m] >= c.ttl
  {
    var c := f.flight[i];
    assert c in f.flight;
    RemovedAre(f.flight, i);
    CopiesAre(c.gid, c.ttl - 1, c.to, Onward(w, c));
  }

  lemma LeftIsGradual(f: Flood, w: Wires, i: nat)
    requires i < |f.flight| && Spreading(f, w) && Earliest(f, w)
    requires forall c | c in f.flight :: c.ttl <= f.flight[i].ttl
    ensures var g := Arrive(f, w, i);
            forall m, n | m in g.left && n in Peers(w, m) && n in g.left :: g.left[n] + 1 >= g.left[m]
  {
    var g := Arrive(f, w, i);
    assert f.flight[i] in f.flight;
    forall m, n | m in g.left && n in Peers(w, m) && n in g.left ensures g.left[n] + 1 >= g.left[m] {
      if m in f.left && n !in f.left { assert OnItsWay(f, m, n); }
    }
  }

  lemma {:induction false} RunReaches(f: Flood, w: Wires, origin: Id, order: seq<nat>)
    requires Arrivable(f, w, order) && InReach(f, w, origin) && Spreading(f, w)
    ensures var g := ArriveAll(f, w, order);
            InReach(g, w, origin) && Spreading(g, w) && forall m | m in f.left :: m in g.left && g.left[m] == f.left[m]
    ensures Earliest(f, w) && ShortestFirst(f, w, order) ==> Earliest(ArriveAll(f, w, order), w)
    decreases |order|
  {
    if order != [] {
      var g := Arrive(f, w, order[0]);
      assert Placed(w, origin, f.flight[order[0]]);
      ArriveInReach(f, w, origin, order[0]);
      ArriveSpreads(f, w, order[0]);
      if Earliest(f, w) && ShortestFirst(f, w, order) { ArriveEarliest(f, w, order[0]); }
      RunReaches(g, w, origin, order[1..]);
    }
  }

  lemma {:induction false} BallReached(f: Flood, w: Wires, origin: Id, hops: nat)
    requires f.flight == [] && Spreading(f, w) && Earliest(f, w) && hops <= RELAY_TTL
    requires origin in f.left && f.left[origin] == RELAY_TTL + 1
    ensures forall m | m in Ball(w, origin, hops) :: m in f.left && f.left[m] >= RELAY_TTL + 1 - hops
  {
    if hops > 0 {
      BallReached(f, w, origin, hops - 1);
      var near := Ball(w, origin, hops - 1);
      forall n | n in Ball(w, origin, hops) && n !in near ensures n in f.left && f.left[n] >= RELAY_TTL + 1 - hops {
        var m :| m in near && n in Peers(w, m);
        assert OnItsWay(f, m, n);
      }
    }
  }

  /** When nothing is lost and copies with more of the budget left arrive first, a flood over any
      wiring reaches exactly the nodes within four hops. */
  lemma FloodReaches(w: Wires, gid: Id, origin: Id, order: seq<nat>)
    requires Arrivable(Begun(w, gid, origin), w, order) && ShortestFirst(Begun(w, gid, origin), w, order)
    requires ArriveAll(Begun(w, gid, origin), w, order).flight == []
    ensures ArriveAll(Begun(w, gid, origin), w, order).left.Keys == Ball(w, origin, RELAY_TTL)
  {
    var f, g := Begun(w, gid, origin), ArriveAll(Begun(w, gid, origin), w, order);
    BegunHolds(w, gid, origin);
    BegunEarliest(w, gid, origin);
    RunReaches(f, w, origin, order);
    BallReached(g, w, origin, RELAY_TTL);
    NobodyBeyond(g, w, origin);
  }

  lemma BegunEarliest(w: Wires, gid: Id, origin: Id)
    ensures Earliest(Begun(w, gid, origin), w)
  {
    CopiesAre(gid, RELAY_TTL, origin, Peers(w, origin));
  }

  lemma NobodyBeyond(f: Flood, w: Wires, origin: Id)
    requires InReach(f, w, origin)
    ensures f.left.Keys <= Ball(w, origin, RELAY_TTL)
  {
    forall m | m in f.left ensures m in Ball(w, origin, RELAY_TTL) {
      BallGrows(w, origin, RELAY_TTL + 1 - f.left[m], RELAY_TTL);
    }
  }

  /** In any order it reaches all the originator's peers and nobody beyond four hops. */
  lemma FloodInAnyOrder(w: Wires, gid: Id, origin: Id, order: seq<nat>)
    requires Arrivable(Begun(w, gid, origin), w, order)
    requires ArriveAll(Begun(w, gid, origin), w, order).flight == []
    ensures var reached := ArriveAll(Begun(w, gid, origin), w, order).left.Keys;
            Ball(w, origin, 1) <= reached <= Ball(w, origin, RELAY_TTL)
  {
    var f, g := Begun(w, gid, origin), ArriveAll(Begun(w, gid, origin), w, order);
    BegunHolds(w, gid, origin);
    RunReaches(f, w, origin, order);
    assert Ball(w, origin, 0) == {origin};
    forall n | n in Peers(w, origin) ensures n in g.left { assert OnItsWay(g, origin, n); }
    NobodyBeyond(g, w, origin);
  }

  // ---- Where it falls short ----

  // The origin is a peer of x, and three hops round a detour from it; y is behind x.
  function Detour(): Wires {
    map["o" := ["p", "x"], "p" := ["o", "q"], "q" := ["p", "r"], "r" := ["q", "x"], "x" := ["o", "r", "y"],
      "y" := ["x"]]
  }

  lemma OneCopy(gid: Id, ttl: nat, from: Id, n: Id)
    ensures Copies(gid, ttl, from, [n]) == [Copy(gid, ttl, from, n)]
  {
    assert [n][..0] == [];
  }

  lemma ExceptFirst(a: Id, b: Id)
    requires a != b
    ensures Except([a, b], a) == [b]
  {
    var none: seq<Id> := [];
    assert [a, b][..1] == [a] && [a][..0] == none;
    assert Except(none, a) == none && Except([a], a) == none;
  }

  // One hop of the detour: the copy to `at` turns into one to the node behind it.
  lemma Hop(f: Flood, gid: Id, ttl: nat, from: Id, at: Id, next: Id, other: Copy, i: nat)
    requires at in Detour() && Detour()[at] == [from, next] && from != next && at !in f.left && ttl > 1 && i <= 1
    requires f.flight == if i == 0 then [Copy(gid, ttl, from, at), other] else [other, Copy(gid, ttl, from, at)]
    ensures Arrive(f, Detour(), i) == Flood([other, Copy(gid, ttl - 1, at, next)], f.left[at := ttl])
  {
    ExceptFirst(from, next);
    OneCopy(gid, ttl - 1, at, next);
    assert Removed(f.flight, i) == [other];
  }

  // A copy that is dropped, or too spent to be passed on.
  lemma Stops(f: Flood, i: nat, c: Copy, rest: seq<Copy>)
    requires i < |f.flight| && f.flight[i] == c && Removed(f.flight, i) == rest && (c.to in f.left || c.ttl == 1)
    ensures Arrive(f, Detour(), i) == Flood(rest, if c.to in f.left then f.left else f.left[c.to := 1])
  {
    assert rest + Copies(c.gid, 0, c.to, []) == rest;
  }

  // The copies of the run, in order, lead from f to g.
  ghost predicate Goes(f: Flood, w: Wires, order: seq<nat>, g: Flood) {
    Arrivable(f, w, order) && ArriveAll(f, w, order) == g
  }

  lemma Then(f: Flood, w: Wires, i: nat, order: seq<nat>, g: Flood)
    requires i < |f.flight| && Goes(Arrive(f, w, i), w, order, g)
    ensures Goes(f, w, [i] + order, g)
  {
    assert ([i] + order)[1..] == order;
  }

  // The straight copy waits while the other goes round.
  function Stage(gid: Id, k: nat): Flood
    requires k <= 5
  {
    var straight := Copy(gid, 4, "o", "x");
    if k == 0 then Flood([Copy(gid, 4, "o", "p"), straight], map["o" := 5])
    else if k == 1 then Flood([straight, Copy(gid, 3, "p", "q")], map["o" := 5, "p" := 4])
    else if k == 2 then Flood([straight, Copy(gid, 2, "q", "r")], map["o" := 5, "p" := 4, "q" := 3])
    else if k == 3 then Flood([straight, Copy(gid, 1, "r", "x")], map["o" := 5, "p" := 4, "q" := 3, "r" := 2])
    else Flood(if k == 4 then [straight] else [], map["o" := 5, "p" := 4, "q" := 3, "r" := 2, "x" := 1])
  }

  lemma FirstStage(gid: Id)
    ensures Begun(Detour(), gid, "o") == Stage(gid, 0)
  {
    assert ["p", "x"][..1] == ["p"];
    OneCopy(gid, 4, "o", "p");
  }

  lemma RoundTheDetour(gid: Id)
    ensures Arrive(Stage(gid, 0), Detour(), 0) == Stage(gid, 1)
    ensures Arrive(Stage(gid, 1), Detour(), 1) == Stage(gid, 2)
    ensures Arrive(Stage(gid, 2), Detour(), 1) == Stage(gid, 3)
  {
    var straight := Copy(gid, 4, "o", "x");
    Hop(Stage(gid, 0), gid, 4, "o", "p", "q", straight, 0);
    Hop(Stage(gid, 1), gid, 3, "p", "q", "r", straight, 1);
    Hop(Stage(gid, 2), gid, 2, "q", "r", "x", straight, 1);
  }

  lemma BackAtX(gid: Id)
    ensures Arrive(Stage(gid, 3), Detour(), 1) == Stage(gid, 4)
    ensures Arrive(Stage(gid, 4), Detour(), 0) == Stage(gid, 5)
  {
    var straight, spent := Copy(gid, 4, "o", "x"), Copy(gid, 1, "r", "x");
    Stops(Stage(gid, 3), 1, spent, [straight]);
    Stops(Stage(gid, 4), 0, straight, []);
  }

  lemma LastTwo(gid: Id)
    ensures Goes(Stage(gid, 3), Detour(), [1, 0], Stage(gid, 5))
  {
    BackAtX(gid);
    var none: seq<nat> := [];
    assert Goes(Stage(gid, 5), Detour(), none, Stage(gid, 5));
    Then(Stage(gid, 4), Detour(), 0, none, Stage(gid, 5));
    assert [0] + none == [0] && [1] + [0] == [1, 0];
    Then(Stage(gid, 3), Detour(), 1, [0], Stage(gid, 5));
  }

  lemma FirstThree(gid: Id, order: seq<nat>)
    requires Goes(Stage(gid, 3), Detour(), order, Stage(gid, 5))
    ensures Goes(Stage(gid, 0), Detour(), [0] + ([1] + ([1] + order)), Stage(gid, 5))
  {
    RoundTheDetour(gid);
    Then(Stage(gid, 2), Detour(), 1, order, Stage(gid, 5));
    Then(Stage(gid, 1), Detour(), 1, [1] + order, Stage(gid, 5));
    Then(Stage(gid, 0), Detour(), 0, [1] + ([1] + order), Stage(gid, 5));
  }

  /** If the copy round the detour comes first, x has no budget left to pass it on, and drops the
      one that came straight: y, two hops away, is never reached. */
  lemma DetourStarves(gid: Id) returns (g: Flood)
    ensures Goes(Begun(Detour(), gid, "o"), Detour(), [0, 1, 1, 1, 0], g)
    ensures g.flight == [] && "y" in Ball(Detour(), "o", 2) && "y" !in g.left
  {
    DetourGoes(gid);
    BehindX();
    LeftOut(gid);
    g := Stage(gid, 5);
  }

  lemma DetourGoes(gid: Id)
    ensures Goes(Begun(Detour(), gid, "o"), Detour(), [0, 1, 1, 1, 0], Stage(gid, 5))
  {
    LastTwo(gid);
    FirstThree(gid, [1, 0]);
    FirstStage(gid);
    assert [0] + ([1] + ([1] + [1, 0])) == [0, 1, 1, 1, 0];
  }

  lemma LeftOut(gid: Id)
    ensures Stage(gid, 5).flight == [] && "y" !in Stage(gid, 5).left
  {}

  lemma BehindX()
    ensures "y" in Ball(Detour(), "o", 2)
  {
    assert Ball(Detour(), "o", 0) == {"o"};
    assert "x" in Peers(Detour(), "o") && "x" in Ball(Detour(), "o", 1);
    assert "y" in Peers(Detour(), "x");
  }

  // ---- The flood in the net ----

  /** A net in which this one frame is under way. */
  ghost predicate Carries(n: Net, f: Flood, gid: Id) {
    && n.flight == f.flight && (forall c | c in f.flight :: c.gid == gid)
    && forall m :: gid in SeenBy(n.seen, m) <==> m in f.left
  }

  /** Its arrivals are the net's deliveries, with the frame passed on over the other wires. */
  lemma ArrivalIsDelivery(n: Net, f: Flood, w: Wires, gid: Id, i: nat)
    requires Carries(n, f, gid) && i < |f.flight| && |Onward(w, f.flight[i])| <= ROOM_WIRE_LIMIT && f.flight[i].ttl >= 1
    ensures Legal(n, Deliver(i, Onward(w, f.flight[i])))
    ensures Carries(Step(n, Deliver(i, Onward(w, f.flight[i]))), Arrive(f, w, i), gid)
  {
    var c := f.flight[i];
    RemovedAre(f.flight, i);
    assert c in f.flight;
    CopiesCarry(gid, c.ttl - 1, c.to, Onward(w, c));
    if c.to !in f.left { MarkedHas(SeenBy(n.seen, c.to), gid); }
    if c.ttl <= 1 { assert Removed(f.flight, i) + Copies(c.gid, c.ttl - 1, c.to, []) == Removed(f.flight, i); }
  }

  lemma MarkedHas(order: seq<Id>, gid: Id)
    ensures gid in Marked(order, gid)
  {
    var o := order + [gid];
    assert o[|o| - 1] == gid;
    if |o| > SEEN_CAP { assert o[|o| - SEEN_CAP..][SEEN_CAP - 1] == gid; }
  }
}
