/** The floors of the reach table (shared/lan-relay.ts): which adverts it takes up, over any
    run. Only an advert changes them; expiry, pruning and forgetting a member leave them alone. */
module ReachFloors {
  import opened Ids
  import opened Dicts
  import opened TokenBucket

  /** An advert as far as its floor is concerned. */
  datatype Stamped = Stamped(memberId: Id, at: int)

  predicate Takes(floor: Dict<int>, a: Stamped) {
    IsMemberId(a.memberId) && (a.memberId in floor.at ==> a.at > floor.at[a.memberId])
  }

  function Next(floor: Dict<int>, cap: nat, a: Stamped): Dict<int> {
    if Takes(floor, a) then floor.Set(a.memberId, a.at).Newest(cap) else floor
  }

  function After(floor: Dict<int>, cap: nat, run: seq<Stamped>): Dict<int> {
    if run == [] then floor else Next(After(floor, cap, run[..|run| - 1]), cap, run[|run| - 1])
  }

  ghost predicate From(run: seq<Stamped>, who: set<Id>) { forall a | a in run :: a.memberId in who }

  // An advert is taken up, and after more adverts once more.
  predicate TakenTwice(cap: nat, front: seq<Stamped>, a: Stamped, mid: seq<Stamped>) {
    Takes(After(Empty(), cap, front), a) && Takes(After(Empty(), cap, front + [a] + mid), a)
  }

  ghost predicate ReplayFree(cap: nat, who: set<Id>) {
    forall front, a, mid | From(front + [a] + mid, who) :: !TakenTwice(cap, front, a, mid)
  }

  // While the members fit, a floor is kept and only rises.
  lemma {:induction false} FloorsHold(floor: Dict<int>, cap: nat, run: seq<Stamped>, who: set<Id>)
    requires floor.Valid() && floor.at.Keys <= who && |who| <= cap && From(run, who)
    ensures var g := After(floor, cap, run);
            g.Valid() && g.at.Keys <= who && forall m | m in floor.at :: m in g.at && floor.at[m] <= g.at[m]
  {
    if run != [] {
      var front, a := run[..|run| - 1], run[|run| - 1];
      assert a in run;
      FloorsHold(floor, cap, front, who);
      var f := After(floor, cap, front);
      SetValid(f, a.memberId, a.at);
      KeysBounded(f.Set(a.memberId, a.at), who, cap);
    }
  }

  lemma {:induction false} AfterJoin(floor: Dict<int>, cap: nat, a: seq<Stamped>, b: seq<Stamped>)
    ensures After(floor, cap, a + b) == After(After(floor, cap, a), cap, b)
  {
    if b == [] {
      assert a + b == a;
    } else {
      assert (a + b)[..|a + b| - 1] == a + b[..|b| - 1];
      AfterJoin(floor, cap, a, b[..|b| - 1]);
    }
  }

  lemma AfterOne(floor: Dict<int>, cap: nat, a: Stamped)
    ensures After(floor, cap, [a]) == Next(floor, cap, a)
  {
    assert [a][..|[a]| - 1] == [];
  }

  lemma TakenOnce(cap: nat, front: seq<Stamped>, a: Stamped, mid: seq<Stamped>, who: set<Id>)
    requires From(front + [a] + mid, who) && |who| <= cap
    ensures !TakenTwice(cap, front, a, mid)
  {
    var all := front + [a] + mid;
    assert forall x | x in front || x in mid || x == a :: x in all;
    var f := After(Empty(), cap, front);
    FloorsHold(Empty(), cap, front, who);
    AfterJoin(Empty(), cap, front + [a], mid);
    AfterJoin(Empty(), cap, front, [a]);
    AfterOne(f, cap, a);
    if Takes(f, a) {
      SetValid(f, a.memberId, a.at);
      KeysBounded(f.Set(a.memberId, a.at), who, cap);
      FloorsHold(Next(f, cap, a), cap, mid, who);
    }
  }

  function Everyone(ids: seq<Id>): seq<Stamped> {
    if ids == [] then [] else Everyone(ids[..|ids| - 1]) + [Stamped(ids[|ids| - 1], 1)]
  }

  lemma OneMore(floor: Dict<int>, cap: nat, m: Id)
    requires floor.Valid() && |floor.keys| <= cap && IsMemberId(m) && m !in floor.keys
    ensures Takes(floor, Stamped(m, 1))
    ensures var g := Next(floor, cap, Stamped(m, 1));
            g.Valid() && g.keys == if |floor.keys| < cap then floor.keys + [m] else (floor.keys + [m])[1..]
  {
    assert m !in Elements(floor.keys);
    SetValid(floor, m, 1);
    NewestValid(floor.Set(m, 1), cap);
  }

  lemma {:induction false} EveryoneFloors(cap: nat, ids: seq<Id>)
    requires Distinct(ids) && |ids| <= cap && forall m | m in ids :: IsMemberId(m)
    ensures var g := After(Empty(), cap, Everyone(ids)); g.Valid() && g.keys == ids
  {
    if ids != [] {
      var front, last := ids[..|ids| - 1], ids[|ids| - 1];
      assert ids == front + [last];
      PrefixDistinct(front, last);
      EveryoneFloors(cap, front);
      assert Everyone(ids)[..|Everyone(ids)| - 1] == Everyone(front);
      OneMore(After(Empty(), cap, Everyone(front)), cap, last);
    }
  }

  lemma {:induction false} EveryoneFrom(ids: seq<Id>)
    ensures forall a | a in Everyone(ids) :: a.memberId in Elements(ids)
    ensures ids != [] ==> Everyone(ids) != [] && Everyone(ids)[0] == Stamped(ids[0], 1)
  {
    if ids != [] {
      EveryoneFrom(ids[..|ids| - 1]);
      assert ids == ids[..|ids| - 1] + [ids[|ids| - 1]];
    }
  }

  lemma AllButFirst(cap: nat, ids: seq<Id>)
    requires Distinct(ids) && |ids| == cap + 1 && forall m | m in ids :: IsMemberId(m)
    ensures var g := After(Empty(), cap, Everyone(ids)); g.Valid() && g.keys == ids[1..]
  {
    var front, last := ids[..cap], ids[cap];
    assert ids == front + [last];
    PrefixDistinct(front, last);
    assert last in ids && forall m | m in front :: m in ids;
    EveryoneFloors(cap, front);
    EveryoneLast(cap, front, last);
    OneMore(After(Empty(), cap, Everyone(front)), cap, last);
  }

  lemma EveryoneLast(cap: nat, front: seq<Id>, last: Id)
    ensures After(Empty(), cap, Everyone(front + [last]))
            == Next(After(Empty(), cap, Everyone(front)), cap, Stamped(last, 1))
  {
    var ids := front + [last];
    assert ids[..|ids| - 1] == front;
    assert Everyone(ids)[..|Everyone(ids)| - 1] == Everyone(front);
  }

  // One member more than there are floors flushes the first one's.
  lemma FlushedFloor(cap: nat, ids: seq<Id>)
    requires Distinct(ids) && |ids| == cap + 1 && forall m | m in ids :: IsMemberId(m)
    ensures Takes(After(Empty(), cap, Everyone(ids)), Stamped(ids[0], 1))
  {
    AllButFirst(cap, ids);
    var g := After(Empty(), cap, Everyone(ids));
    assert ids[0] !in g.keys;
    assert ids[0] !in Elements(g.keys);
  }

  /** Among the adverts of a set of members none is ever taken up twice, whatever comes in
      between, if and only if there are no more of them than the table has floors. */
  lemma AdvertOnceIff(cap: nat, who: set<Id>)
    requires forall m | m in who :: IsMemberId(m)
    ensures ReplayFree(cap, who) <==> |who| <= cap
  {
    if |who| <= cap {
      forall front, a, mid | From(front + [a] + mid, who) ensures !TakenTwice(cap, front, a, mid) {
        TakenOnce(cap, front, a, mid, who);
      }
    } else {
      var ids := PickDistinct(who, cap + 1);
      assert forall m | m in ids :: m in Elements(ids);
      FlushedFloor(cap, ids);
      EveryoneFrom(ids);
      var run := Everyone(ids);
      assert [] + [run[0]] + run[1..] == run;
      assert From([] + [run[0]] + run[1..], who);
      assert TakenTwice(cap, [], run[0], run[1..]);
    }
  }
}
