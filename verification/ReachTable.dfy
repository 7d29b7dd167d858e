/** The canonical reach list (shared/lan-protocol.ts) and the table of reachability
    adverts (LanReachTable of shared/lan-relay.ts). */
module ReachTable {
  import opened Ids
  import opened Dicts
  import opened TokenBucket
  import opened Relay
  import ReachFloors

  const MAX_LAN_REACH := 8
  const MAX_REACH_SCAN := 256

  function Take<T>(s: seq<T>, n: nat): seq<T> { if |s| > n then s[..n] else s }

  ghost function Canonical(v: seq<string>): seq<Id> {
    Take(Sorted(set e | e in Take(v, MAX_REACH_SCAN) && IsMemberId(e)), MAX_LAN_REACH)
  }

  /** What survives normalisation: the listed ids with fewer than eight listed ids before
      them. Entries that are not strings drop out like any malformed id. */
  lemma CanonicalElements(v: seq<string>, x: Id)
    ensures var ids := set e | e in Take(v, MAX_REACH_SCAN) && IsMemberId(e);
            x in Canonical(v) <==> x in ids && |Below(ids, x)| < MAX_LAN_REACH
  {
    var ids := set e | e in Take(v, MAX_REACH_SCAN) && IsMemberId(e);
    TakeSorted(ids, MAX_LAN_REACH, x);
    assert Canonical(v) == Sorted(ids)[..if MAX_LAN_REACH < |ids| then MAX_LAN_REACH else |ids|];
  }

  lemma {:induction false} MemberIdNotEmpty(e: Id)
    ensures IsMemberId(e) ==> Less("", e)
  {}

  ghost predicate InCanonicalForm(v: seq<string>) {
    |v| <= MAX_LAN_REACH && Ascending(v) && forall e | e in v :: IsMemberId(e)
  }

  /** A list is its own normal form exactly when it is short, ascending and well formed;
      normalising twice changes nothing. */
  lemma CanonicalFixpoint(v: seq<string>)
    ensures InCanonicalForm(Canonical(v))
    ensures Canonical(v) == v <==> InCanonicalForm(v)
    ensures Canonical(Canonical(v)) == Canonical(v)
  {
    CanonicalInForm(v);
    if InCanonicalForm(v) { FormIsCanonical(v); }
    FormIsCanonical(Canonical(v));
  }

  lemma CanonicalInForm(v: seq<string>)
    ensures InCanonicalForm(Canonical(v))
  {
    var ids := set e | e in Take(v, MAX_REACH_SCAN) && IsMemberId(e);
    var r := Sorted(ids);
    assert forall e | e in Canonical(v) :: e in r;
  }

  lemma FormIsCanonical(v: seq<string>)
    requires InCanonicalForm(v)
    ensures Canonical(v) == v
  {
    var ids := set e | e in Take(v, MAX_REACH_SCAN) && IsMemberId(e);
    AscendingUnique(Sorted(ids), v);
  }

  /** isNormalizedReach: one scan, no allocation. By CanonicalFixpoint it decides whether
      normalising would change the list. */
  method IsNormalizedReach(reach: seq<string>) returns (ok: bool)
    ensures ok <==> InCanonicalForm(reach)
  {
    if |reach| > MAX_LAN_REACH { return false; }
    var prev := "";
    for i := 0 to |reach|
      invariant prev == if i == 0 then "" else reach[i - 1]
      invariant Ascending(reach[..i])
      invariant forall k | 0 <= k < i :: IsMemberId(reach[k])
    {
      if !IsMemberId(reach[i]) { return false; }
      MemberIdNotEmpty(reach[i]);
      if !Less(prev, reach[i]) { return false; }
      ExtendAscending(reach[..i], reach[i]);
      assert reach[..i + 1] == reach[..i] + [reach[i]];
      prev := reach[i];
    }
    assert reach[..|reach|] == reach;
    return true;
  }

  // ---- The advert table ----

  datatype Input = Input(memberId: Id, at: int, relay: bool, peers: seq<string>)

  function Expired(a: Advert, now: int, ttlMs: nat): bool { now - a.seenAt > ttlMs }

  // The keys whose adverts are fresh, in order.
  function LiveKeys(keys: seq<Id>, at: map<Id, Advert>, now: int, ttlMs: nat): seq<Id> {
    if keys == [] then [] else
      (if keys[0] in at && !Expired(at[keys[0]], now, ttlMs) then [keys[0]] else [])
        + LiveKeys(keys[1..], at, now, ttlMs)
  }

  function Live(d: Dict<Advert>, now: int, ttlMs: nat): Dict<Advert> {
    Dict(LiveKeys(d.keys, d.at, now, ttlMs), map k | k in d.at && !Expired(d.at[k], now, ttlMs) :: d.at[k])
  }

  function Outsiders(keys: seq<Id>, admitted: set<Id>): seq<Id> {
    if keys == [] then [] else (if keys[0] in admitted then [] else [keys[0]]) + Outsiders(keys[1..], admitted)
  }

  function Insiders(keys: seq<Id>, admitted: set<Id>): seq<Id> {
    if keys == [] then [] else (if keys[0] in admitted then [keys[0]] else []) + Insiders(keys[1..], admitted)
  }

  // In which order adverts have to go: members that are not admitted, oldest first, and
  // only then admitted ones, oldest first.
  function Queue(keys: seq<Id>, admitted: set<Id>): seq<Id> { Outsiders(keys, admitted) + Insiders(keys, admitted) }

  lemma {:induction false} QueueHas(keys: seq<Id>, admitted: set<Id>)
    ensures |Queue(keys, admitted)| == |keys| && Elements(Queue(keys, admitted)) == Elements(keys)
    ensures forall k | k in Outsiders(keys, admitted) :: k in keys && k !in admitted
    ensures forall k | k in Insiders(keys, admitted) :: k in keys && k in admitted
    ensures Outsiders(keys, admitted) == [] ==> Insiders(keys, admitted) == keys
  {
    if keys != [] {
      QueueHas(keys[1..], admitted);
      assert keys == [keys[0]] + keys[1..];
      var out, ins := Outsiders(keys[1..], admitted), Insiders(keys[1..], admitted);
      assert forall k :: k in Queue(keys, admitted) <==> k == keys[0] || k in out || k in ins;
      assert forall k :: k in keys[1..] <==> k in Elements(Queue(keys[1..], admitted));
    }
  }

  // The store down to its cap, one victim at a time.
  function Trimmed(d: Dict<Advert>, admitted: set<Id>, cap: nat): Dict<Advert>
    requires d.Valid()
    decreases |d.keys|
  {
    if |d.keys| <= cap then d else
      assert Queue(d.keys, admitted) != [] by { QueueHas(d.keys, admitted); }
      var victim := Queue(d.keys, admitted)[0];
      VictimGoes(d, admitted);
      Trimmed(d.Delete(victim), admitted, cap)
  }

  // What pruneStore leaves.
  function Bounded(d: Dict<Advert>, now: int, ttlMs: nat, admitted: set<Id>, cap: nat): Dict<Advert>
    requires d.Valid()
  {
    LiveValid(d, now, ttlMs);
    if |d.keys| <= cap then d else Trimmed(Live(d, now, ttlMs), admitted, cap)
  }

  lemma {:induction false} LiveKeysAre(keys: seq<Id>, at: map<Id, Advert>, now: int, ttlMs: nat)
    ensures forall k :: k in LiveKeys(keys, at, now, ttlMs) <==> k in keys && k in at && !Expired(at[k], now, ttlMs)
    ensures Distinct(keys) ==> Distinct(LiveKeys(keys, at, now, ttlMs))
    ensures |LiveKeys(keys, at, now, ttlMs)| <= |keys|
  {
    if keys != [] {
      LiveKeysAre(keys[1..], at, now, ttlMs);
      assert keys == [keys[0]] + keys[1..];
      var r, rest := LiveKeys(keys, at, now, ttlMs), LiveKeys(keys[1..], at, now, ttlMs);
      if keys[0] in at && !Expired(at[keys[0]], now, ttlMs) { assert r[1..] == rest; } else { assert r == rest; }
    }
  }

  lemma LiveValid(d: Dict<Advert>, now: int, ttlMs: nat)
    requires d.Valid()
    ensures Live(d, now, ttlMs).Valid()
  {
    LiveKeysAre(d.keys, d.at, now, ttlMs);
    KeysAreElements(d);
  }

  // The first in the queue is a key; without it the queue is the rest of the queue.
  lemma VictimGoes(d: Dict<Advert>, admitted: set<Id>)
    requires d.Valid() && d.keys != []
    ensures var q := Queue(d.keys, admitted);
            && q != [] && q[0] in d.at && d.Delete(q[0]).Valid() && |d.Delete(q[0]).keys| == |d.keys| - 1
            && Queue(d.Delete(q[0]).keys, admitted) == q[1..]
  {
    QueueHas(d.keys, admitted);
    var q := Queue(d.keys, admitted);
    KeysAreElements(d);
    assert q[0] in Elements(q);
    DeleteValid(d, q[0]);
    QueueWithout(d.keys, admitted);
    QueueHas(d.Delete(q[0]).keys, admitted);
  }

  lemma {:induction false} QueueWithout(keys: seq<Id>, admitted: set<Id>)
    requires Distinct(keys) && keys != []
    ensures var q := Queue(keys, admitted);
            q != [] && Queue(Without(keys, q[0]), admitted) == q[1..]
  {
    QueueHas(keys, admitted);
    var out, ins := Outsiders(keys, admitted), Insiders(keys, admitted);
    if out == [] {
      WithoutAbsent(keys[1..], keys[0]);
      QueueHas(keys[1..], admitted);
      assert Outsiders(keys[1..], admitted) == [];
      assert ins == keys && Without(keys, keys[0]) == keys[1..];
    } else {
      OutsidersWithout(keys, admitted);
      TailOfSum(out, ins);
    }
  }

  lemma TailOfSum(a: seq<Id>, b: seq<Id>)
    requires a != []
    ensures (a + b)[0] == a[0] && (a + b)[1..] == a[1..] + b
  {}

  lemma WithoutAbsent(s: seq<Id>, k: Id)
    requires k !in s
    ensures Without(s, k) == s
  {
    WithoutKeeps(s, k);
  }

  lemma {:induction false} OutsidersWithout(keys: seq<Id>, admitted: set<Id>)
    requires Distinct(keys) && Outsiders(keys, admitted) != []
    ensures var out := Outsiders(keys, admitted);
            && Outsiders(Without(keys, out[0]), admitted) == out[1..]
            && Insiders(Without(keys, out[0]), admitted) == Insiders(keys, admitted)
  {
    var out := Outsiders(keys, admitted);
    var w := Without(keys, out[0]);
    QueueHas(keys, admitted);
    if keys[0] in admitted {
      assert out == Outsiders(keys[1..], admitted);
      OutsidersWithout(keys[1..], admitted);
      assert keys[0] != out[0] by { assert out[0] in out; }
      assert w[1..] == Without(keys[1..], out[0]) && w[0] == keys[0];
    } else {
      WithoutAbsent(keys[1..], keys[0]);
      assert w == keys[1..];
    }
  }

  /** Over the cap exactly `cap` adverts stay, unchanged, and those that went were the first
      in the queue. */
  lemma {:induction false} TrimmedIs(d: Dict<Advert>, admitted: set<Id>, cap: nat)
    requires d.Valid() && |d.keys| > cap
    ensures var r := Trimmed(d, admitted, cap);
            && r.Valid() && |r.keys| == cap
            && (forall k | k in r.at :: k in d.at && r.at[k] == d.at[k])
            && |Queue(d.keys, admitted)| == |d.keys|
            && Queue(r.keys, admitted) == Queue(d.keys, admitted)[|d.keys| - cap..]
    decreases |d.keys|
  {
    var e := OneVictim(d, admitted, cap);
    if |e.keys| > cap { TrimmedIs(e, admitted, cap); }
    Later(Queue(d.keys, admitted), |d.keys| - cap);
  }

  lemma OneVictim(d: Dict<Advert>, admitted: set<Id>, cap: nat) returns (e: Dict<Advert>)
    requires d.Valid() && |d.keys| > cap
    ensures e.Valid() && |e.keys| == |d.keys| - 1 && Trimmed(d, admitted, cap) == Trimmed(e, admitted, cap)
    ensures |Queue(d.keys, admitted)| == |d.keys| && Queue(e.keys, admitted) == Queue(d.keys, admitted)[1..]
    ensures forall k | k in e.at :: k in d.at && e.at[k] == d.at[k]
  {
    QueueHas(d.keys, admitted);
    VictimGoes(d, admitted);
    e := d.Delete(Queue(d.keys, admitted)[0]);
  }

  lemma Later(q: seq<Id>, n: nat)
    requires 0 < n <= |q|
    ensures q[1..][n - 1..] == q[n..]
  {}

  /** Who is left: everybody while the store fits; then the fresh, if they fit; and else the
      last `cap` of the queue of the fresh. */
  lemma KeptIff(d: Dict<Advert>, now: int, ttlMs: nat, admitted: set<Id>, cap: nat, k: Id)
    requires d.Valid()
    ensures var r, live := Bounded(d, now, ttlMs, admitted, cap), Live(d, now, ttlMs);
            && |Queue(live.keys, admitted)| == |live.keys|
            && (k in r.at <==> if |d.keys| <= cap then k in d.at
                               else if |live.keys| <= cap then k in d.at && now - d.at[k].seenAt <= ttlMs
                               else k in Queue(live.keys, admitted)[|live.keys| - cap..])
            && (k in r.at ==> k in d.at && r.at[k] == d.at[k])
  {
    var live := Live(d, now, ttlMs);
    LiveValid(d, now, ttlMs);
    QueueHas(live.keys, admitted);
    if |d.keys| > cap && |live.keys| > cap {
      TrimmedIs(live, admitted, cap);
      var r := Trimmed(live, admitted, cap);
      QueueHas(r.keys, admitted);
      KeysAreElements(r);
      assert k in r.keys <==> k in Elements(Queue(r.keys, admitted));
    }
  }

  /** A fresh advert of an admitted member goes only when nothing but admitted members' fresh
      adverts are left. */
  lemma AdmittedGoLast(d: Dict<Advert>, now: int, ttlMs: nat, admitted: set<Id>, cap: nat, k: Id, j: Id)
    requires d.Valid() && k in d.at && k in admitted && !Expired(d.at[k], now, ttlMs)
    requires k !in Bounded(d, now, ttlMs, admitted, cap).at && j in Bounded(d, now, ttlMs, admitted, cap).at
    ensures j in admitted
  {
    var live := Live(d, now, ttlMs);
    KeptIff(d, now, ttlMs, admitted, cap, k);
    KeptIff(d, now, ttlMs, admitted, cap, j);
    LiveValid(d, now, ttlMs);
    QueueHas(live.keys, admitted);
    KeysAreElements(live);
    assert k in live.keys;
    assert k in Elements(Queue(live.keys, admitted));
    InsidersLast(live.keys, admitted, k, j, |live.keys| - cap);
  }

  lemma InsidersLast(keys: seq<Id>, admitted: set<Id>, k: Id, j: Id, n: nat)
    requires n <= |Queue(keys, admitted)| && k in Queue(keys, admitted) && k in admitted
    requires k !in Queue(keys, admitted)[n..] && j in Queue(keys, admitted)[n..]
    ensures j in admitted
  {
    var q := Queue(keys, admitted);
    var i :| 0 <= i < |q| && q[i] == k;
    var m :| n <= m < |q| && q[m] == j;
    NotInTail(q, k, i, n);
    PlaceInQueue(keys, admitted, i);
    PlaceInQueue(keys, admitted, m);
  }

  lemma PlaceInQueue(keys: seq<Id>, admitted: set<Id>, i: nat)
    requires i < |Queue(keys, admitted)|
    ensures Queue(keys, admitted)[i] in admitted <==> i >= |Outsiders(keys, admitted)|
  {
    QueueHas(keys, admitted);
    var out, ins := Outsiders(keys, admitted), Insiders(keys, admitted);
    assert Queue(keys, admitted)[i] in if i < |out| then out else ins;
  }

  lemma NotInTail(q: seq<Id>, k: Id, i: nat, n: nat)
    requires i < |q| && n <= |q| && q[i] == k && k !in q[n..]
    ensures i < n
  {}

  /** A member that is new to a full store gets in, if it is admitted; if not, it does unless
      the fresh adverts of admitted members fill the store. */
  lemma NewcomerKeptIff(d: Dict<Advert>, now: int, ttlMs: nat, admitted: set<Id>, cap: nat, k: Id, a: Advert)
    requires d.Valid() && |d.keys| <= cap && k !in d.at && !Expired(a, now, ttlMs) && cap > 0
    ensures d.Set(k, a).Valid()
    ensures k in Bounded(d.Set(k, a), now, ttlMs, admitted, cap).at <==>
            k in admitted || |Insiders(LiveKeys(d.keys, d.at, now, ttlMs), admitted)| < cap
  {
    var e := d.Set(k, a);
    SetValid(d, k, a);
    KeptIff(e, now, ttlMs, admitted, cap, k);
    var fresher, live := LiveKeys(d.keys, d.at, now, ttlMs), LiveKeys(e.keys, e.at, now, ttlMs);
    LiveKeysSame(d.keys, d.at, e.at, k, now, ttlMs);
    LiveKeysAppend(d.keys, k, e.at, now, ttlMs);
    LiveKeysAre(d.keys, d.at, now, ttlMs);
    QueueHas(fresher, admitted);
    KeysAreElements(d);
    assert live == fresher + [k];
    LastInQueue(fresher, k, admitted);
    QueueHas(live, admitted);
  }

  // Where the newest key stands in the queue.
  lemma LastInQueue(keys: seq<Id>, k: Id, admitted: set<Id>)
    requires k !in keys
    ensures var q, n := Queue(keys + [k], admitted), |keys|;
            |q| == n + 1 && (k in q[1..] <==> n > 0 && (k in admitted || |Outsiders(keys, admitted)| > 0))
            && |Outsiders(keys, admitted)| + |Insiders(keys, admitted)| == n
            && (n == 0 ==> q == [k])
  {
    var out, ins := Outsiders(keys, admitted), Insiders(keys, admitted);
    QueueHas(keys, admitted);
    QueueAppend(keys, k, admitted);
    assert out + [] == out && ins + [] == ins;
    if k in admitted { LastInside(out, ins, k); } else { LastOutside(out, ins, k); }
  }

  lemma LastInside(out: seq<Id>, ins: seq<Id>, k: Id)
    ensures var q := out + (ins + [k]);
            |q| == |out| + |ins| + 1 && (|out| + |ins| > 0 ==> k in q[1..])
  {
    var q := out + (ins + [k]);
    if |out| + |ins| > 0 { assert q[1..][|out| + |ins| - 1] == k; }
  }

  lemma LastOutside(out: seq<Id>, ins: seq<Id>, k: Id)
    requires k !in out && k !in ins
    ensures var q := out + [k] + ins;
            |q| == |out| + |ins| + 1 && (k in q[1..] <==> |out| > 0)
  {
    var q := out + [k] + ins;
    if out != [] { assert q[1..][|out| - 1] == k; } else { assert q[1..] == ins; }
  }

  lemma {:induction false} QueueAppend(keys: seq<Id>, k: Id, admitted: set<Id>)
    ensures Outsiders(keys + [k], admitted) == Outsiders(keys, admitted) + (if k in admitted then [] else [k])
    ensures Insiders(keys + [k], admitted) == Insiders(keys, admitted) + (if k in admitted then [k] else [])
  {
    if keys != [] {
      assert (keys + [k])[1..] == keys[1..] + [k];
      QueueAppend(keys[1..], k, admitted);
    }
  }

  lemma {:induction false} LiveKeysSame(
    keys: seq<Id>, at: map<Id, Advert>, more: map<Id, Advert>, k: Id, now: int, ttlMs: nat)
    requires k !in keys && forall j | j in keys :: (j in at <==> j in more) && (j in at ==> at[j] == more[j])
    ensures LiveKeys(keys, at, now, ttlMs) == LiveKeys(keys, more, now, ttlMs)
  {
    if keys != [] {
      assert keys[0] in keys;
      LiveKeysSame(keys[1..], at, more, k, now, ttlMs);
    }
  }

  class LanReachTable {
    const ttlMs: nat
    const cap: nat
    var adv: Dict<Advert>
    var floor: Dict<int>

    ghost predicate Valid()
      reads this
    {
      adv.Valid() && floor.Valid() && |floor.keys| <= cap && |adv.keys| <= cap
    }

    constructor (ttlMs: nat := 90000, cap: nat := 512)
      ensures Valid() && adv == Empty() && floor == Empty() && this.ttlMs == ttlMs && this.cap == cap
    {
      this.ttlMs, this.cap := ttlMs, cap;
      adv, floor := Empty(), Empty();
    }

    /** An advert is refused exactly when its id is malformed or its stamp does not clear
        the member's own floor; accepted, it is stored with our own receipt time, and the
        store is brought back to its cap. */
    method Apply(a: Input, now: int, admitted: set<Id>) returns (ok: bool)
      requires Valid()
      modifies this
      ensures Valid()
      ensures ok <==> IsMemberId(a.memberId) && (a.memberId in old(floor).at ==> a.at > old(floor).at[a.memberId])
      ensures !ok ==> adv == old(adv) && floor == old(floor)
      ensures ok == ReachFloors.Takes(old(floor), ReachFloors.Stamped(a.memberId, a.at))
      ensures floor == ReachFloors.Next(old(floor), cap, ReachFloors.Stamped(a.memberId, a.at))
      ensures ok ==>
        var stored := old(adv).Set(a.memberId, Advert(a.at, a.relay, Elements(Canonical(a.peers)) - {a.memberId}, now));
        stored.Valid() && adv == Bounded(stored, now, ttlMs, admitted, cap)
    {
      if !IsMemberId(a.memberId) { return false; }
      if a.memberId in floor.at && a.at <= floor.at[a.memberId] { return false; }
      SetValid(floor, a.memberId, a.at);
      floor := CapFifo(floor.Set(a.memberId, a.at), cap);
      ghost var peers := Elements(Canonical(a.peers)) - {a.memberId};
      var listed := NormalizeReachList(a.peers);
      var entry := Advert(a.at, a.relay, (set e | e in listed) - {a.memberId}, now);
      assert entry.peers == peers;
      SetValid(adv, a.memberId, entry);
      adv := adv.Set(a.memberId, entry);
      adv := PruneStore(adv, now, admitted);
      return true;
    }

    method PruneStore(store: Dict<Advert>, now: int, admitted: set<Id>) returns (r: Dict<Advert>)
      requires store.Valid()
      ensures r == Bounded(store, now, ttlMs, admitted, cap) && r.Valid() && |r.keys| <= cap
    {
      if |store.keys| <= cap { return store; }
      r := Prune(store, now);
      LiveValid(store, now, ttlMs);
      while |r.keys| > cap
        invariant r.Valid() && Trimmed(r, admitted, cap) == Trimmed(Live(store, now, ttlMs), admitted, cap)
        decreases |r.keys|
      {
        VictimGoes(r, admitted);
        var victim := FirstOutside(r.keys, admitted);
        r := r.Delete(victim);
      }
    }

    // Drop every expired advert.
    method Prune(store: Dict<Advert>, now: int) returns (r: Dict<Advert>)
      requires store.Valid()
      ensures r == Live(store, now, ttlMs)
    {
      r := store;
      ScanStart(store, now, ttlMs);
      for i := 0 to |store.keys|
        invariant Scanned(store, i, now, ttlMs, r)
      {
        KeysAreElements(store);
        ScanStep(store, i, now, ttlMs, r);
        if Expired(store.at[store.keys[i]], now, ttlMs) { r := r.Delete(store.keys[i]); }
      }
      ScanEnd(store, now, ttlMs, r);
    }

    /** The member's advert, while it is fresh. */
    method Get(memberId: Id, now: int) returns (r: Option<Advert>)
      ensures r.Some? <==> memberId in adv.at && now - adv.at[memberId].seenAt <= ttlMs
      ensures r.Some? ==> r.value == adv.at[memberId]
    {
      if memberId !in adv.at || Expired(adv.at[memberId], now, ttlMs) { return None; }
      return Some(adv.at[memberId]);
    }

    /** A departed member's advert goes, its floor stays. */
    method Forget(memberId: Id)
      requires Valid()
      modifies this`adv
      ensures Valid() && adv == old(adv).Delete(memberId)
    {
      DeleteValid(adv, memberId);
      WithoutNotLonger(adv.keys, memberId);
      adv := adv.Delete(memberId);
    }
  }

  // The store with the first i keys looked at.
  ghost predicate Scanned(d: Dict<Advert>, i: nat, now: int, ttlMs: nat, r: Dict<Advert>)
    requires i <= |d.keys|
  {
    && r.keys == LiveKeys(d.keys[..i], d.at, now, ttlMs) + d.keys[i..]
    && ScannedAt(d.at, d.keys[..i], now, ttlMs, r.at)
  }

  ghost predicate ScannedAt(at: map<Id, Advert>, looked: seq<Id>, now: int, ttlMs: nat, left: map<Id, Advert>) {
    && (forall k :: k in left <==> k in at && !(k in looked && Expired(at[k], now, ttlMs)))
    && (forall k | k in left :: left[k] == at[k])
  }

  lemma ScanStart(d: Dict<Advert>, now: int, ttlMs: nat)
    ensures Scanned(d, 0, now, ttlMs, d)
  {
    assert d.keys[..0] == [];
  }

  lemma ScanStep(d: Dict<Advert>, i: nat, now: int, ttlMs: nat, r: Dict<Advert>)
    requires d.Valid() && i < |d.keys| && d.keys[i] in d.at && Scanned(d, i, now, ttlMs, r)
    ensures Scanned(d, i + 1, now, ttlMs, if Expired(d.at[d.keys[i]], now, ttlMs) then r.Delete(d.keys[i]) else r)
  {
    ScanKeys(d, i, now, ttlMs);
    ScanAt(d.at, d.keys[..i], d.keys[i], now, ttlMs, r.at);
    UpTo(d.keys, i);
  }

  lemma UpTo(s: seq<Id>, i: nat)
    requires i < |s|
    ensures s[..i + 1] == s[..i] + [s[i]]
  {}

  lemma ScanAt(at: map<Id, Advert>, looked: seq<Id>, k: Id, now: int, ttlMs: nat, left: map<Id, Advert>)
    requires k in at && ScannedAt(at, looked, now, ttlMs, left)
    ensures ScannedAt(at, looked + [k], now, ttlMs, if Expired(at[k], now, ttlMs) then left - {k} else left)
  {
    assert forall x :: x in looked + [k] <==> x in looked || x == k;
  }

  lemma ScanKeys(d: Dict<Advert>, i: nat, now: int, ttlMs: nat)
    requires d.Valid() && i < |d.keys| && d.keys[i] in d.at
    ensures var before := LiveKeys(d.keys[..i], d.at, now, ttlMs) + d.keys[i..];
            LiveKeys(d.keys[..i + 1], d.at, now, ttlMs) + d.keys[i + 1..] ==
            if Expired(d.at[d.keys[i]], now, ttlMs) then Without(before, d.keys[i]) else before
  {
    var id := d.keys[i];
    var front := LiveKeys(d.keys[..i], d.at, now, ttlMs);
    assert d.keys[..i + 1] == d.keys[..i] + [id];
    LiveKeysAppend(d.keys[..i], id, d.at, now, ttlMs);
    LiveKeysAre(d.keys[..i], d.at, now, ttlMs);
    DistinctAround(d.keys, i);
    assert d.keys[i..] == [id] + d.keys[i + 1..];
    MiddleGoes(front, id, d.keys[i + 1..]);
    MiddleStays(front, id, d.keys[i + 1..]);
  }

  lemma MiddleStays(a: seq<Id>, k: Id, b: seq<Id>)
    ensures a + ([k] + b) == a + [k] + b
    ensures a + [] == a
  {}

  lemma MiddleGoes(a: seq<Id>, k: Id, b: seq<Id>)
    requires k !in a && k !in b
    ensures Without(a + ([k] + b), k) == a + b
  {
    WithoutConcat(a, [k] + b, k);
    WithoutAbsent(a, k);
    HeadGoes(k, b);
  }

  lemma HeadGoes(k: Id, b: seq<Id>)
    requires k !in b
    ensures Without([k] + b, k) == b
  {
    assert ([k] + b)[1..] == b;
    WithoutAbsent(b, k);
  }

  lemma ScanEnd(d: Dict<Advert>, now: int, ttlMs: nat, r: Dict<Advert>)
    requires d.Valid() && Scanned(d, |d.keys|, now, ttlMs, r)
    ensures r == Live(d, now, ttlMs)
  {
    KeysAreElements(d);
    assert d.keys[..|d.keys|] == d.keys;
    assert r.at == Live(d, now, ttlMs).at;
  }

  lemma {:induction false} LiveKeysAppend(keys: seq<Id>, k: Id, at: map<Id, Advert>, now: int, ttlMs: nat)
    ensures LiveKeys(keys + [k], at, now, ttlMs) ==
            LiveKeys(keys, at, now, ttlMs) + if k in at && !Expired(at[k], now, ttlMs) then [k] else []
  {
    if keys != [] {
      assert (keys + [k])[1..] == keys[1..] + [k];
      LiveKeysAppend(keys[1..], k, at, now, ttlMs);
    }
  }

  lemma {:induction false} DistinctAround(s: seq<Id>, i: nat)
    requires Distinct(s) && i < |s|
    ensures s[i] !in s[..i] && s[i] !in s[i + 1..]
  {
    if i > 0 {
      DistinctAround(s[1..], i - 1);
      assert s[..i] == [s[0]] + s[1..][..i - 1];
      assert s[i] in s[1..];
    }
  }

  lemma {:induction false} WithoutConcat(a: seq<Id>, b: seq<Id>, k: Id)
    ensures Without(a + b, k) == Without(a, k) + Without(b, k)
  {
    if a == [] {
      assert a + b == b;
    } else {
      assert (a + b)[1..] == a[1..] + b;
      WithoutConcat(a[1..], b, k);
    }
  }

  // The oldest key of a member that is not admitted, or the oldest key of all.
  method FirstOutside(keys: seq<Id>, admitted: set<Id>) returns (victim: Id)
    requires keys != []
    ensures Queue(keys, admitted) != [] && victim == Queue(keys, admitted)[0]
  {
    QueueHas(keys, admitted);
    for i := 0 to |keys|
      invariant Outsiders(keys, admitted) == Outsiders(keys[i..], admitted)
    {
      if keys[i] !in admitted { return keys[i]; }
      assert keys[i..][1..] == keys[i + 1..];
    }
    return keys[0];
  }

  /** normalizeReachList, its set collected in a loop over a bounded scan. */
  method NormalizeReachList(v: seq<string>) returns (r: seq<Id>)
    ensures r == Canonical(v)
  {
    var scan := Take(v, MAX_REACH_SCAN);
    var seen: set<Id> := {};
    for i := 0 to |scan|
      invariant seen == set e | e in scan[..i] && IsMemberId(e)
    {
      assert scan[..i + 1] == scan[..i] + [scan[i]];
      if IsMemberId(scan[i]) { seen := seen + {scan[i]}; }
    }
    assert scan[..|scan|] == scan;
    r := SortIds(seen);
    r := Take(r, MAX_LAN_REACH);
  }

  lemma KeysAreElements<V>(d: Dict<V>)
    requires d.Valid()
    ensures forall k :: k in d.keys <==> k in d.at
  {
    assert forall k :: k in d.keys <==> k in Elements(d.keys);
  }

}
