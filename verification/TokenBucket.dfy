/** The per-key token bucket of LanSessionCore.consume (shared/lan-session-core.ts),
    over the reals, with the clock in milliseconds. */
module TokenBucket {
  import opened Ids
  import opened Dicts

  datatype BucketCfg = BucketCfg(pps: real, bytesPerSec: real, burstPackets: real, burstBytes: real) {
    predicate Valid() { pps >= 0.0 && bytesPerSec >= 0.0 && burstPackets >= 0.0 && burstBytes >= 0.0 }
  }

  const DEFAULT_LAN_BUCKET := BucketCfg(4000.0, 4000000.0, 800.0, 800000.0)
  const DEFAULT_LAN_RELAY_BUCKET := BucketCfg(2000.0, 1500000.0, 400.0, 300000.0)
  const LAN_RELAY_TOTAL_BUCKET := BucketCfg(6000.0, 3000000.0, 1200.0, 600000.0)
  const LAN_RELAY_TOTAL_MEMBER := "*"

  datatype Bucket = Bucket(tokens: real, bytes: real, last: real)

  function Min(a: real, b: real): real { if a < b then a else b }

  function Refill(b: Bucket, cfg: BucketCfg, t: real): Bucket {
    var elapsed := (if t - b.last > 0.0 then t - b.last else 0.0) / 1000.0;
    Bucket(Min(cfg.burstPackets, b.tokens + elapsed * cfg.pps),
           Min(cfg.burstBytes, b.bytes + elapsed * cfg.bytesPerSec), t)
  }

  predicate Affords(b: Bucket, bytes: nat) { b.tokens >= 1.0 && b.bytes >= bytes as real }

  // One packet of `bytes` at time t: the bucket afterwards.
  function Charge(b: Bucket, cfg: BucketCfg, t: real, bytes: nat): Bucket {
    var r := Refill(b, cfg, t);
    if Affords(r, bytes) then Bucket(r.tokens - 1.0, r.bytes - bytes as real, r.last) else r
  }

  predicate Admitted(b: Bucket, cfg: BucketCfg, t: real, bytes: nat) { Affords(Refill(b, cfg, t), bytes) }

  datatype Arrival = Arrival(t: real, bytes: nat)

  ghost function After(b: Bucket, cfg: BucketCfg, calls: seq<Arrival>): Bucket {
    if calls == [] then b else
      var front, last := calls[..|calls| - 1], calls[|calls| - 1];
      Charge(After(b, cfg, front), cfg, last.t, last.bytes)
  }

  // Bytes and packets let through by a run of calls on one bucket.
  ghost function BytesThrough(b: Bucket, cfg: BucketCfg, calls: seq<Arrival>): real {
    if calls == [] then 0.0 else
      var front, last := calls[..|calls| - 1], calls[|calls| - 1];
      BytesThrough(b, cfg, front)
      + if Admitted(After(b, cfg, front), cfg, last.t, last.bytes) then last.bytes as real else 0.0
  }

  ghost function PacketsThrough(b: Bucket, cfg: BucketCfg, calls: seq<Arrival>): real {
    if calls == [] then 0.0 else
      var front, last := calls[..|calls| - 1], calls[|calls| - 1];
      PacketsThrough(b, cfg, front) + if Admitted(After(b, cfg, front), cfg, last.t, last.bytes) then 1.0 else 0.0
  }

  ghost predicate ClockForward(calls: seq<Arrival>) {
    forall i, j | 0 <= i < j < |calls| :: calls[i].t <= calls[j].t
  }

  /** In any stretch of calls on one bucket, on a clock that does not go back, at most
      the burst plus the rate times the length of the stretch gets through. `b` is the
      bucket before the stretch, whatever its history. */
  lemma {:induction false} ThroughputBound(b: Bucket, cfg: BucketCfg, calls: seq<Arrival>)
    requires cfg.Valid() && calls != [] && ClockForward(calls)
    requires b.tokens >= 0.0 && b.bytes >= 0.0
    ensures var from := calls[0].t; var to := calls[|calls| - 1].t; var a := After(b, cfg, calls);
            && a.last == to && a.bytes >= 0.0 && a.tokens >= 0.0
            && BytesThrough(b, cfg, calls) + a.bytes <= cfg.burstBytes + Gain(from, to, cfg.bytesPerSec)
            && PacketsThrough(b, cfg, calls) + a.tokens <= cfg.burstPackets + Gain(from, to, cfg.pps)
  {
    var n := |calls| - 1;
    var front, last := calls[..n], calls[n];
    if n == 0 {
      ChargeStep(b, cfg, last.t, last.bytes);
      assert After(b, cfg, front) == b && BytesThrough(b, cfg, front) == 0.0 && PacketsThrough(b, cfg, front) == 0.0;
    } else {
      ThroughputBound(b, cfg, front);
      ChargeStep(After(b, cfg, front), cfg, last.t, last.bytes);
      assert calls[n - 1].t <= calls[n].t;
      GainAdds(calls[0].t, calls[n - 1].t, last.t, cfg.bytesPerSec);
      GainAdds(calls[0].t, calls[n - 1].t, last.t, cfg.pps);
    }
  }

  // What a rate per second yields between two times in milliseconds.
  function Gain(from: real, to: real, rate: real): real { (to - from) / 1000.0 * rate }

  lemma GainAdds(a: real, b: real, c: real, rate: real)
    ensures Gain(a, b, rate) + Gain(b, c, rate) == Gain(a, c, rate)
  {
    var x, y := (b - a) / 1000.0, (c - b) / 1000.0;
    assert x * rate + y * rate == (x + y) * rate;
    assert x + y == (c - a) / 1000.0;
  }

  lemma ChargeStep(b: Bucket, cfg: BucketCfg, t: real, bytes: nat)
    requires cfg.Valid() && b.tokens >= 0.0 && b.bytes >= 0.0
    ensures var a := Charge(b, cfg, t, bytes); var ok := Admitted(b, cfg, t, bytes);
            && a.last == t && a.bytes >= 0.0 && a.tokens >= 0.0
            && a.bytes + (if ok then bytes as real else 0.0) <= cfg.burstBytes
            && a.tokens + (if ok then 1.0 else 0.0) <= cfg.burstPackets
            && (t >= b.last ==>
                  a.bytes + (if ok then bytes as real else 0.0) <= b.bytes + Gain(b.last, t, cfg.bytesPerSec))
            && (t >= b.last ==> a.tokens + (if ok then 1.0 else 0.0) <= b.tokens + Gain(b.last, t, cfg.pps))
  {
    RefillGrows(b, cfg, t);
  }

  lemma RefillGrows(b: Bucket, cfg: BucketCfg, t: real)
    requires cfg.Valid() && b.tokens >= 0.0 && b.bytes >= 0.0
    ensures var r := Refill(b, cfg, t);
            && 0.0 <= r.tokens <= cfg.burstPackets && 0.0 <= r.bytes <= cfg.burstBytes && r.last == t
            && (t >= b.last ==> r.tokens <= b.tokens + (t - b.last) / 1000.0 * cfg.pps)
            && (t >= b.last ==> r.bytes <= b.bytes + (t - b.last) / 1000.0 * cfg.bytesPerSec)
  {
    var elapsed := (if t - b.last > 0.0 then t - b.last else 0.0) / 1000.0;
    assert elapsed * cfg.pps >= 0.0;
    assert elapsed * cfg.bytesPerSec >= 0.0;
  }

  /** The clock assumption matters: going back by d and forth again credits d once more,
      where standing still credits nothing. So every step back that is made up for refills
      the bucket, unless it is full or its rates are zero. */
  lemma BackwardClockRefills(cfg: BucketCfg, b: Bucket, d: real)
    requires cfg.Valid() && d >= 0.0 && 0.0 <= b.tokens <= cfg.burstPackets && 0.0 <= b.bytes <= cfg.burstBytes
    ensures Refill(b, cfg, b.last) == b
    ensures var again := Refill(Refill(b, cfg, b.last - d), cfg, b.last);
            && again == Bucket(Min(cfg.burstPackets, b.tokens + Gain(b.last - d, b.last, cfg.pps)),
                               Min(cfg.burstBytes, b.bytes + Gain(b.last - d, b.last, cfg.bytesPerSec)), b.last)
            && (again != b <==> d > 0.0 && ((cfg.pps > 0.0 && b.tokens < cfg.burstPackets)
                                            || (cfg.bytesPerSec > 0.0 && b.bytes < cfg.burstBytes)))
  {
    var back := Refill(b, cfg, b.last - d);
    assert back == Bucket(b.tokens, b.bytes, b.last - d);
    assert (b.last - (b.last - d)) / 1000.0 == d / 1000.0;
    Product(d / 1000.0, cfg.pps);
    Product(d / 1000.0, cfg.bytesPerSec);
  }

  lemma Product(x: real, y: real)
    requires x >= 0.0 && y >= 0.0
    ensures x * y >= 0.0 && (x * y > 0.0 <==> x > 0.0 && y > 0.0)
  {}

  // ---- Keys ----

  datatype BucketClass = Direct | RelayIn | RelayOut | RelayWire

  function Prefix(c: BucketClass): string {
    match c
    case Direct => ""
    case RelayIn => "relay-in:"
    case RelayOut => "relay-out:"
    case RelayWire => "relay-wire:"
  }

  function BucketKey(c: BucketClass, member: Id): string { Prefix(c) + member }

  function ClassCfg(c: BucketClass, member: Id, direct: BucketCfg): BucketCfg {
    if c.Direct? then direct
    else if member == LAN_RELAY_TOTAL_MEMBER then LAN_RELAY_TOTAL_BUCKET
    else DEFAULT_LAN_RELAY_BUCKET
  }

  /** What each kind of traffic is charged to: direct traffic to the configured rate, relayed traffic
      of a member to 2000 packets and 1.5 MB a second, and all of it together, under "*", to 6000
      packets and 3 MB, whichever side of the relay it is on. */
  lemma ClassLimits(c: BucketClass, m: Id, direct: BucketCfg)
    ensures ClassCfg(Direct, m, direct) == direct
    ensures c != Direct && m != "*" ==>
            ClassCfg(c, m, direct) == BucketCfg(2000.0, 1500000.0, 400.0, 300000.0)
    ensures c != Direct ==> ClassCfg(c, "*", direct) == BucketCfg(6000.0, 3000000.0, 1200.0, 600000.0)
  {}

  predicate IsHex(c: char) { '0' <= c <= '9' || 'a' <= c <= 'f' }

  predicate IsMemberId(s: Id) { |s| == 32 && forall i | 0 <= i < |s| :: IsHex(s[i]) }

  predicate BucketMember(s: Id) { IsMemberId(s) || s == LAN_RELAY_TOTAL_MEMBER }

  /** Classes and members never share a key, so never share a bucket. */
  lemma KeysDisjoint(c: BucketClass, m: Id, d: BucketClass, n: Id)
    requires BucketMember(m) && BucketMember(n)
    ensures BucketKey(c, m) == BucketKey(d, n) <==> c == d && m == n
  {
    var j, k := BucketKey(c, m), BucketKey(d, n);
    assert m == j[|Prefix(c)|..] && n == k[|Prefix(d)|..];
    assert !c.Direct? ==> j[0] == 'r' && j[6] == Prefix(c)[6];
    assert !d.Direct? ==> k[0] == 'r' && k[6] == Prefix(d)[6];
  }

  /** consume on the table of buckets, FIFO-capped when a key is new. */
  function Consume(bs: Dict<Bucket>, key: string, cfg: BucketCfg, t: real, bytes: nat, cap: nat): Dict<Bucket> {
    var full := Bucket(cfg.burstPackets, cfg.burstBytes, t);
    if key in bs.at then bs.Set(key, Charge(bs.at[key], cfg, t, bytes))
    else
      var grown := bs.Set(key, Charge(full, cfg, t, bytes));
      grown.Newest(cap)
  }

  /** Charging one key leaves every other bucket alone, except that a new key in a full
      table drops the oldest one. */
  lemma OthersUntouched(bs: Dict<Bucket>, key: string, cfg: BucketCfg, t: real, bytes: nat, cap: nat, other: string)
    requires bs.Valid() && |bs.keys| <= cap && cap > 0 && other in bs.at && other != key
    ensures var after := Consume(bs, key, cfg, t, bytes, cap);
            && (other in after.at <==> !(key !in bs.at && |bs.keys| == cap && other == bs.keys[0]))
            && (other in after.at ==> after.at[other] == bs.at[other])
  {
    if key !in bs.at && |bs.keys| == cap {
      var grown := bs.Set(key, Charge(Bucket(cfg.burstPackets, cfg.burstBytes, t), cfg, t, bytes));
      assert grown.keys[1..] == bs.keys[1..] + [key];
      assert bs.keys == [bs.keys[0]] + bs.keys[1..];
    }
  }

  // ---- One key in the shared table ----

  /** A packet as it comes to the table: its key and configuration, when, and how long. */
  datatype TablePacket = TablePacket(key: string, cfg: BucketCfg, t: real, bytes: nat)

  function Full(cfg: BucketCfg, t: real): Bucket { Bucket(cfg.burstPackets, cfg.burstBytes, t) }

  function BucketOf(bs: Dict<Bucket>, key: string, cfg: BucketCfg, t: real): Bucket {
    if key in bs.at then bs.at[key] else Full(cfg, t)
  }

  function TableAfter(bs: Dict<Bucket>, ps: seq<TablePacket>, cap: nat): Dict<Bucket> {
    if ps == [] then bs else
      var p := ps[|ps| - 1];
      Consume(TableAfter(bs, ps[..|ps| - 1], cap), p.key, p.cfg, p.t, p.bytes, cap)
  }

  predicate LetThrough(bs: Dict<Bucket>, p: TablePacket) {
    Admitted(BucketOf(bs, p.key, p.cfg, p.t), p.cfg, p.t, p.bytes)
  }

  // What the table lets through of one key, in bytes and in packets.
  function TableBytes(bs: Dict<Bucket>, ps: seq<TablePacket>, cap: nat, key: string): real {
    if ps == [] then 0.0 else
      var front, p := ps[..|ps| - 1], ps[|ps| - 1];
      TableBytes(bs, front, cap, key)
      + if p.key == key && LetThrough(TableAfter(bs, front, cap), p) then p.bytes as real else 0.0
  }

  function TablePackets(bs: Dict<Bucket>, ps: seq<TablePacket>, cap: nat, key: string): real {
    if ps == [] then 0.0 else
      var front, p := ps[..|ps| - 1], ps[|ps| - 1];
      TablePackets(bs, front, cap, key) + if p.key == key && LetThrough(TableAfter(bs, front, cap), p) then 1.0 else 0.0
  }

  function ArrivalsOf(ps: seq<TablePacket>, key: string): seq<Arrival> {
    if ps == [] then [] else
      var p := ps[|ps| - 1];
      ArrivalsOf(ps[..|ps| - 1], key) + if p.key == key then [Arrival(p.t, p.bytes)] else []
  }

  // The bucket the first of these packets meets.
  function FirstBucket(bs: Dict<Bucket>, ps: seq<TablePacket>, key: string, cfg: BucketCfg): Bucket {
    var arrivals := ArrivalsOf(ps, key);
    BucketOf(bs, key, cfg, if arrivals == [] then 0.0 else arrivals[0].t)
  }

  // The keys about fit into the table, and packets of one key share its configuration.
  ghost predicate Fits(
    bs: Dict<Bucket>, ps: seq<TablePacket>, keys: set<string>, cap: nat, key: string, cfg: BucketCfg) {
    && bs.Valid() && bs.at.Keys <= keys && |keys| <= cap
    && forall p | p in ps :: p.key in keys && (p.key == key ==> p.cfg == cfg)
  }

  lemma ConsumeFits(bs: Dict<Bucket>, p: TablePacket, keys: set<string>, cap: nat)
    requires bs.Valid() && bs.at.Keys <= keys && |keys| <= cap && p.key in keys
    ensures var after := Consume(bs, p.key, p.cfg, p.t, p.bytes, cap);
            && after.Valid() && after.at.Keys <= keys
            && after.at == bs.at[p.key := Charge(BucketOf(bs, p.key, p.cfg, p.t), p.cfg, p.t, p.bytes)]
  {
    var b := Charge(BucketOf(bs, p.key, p.cfg, p.t), p.cfg, p.t, p.bytes);
    SetValid(bs, p.key, b);
    KeysBounded(bs.Set(p.key, b), keys, cap);
  }

  // The key's bucket and traffic in the table are those of the bucket on its own.
  ghost predicate AsIfAlone(bs: Dict<Bucket>, ps: seq<TablePacket>, cap: nat, key: string, cfg: BucketCfg) {
    var after, arrivals, b := TableAfter(bs, ps, cap), ArrivalsOf(ps, key), FirstBucket(bs, ps, key, cfg);
    && (key in after.at <==> key in bs.at || arrivals != [])
    && (key in after.at ==> after.at[key] == After(b, cfg, arrivals))
    && TableBytes(bs, ps, cap, key) == BytesThrough(b, cfg, arrivals)
    && TablePackets(bs, ps, cap, key) == PacketsThrough(b, cfg, arrivals)
  }

  /** Whatever else goes through the table in between, one key's bucket fares as if alone. */
  lemma {:induction false} TableIsBucket(
    bs: Dict<Bucket>, ps: seq<TablePacket>, keys: set<string>, cap: nat, key: string, cfg: BucketCfg)
    requires Fits(bs, ps, keys, cap, key, cfg)
    ensures var after := TableAfter(bs, ps, cap); after.Valid() && after.at.Keys <= keys
    ensures AsIfAlone(bs, ps, cap, key, cfg)
  {
    if ps != [] {
      var front, p := ps[..|ps| - 1], ps[|ps| - 1];
      assert p in ps;
      TableIsBucket(bs, front, keys, cap, key, cfg);
      var before := TableAfter(bs, front, cap);
      ConsumeFits(before, p, keys, cap);
      var after := Charge(BucketOf(before, p.key, p.cfg, p.t), p.cfg, p.t, p.bytes);
      assert TableAfter(bs, ps, cap).at == before.at[p.key := after];
      if p.key == key { OwnPacket(bs, ps, cap, key, cfg); } else { OtherPacket(bs, ps, cap, key, cfg); }
    }
  }

  lemma OtherPacket(bs: Dict<Bucket>, ps: seq<TablePacket>, cap: nat, key: string, cfg: BucketCfg)
    requires ps != [] && ps[|ps| - 1].key != key && AsIfAlone(bs, ps[..|ps| - 1], cap, key, cfg)
    requires var before, after := TableAfter(bs, ps[..|ps| - 1], cap).at, TableAfter(bs, ps, cap).at;
             (key in after <==> key in before) && (key in before ==> after[key] == before[key])
    ensures AsIfAlone(bs, ps, cap, key, cfg)
  {
    assert ArrivalsOf(ps, key) == ArrivalsOf(ps[..|ps| - 1], key);
  }

  lemma OwnPacket(bs: Dict<Bucket>, ps: seq<TablePacket>, cap: nat, key: string, cfg: BucketCfg)
    requires ps != [] && ps[|ps| - 1].key == key && ps[|ps| - 1].cfg == cfg
    requires AsIfAlone(bs, ps[..|ps| - 1], cap, key, cfg)
    requires var before, p := TableAfter(bs, ps[..|ps| - 1], cap), ps[|ps| - 1];
             TableAfter(bs, ps, cap).at == before.at[key := Charge(BucketOf(before, key, cfg, p.t), cfg, p.t, p.bytes)]
    ensures AsIfAlone(bs, ps, cap, key, cfg)
  {
    OneArrivalMore(bs, ps, key, cfg);
    MeetsAlone(bs, ps, cap, key, cfg);
  }

  // The bucket its next packet meets is the one it would meet alone.
  lemma MeetsAlone(bs: Dict<Bucket>, ps: seq<TablePacket>, cap: nat, key: string, cfg: BucketCfg)
    requires ps != [] && ps[|ps| - 1].key == key && ps[|ps| - 1].cfg == cfg
    requires AsIfAlone(bs, ps[..|ps| - 1], cap, key, cfg)
    ensures var front, t, b := ps[..|ps| - 1], ps[|ps| - 1].t, FirstBucket(bs, ps, key, cfg);
            var arrivals := ArrivalsOf(front, key);
            && BucketOf(TableAfter(bs, front, cap), key, cfg, t) == After(b, cfg, arrivals)
            && TableBytes(bs, front, cap, key) == BytesThrough(b, cfg, arrivals)
            && TablePackets(bs, front, cap, key) == PacketsThrough(b, cfg, arrivals)
  {
    OneArrivalMore(bs, ps, key, cfg);
    var front := ps[..|ps| - 1];
    var a, b := FirstBucket(bs, front, key, cfg), FirstBucket(bs, ps, key, cfg);
    if ArrivalsOf(front, key) == [] {
      NothingYet(a, cfg);
      NothingYet(b, cfg);
    }
  }

  lemma NothingYet(b: Bucket, cfg: BucketCfg)
    ensures After(b, cfg, []) == b && BytesThrough(b, cfg, []) == 0.0 && PacketsThrough(b, cfg, []) == 0.0
  {}

  lemma OneArrivalMore(bs: Dict<Bucket>, ps: seq<TablePacket>, key: string, cfg: BucketCfg)
    requires ps != [] && ps[|ps| - 1].key == key && ps[|ps| - 1].cfg == cfg
    ensures var front, p := ps[..|ps| - 1], ps[|ps| - 1];
            var arrivals, more, b := ArrivalsOf(front, key), ArrivalsOf(ps, key), FirstBucket(bs, ps, key, cfg);
            && more == arrivals + [Arrival(p.t, p.bytes)]
            && (arrivals == [] ==> b == BucketOf(bs, key, cfg, p.t))
            && (arrivals != [] ==> b == FirstBucket(bs, front, key, cfg))
            && After(b, cfg, more) == Charge(After(b, cfg, arrivals), cfg, p.t, p.bytes)
            && BytesThrough(b, cfg, more) == BytesThrough(b, cfg, arrivals)
                 + (if Admitted(After(b, cfg, arrivals), cfg, p.t, p.bytes) then p.bytes as real else 0.0)
            && PacketsThrough(b, cfg, more) == PacketsThrough(b, cfg, arrivals)
                 + (if Admitted(After(b, cfg, arrivals), cfg, p.t, p.bytes) then 1.0 else 0.0)
  {
    var p, arrivals := ps[|ps| - 1], ArrivalsOf(ps[..|ps| - 1], key);
    var more := ArrivalsOf(ps, key);
    assert more == arrivals + [Arrival(p.t, p.bytes)] && more[..|more| - 1] == arrivals;
  }

  /** The bound in the shared table: of any one key, in any stretch of packets of any keys on a
      clock that does not go back for it, at most burst plus rate times the time between its
      first and last packet gets through, as long as the keys about fit into the table. */
  lemma TableThroughputBound(
    bs: Dict<Bucket>, ps: seq<TablePacket>, keys: set<string>, cap: nat, key: string, cfg: BucketCfg)
    requires Fits(bs, ps, keys, cap, key, cfg) && cfg.Valid()
    requires key in bs.at ==> bs.at[key].tokens >= 0.0 && bs.at[key].bytes >= 0.0
    requires var arrivals := ArrivalsOf(ps, key); arrivals != [] && ClockForward(arrivals)
    ensures var arrivals := ArrivalsOf(ps, key);
            var from, to := arrivals[0].t, arrivals[|arrivals| - 1].t;
            && TableBytes(bs, ps, cap, key) <= cfg.burstBytes + Gain(from, to, cfg.bytesPerSec)
            && TablePackets(bs, ps, cap, key) <= cfg.burstPackets + Gain(from, to, cfg.pps)
  {
    TableIsBucket(bs, ps, keys, cap, key, cfg);
    ThroughputBound(FirstBucket(bs, ps, key, cfg), cfg, ArrivalsOf(ps, key));
  }

  // ---- More keys than the table holds ----

  // A bare IPv4 header, if the burst has room for one, and else nothing.
  function Small(key: string, cfg: BucketCfg): TablePacket {
    TablePacket(key, cfg, 0.0, if cfg.burstBytes >= 20.0 then 20 else 0)
  }

  // q times round the ring of keys, and i keys further.
  function Laps(ring: seq<string>, cfg: BucketCfg, q: nat, i: nat): seq<TablePacket>
    requires i <= |ring|
    decreases q, i
  {
    if i > 0 then Laps(ring, cfg, q, i - 1) + [Small(ring[i - 1], cfg)]
    else if q > 0 then Laps(ring, cfg, q - 1, |ring|) else []
  }

  // All keys of the ring but the next one.
  function AllBut(ring: seq<string>, i: nat): seq<string>
    requires i <= |ring| && ring != []
  {
    if i == |ring| then ring[1..] else ring[i + 1..] + ring[..i]
  }

  lemma RingTurns(ring: seq<string>, i: nat)
    requires i < |ring|
    ensures (AllBut(ring, i) + [ring[i]])[1..] == AllBut(ring, i + 1) && |AllBut(ring, i)| == |ring| - 1
  {}

  lemma {:induction false} DistinctAt(s: seq<string>, i: nat, j: nat)
    requires Distinct(s) && i < j < |s|
    ensures s[i] != s[j]
  {
    if i > 0 { DistinctAt(s[1..], i - 1, j - 1); } else { assert s[j] in s[1..]; }
  }

  lemma NextIsAbsent(ring: seq<string>, i: nat)
    requires Distinct(ring) && i < |ring|
    ensures ring[i] !in AllBut(ring, i)
  {
    forall k | 0 <= k < i ensures ring[k] != ring[i] { DistinctAt(ring, k, i); }
    forall k | i < k < |ring| ensures ring[k] != ring[i] { DistinctAt(ring, i, k); }
  }

  // A key the full table does not hold gets a full bucket, and the oldest key goes.
  lemma NewKeyPasses(bs: Dict<Bucket>, cap: nat, key: string, cfg: BucketCfg)
    requires bs.Valid() && |bs.keys| == cap && key !in bs.keys && cfg.Valid() && cfg.burstPackets >= 1.0
    ensures LetThrough(bs, Small(key, cfg))
    ensures var after := Consume(bs, key, cfg, 0.0, Small(key, cfg).bytes, cap);
            after.Valid() && after.keys == (bs.keys + [key])[1..]
  {
    var b := Charge(Full(cfg, 0.0), cfg, 0.0, Small(key, cfg).bytes);
    assert key !in Elements(bs.keys);
    SetValid(bs, key, b);
    NewestValid(bs.Set(key, b), cap);
  }

  lemma {:induction false} LapsPass(bs: Dict<Bucket>, ring: seq<string>, cfg: BucketCfg, q: nat, i: nat)
    requires cfg.Valid() && cfg.burstPackets >= 1.0 && Distinct(ring) && ring != [] && i <= |ring|
    requires bs.Valid() && bs.keys == ring[1..]
    ensures var ps, cap := Laps(ring, cfg, q, i), |ring| - 1;
            && TableAfter(bs, ps, cap).Valid() && TableAfter(bs, ps, cap).keys == AllBut(ring, i)
            && TablePackets(bs, ps, cap, ring[0]) == (q + if i > 0 then 1 else 0) as real
    decreases q, i
  {
    if i > 0 {
      LapsPass(bs, ring, cfg, q, i - 1);
      LapStep(bs, ring, cfg, q, i);
    } else if q > 0 {
      LapsPass(bs, ring, cfg, q - 1, |ring|);
      assert AllBut(ring, 0) == ring[1..];
    } else {
      assert AllBut(ring, 0) == ring[1..];
    }
  }

  lemma LapStep(bs: Dict<Bucket>, ring: seq<string>, cfg: BucketCfg, q: nat, i: nat)
    requires cfg.Valid() && cfg.burstPackets >= 1.0 && Distinct(ring) && 0 < i <= |ring|
    requires var ps, cap := Laps(ring, cfg, q, i - 1), |ring| - 1;
             TableAfter(bs, ps, cap).Valid() && TableAfter(bs, ps, cap).keys == AllBut(ring, i - 1)
    ensures var front, ps, cap := Laps(ring, cfg, q, i - 1), Laps(ring, cfg, q, i), |ring| - 1;
            && TableAfter(bs, ps, cap).Valid() && TableAfter(bs, ps, cap).keys == AllBut(ring, i)
            && TablePackets(bs, ps, cap, ring[0])
               == TablePackets(bs, front, cap, ring[0]) + (if ring[i - 1] == ring[0] then 1.0 else 0.0)
            && (ring[i - 1] == ring[0] <==> i == 1)
  {
    var front, ps, cap := Laps(ring, cfg, q, i - 1), Laps(ring, cfg, q, i), |ring| - 1;
    assert ps[..|ps| - 1] == front && ps[|ps| - 1] == Small(ring[i - 1], cfg);
    RingTurns(ring, i - 1);
    NextIsAbsent(ring, i - 1);
    NewKeyPasses(TableAfter(bs, front, cap), cap, ring[i - 1], cfg);
    if i > 1 { DistinctAt(ring, 0, i - 1); }
  }

  // Runs of packets of these keys, those of `key` all with this configuration.
  ghost predicate TableRun(
    bs: Dict<Bucket>, ps: seq<TablePacket>, keys: set<string>, cap: nat, key: string, cfg: BucketCfg) {
    && bs.Valid() && |bs.keys| <= cap && bs.at.Keys <= keys
    && (forall p | p in ps :: p.key in keys && (p.key == key ==> p.cfg == cfg))
    && (key in bs.at ==> bs.at[key].tokens >= 0.0 && bs.at[key].bytes >= 0.0)
    && ArrivalsOf(ps, key) != [] && ClockForward(ArrivalsOf(ps, key))
  }

  // Burst plus rate times the time between the first and the last packet.
  ghost predicate InBounds(bs: Dict<Bucket>, ps: seq<TablePacket>, cap: nat, key: string, cfg: BucketCfg)
    requires ArrivalsOf(ps, key) != []
  {
    var arrivals := ArrivalsOf(ps, key);
    var from, to := arrivals[0].t, arrivals[|arrivals| - 1].t;
    && TableBytes(bs, ps, cap, key) <= cfg.burstBytes + Gain(from, to, cfg.bytesPerSec)
    && TablePackets(bs, ps, cap, key) <= cfg.burstPackets + Gain(from, to, cfg.pps)
  }

  ghost predicate AlwaysInBounds(keys: set<string>, cap: nat, cfg: BucketCfg) {
    forall bs, ps, key | TableRun(bs, ps, keys, cap, key, cfg) :: InBounds(bs, ps, cap, key, cfg)
  }

  // With a burst below one packet nothing ever passes.
  lemma {:induction false} NothingPasses(bs: Dict<Bucket>, ps: seq<TablePacket>, cap: nat, key: string, cfg: BucketCfg)
    requires cfg.burstPackets < 1.0 && forall p | p in ps :: p.key == key ==> p.cfg == cfg
    ensures TableBytes(bs, ps, cap, key) == 0.0 && TablePackets(bs, ps, cap, key) == 0.0
  {
    if ps != [] {
      NothingPasses(bs, ps[..|ps| - 1], cap, key, cfg);
      assert ps[|ps| - 1] in ps;
    }
  }

  lemma GainIsPositive(from: real, to: real, rate: real)
    requires from <= to && rate >= 0.0
    ensures Gain(from, to, rate) >= 0.0
  {
    Product((to - from) / 1000.0, rate);
  }

  lemma {:induction false} LapsArrive(ring: seq<string>, cfg: BucketCfg, q: nat, i: nat)
    requires i <= |ring| && ring != []
    ensures forall p | p in Laps(ring, cfg, q, i) :: p.key in ring && p.cfg == cfg
    ensures forall a | a in ArrivalsOf(Laps(ring, cfg, q, i), ring[0]) :: a.t == 0.0
    decreases q, i
  {
    if i > 0 {
      LapsArrive(ring, cfg, q, i - 1);
      var ps := Laps(ring, cfg, q, i);
      assert ps[..|ps| - 1] == Laps(ring, cfg, q, i - 1);
    } else if q > 0 {
      LapsArrive(ring, cfg, q - 1, |ring|);
    }
  }

  lemma {:induction false} PassedArrived(bs: Dict<Bucket>, ps: seq<TablePacket>, cap: nat, key: string)
    ensures TablePackets(bs, ps, cap, key) > 0.0 ==> ArrivalsOf(ps, key) != []
  {
    if ps != [] { PassedArrived(bs, ps[..|ps| - 1], cap, key); }
  }

  // One key more than the table holds, and the bound can be passed by as much as one likes.
  lemma RingBreaksBound(keys: set<string>, cap: nat, cfg: BucketCfg)
    requires cfg.Valid() && cfg.burstPackets >= 1.0 && |keys| > cap
    ensures !AlwaysInBounds(keys, cap, cfg)
  {
    var ring := PickDistinct(keys, cap + 1);
    assert forall k | k in ring :: k in Elements(ring);
    var rest := ring[1..];
    var bs := Dict(rest, map k | k in rest :: Full(cfg, 0.0));
    assert bs.at.Keys == Elements(rest);
    RingRun(bs, ring, keys, cfg, cfg.burstPackets.Floor + 1);
  }

  lemma RingRun(bs: Dict<Bucket>, ring: seq<string>, keys: set<string>, cfg: BucketCfg, q: nat)
    requires cfg.Valid() && 1.0 <= cfg.burstPackets < q as real && Distinct(ring) && ring != []
    requires bs.Valid() && bs.keys == ring[1..] && bs.at.Keys <= keys && forall k | k in ring :: k in keys
    ensures !AlwaysInBounds(keys, |ring| - 1, cfg)
  {
    var ps, cap := Laps(ring, cfg, q, 0), |ring| - 1;
    LapsPass(bs, ring, cfg, q, 0);
    LapsArrive(ring, cfg, q, 0);
    PassedArrived(bs, ps, cap, ring[0]);
    var arrivals := ArrivalsOf(ps, ring[0]);
    assert arrivals[0] in arrivals && arrivals[|arrivals| - 1] in arrivals;
    assert ring[0] !in bs.keys;
    assert ring[0] !in Elements(bs.keys);
    assert TableRun(bs, ps, keys, cap, ring[0], cfg);
    assert Gain(0.0, 0.0, cfg.pps) == 0.0;
    assert !InBounds(bs, ps, cap, ring[0], cfg);
  }

  /** The bound holds of every key in all runs over a set of keys if and only if they fit into the
      table, unless the burst does not allow a single packet anyway. */
  lemma TableBoundIff(keys: set<string>, cap: nat, cfg: BucketCfg)
    requires cfg.Valid()
    ensures AlwaysInBounds(keys, cap, cfg) <==> |keys| <= cap || cfg.burstPackets < 1.0
  {
    if |keys| <= cap || cfg.burstPackets < 1.0 {
      forall bs, ps, key | TableRun(bs, ps, keys, cap, key, cfg) ensures InBounds(bs, ps, cap, key, cfg) {
        if |keys| <= cap {
          TableThroughputBound(bs, ps, keys, cap, key, cfg);
        } else {
          SmallBurst(bs, ps, cap, key, cfg);
        }
      }
    } else {
      RingBreaksBound(keys, cap, cfg);
    }
  }

  lemma SmallBurst(bs: Dict<Bucket>, ps: seq<TablePacket>, cap: nat, key: string, cfg: BucketCfg)
    requires cfg.Valid() && cfg.burstPackets < 1.0 && forall p | p in ps :: p.key == key ==> p.cfg == cfg
    requires ArrivalsOf(ps, key) != [] && ClockForward(ArrivalsOf(ps, key))
    ensures InBounds(bs, ps, cap, key, cfg)
  {
    var arrivals := ArrivalsOf(ps, key);
    NothingPasses(bs, ps, cap, key, cfg);
    assert |arrivals| > 1 ==> arrivals[0].t <= arrivals[|arrivals| - 1].t;
    GainIsPositive(arrivals[0].t, arrivals[|arrivals| - 1].t, cfg.pps);
    GainIsPositive(arrivals[0].t, arrivals[|arrivals| - 1].t, cfg.bytesPerSec);
  }

  // A packet as allowPacket puts it to the table.
  function ClassPacket(c: BucketClass, m: Id, direct: BucketCfg, t: real, bytes: nat): TablePacket {
    TablePacket(BucketKey(c, m), ClassCfg(c, m, direct), t, bytes)
  }

  /** Packets of one key come from one class and member, so share their configuration. */
  lemma OneCfgPerKey(
    c: BucketClass, m: Id, d: BucketClass, n: Id, direct: BucketCfg, t: real, u: real, bytes: nat, more: nat)
    requires BucketMember(m) && BucketMember(n)
    requires ClassPacket(c, m, direct, t, bytes).key == ClassPacket(d, n, direct, u, more).key
    ensures ClassPacket(c, m, direct, t, bytes).cfg == ClassPacket(d, n, direct, u, more).cfg
  {
    KeysDisjoint(c, m, d, n);
  }
}
