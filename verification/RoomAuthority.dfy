/** Who owns a room, who may delete a file from it and who is banned
    (shared/room-authority.ts, shared/room-bans.ts). */
module RoomAuthority {
  import opened Ids
  import opened Numbers

  const ROOM_TRANSFER_LIMIT := 8

  /** One signed handover; a missing field of the JSON object is the empty string. */
  datatype Link = Link(signer: Id, newOwnerId: Id, at: int, pub: string, sig: string)

  function LastAt(chain: seq<Link>): int { if chain == [] then 0 else chain[|chain| - 1].at }

  // May l follow the links already taken?
  predicate Fits(taken: seq<Link>, l: Link, now: int) {
    l.signer != "" && l.newOwnerId != "" && l.pub != "" && l.sig != ""
    && l.signer != l.newOwnerId && SafeInteger(l.at) && LastAt(taken) < l.at <= now + CLOCK_SLACK
    && (taken == [] || l.signer == taken[|taken| - 1].newOwnerId)
  }

  predicate WellOrdered(chain: seq<Link>, now: int) {
    chain == [] ||
    (var n := |chain| - 1; Fits(chain[..n], chain[n], now) && WellOrdered(chain[..n], now))
  }

  function Walk(links: seq<Link>, now: int, i: nat): seq<Link>
    requires i <= |links|
    decreases |links| - i
  {
    if i < |links| && i < ROOM_TRANSFER_LIMIT && Fits(links[..i], links[i], now) then Walk(links, now, i + 1)
      else links[..i]
  }

  function OrderedPrefix(links: seq<Link>, now: int): seq<Link> { Walk(links, now, 0) }

  /** orderedTransferPrefix: take links while they fit, eight at most. */
  method OrderedTransferPrefix(links: seq<Link>, now: int) returns (out: seq<Link>)
    ensures out == OrderedPrefix(links, now)
  {
    out := [];
    var head := if |links| > ROOM_TRANSFER_LIMIT then links[..ROOM_TRANSFER_LIMIT] else links;
    for i := 0 to |head|
      invariant out == links[..i]
      invariant Walk(links, now, i) == OrderedPrefix(links, now)
    {
      assert head[i] == links[i];
      if !Fits(out, head[i], now) { return; }
      out := out + [head[i]];
    }
  }

  /** The prefix taken is well ordered, and no longer prefix within the limit is. */
  lemma PrefixIsLongest(links: seq<Link>, now: int, n: nat)
    requires n <= |links| && n <= ROOM_TRANSFER_LIMIT
    ensures OrderedPrefix(links, now) <= links && |OrderedPrefix(links, now)| <= ROOM_TRANSFER_LIMIT
    ensures WellOrdered(links[..n], now) <==> n <= |OrderedPrefix(links, now)|
  {
    assert WellOrdered(links[..0], now);
    WalkIsLongest(links, now, 0, n);
  }

  lemma {:induction false} WalkIsLongest(links: seq<Link>, now: int, i: nat, n: nat)
    requires i <= |links| && i <= ROOM_TRANSFER_LIMIT && n <= |links| && n <= ROOM_TRANSFER_LIMIT
    requires WellOrdered(links[..i], now)
    ensures Walk(links, now, i) <= links && |Walk(links, now, i)| <= ROOM_TRANSFER_LIMIT
    ensures WellOrdered(links[..n], now) <==> n <= |Walk(links, now, i)|
    decreases |links| - i
  {
    if i < |links| && i < ROOM_TRANSFER_LIMIT {
      assert links[..i + 1][..i] == links[..i];
      if Fits(links[..i], links[i], now) {
        WalkIsLongest(links, now, i + 1, n);
      } else {
        assert !WellOrdered(links[..i + 1], now);
        if n > i {
          NoLongerPrefix(links, now, i + 1, n);
        } else {
          WellOrderedPrefix(links[..i], now, n);
          assert links[..i][..n] == links[..n];
        }
      }
    } else {
      WellOrderedPrefix(links[..i], now, n);
      assert links[..i][..n] == links[..n];
    }
  }

  lemma NoLongerPrefix(links: seq<Link>, now: int, i: nat, n: nat)
    requires i <= n <= |links| && !WellOrdered(links[..i], now)
    ensures !WellOrdered(links[..n], now)
  {
    assert links[..n][..i] == links[..i];
    if WellOrdered(links[..n], now) { WellOrderedPrefix(links[..n], now, i); }
  }

  lemma {:induction false} WellOrderedPrefix(chain: seq<Link>, now: int, n: nat)
    requires WellOrdered(chain, now) && n <= |chain|
    ensures WellOrdered(chain[..n], now)
    decreases |chain|
  {
    if n == |chain| {
      assert chain[..n] == chain;
    } else {
      var m := |chain| - 1;
      WellOrderedPrefix(chain[..m], now, n);
      assert chain[..m][..n] == chain[..n];
    }
  }

  // What a well-ordered chain is, link by link.
  lemma {:induction false} WellOrderedAt(chain: seq<Link>, now: int, i: nat)
    requires WellOrdered(chain, now) && i < |chain|
    ensures 0 < chain[i].at <= now + CLOCK_SLACK && chain[i].signer != "" && chain[i].newOwnerId != ""
    ensures i > 0 ==> chain[i].signer == chain[i - 1].newOwnerId && chain[i - 1].at < chain[i].at
  {
    WellOrderedPrefix(chain, now, i + 1);
    assert chain[..i + 1][..i] == chain[..i];
    if i > 0 { WellOrderedAt(chain, now, i - 1); }
  }

  // One handover of a chain, against the one before it.
  predicate GoodLink(chain: seq<Link>, i: nat, now: int)
    requires i < |chain|
  {
    var l := chain[i];
    && l.signer != "" && l.newOwnerId != "" && l.pub != "" && l.sig != "" && l.signer != l.newOwnerId
    && l.at <= MAX_SAFE_INTEGER && l.at <= now + 60_000
    && if i == 0 then l.at > 0 else l.at > chain[i - 1].at && l.signer == chain[i - 1].newOwnerId
  }

  /** A chain is well ordered exactly when every handover is complete, not from the future, newer
      than the one before and by the member that one named. */
  lemma {:induction false} WellOrderedIff(chain: seq<Link>, now: int)
    ensures WellOrdered(chain, now) <==> forall i | 0 <= i < |chain| :: GoodLink(chain, i, now)
  {
    if chain != [] {
      var n := |chain| - 1;
      WellOrderedIff(chain[..n], now);
      forall i | 0 <= i < n ensures GoodLink(chain, i, now) <==> GoodLink(chain[..n], i, now) {}
      if WellOrdered(chain[..n], now) && n > 0 { WellOrderedAt(chain[..n], now, n - 1); }
      assert WellOrdered(chain, now) <==> WellOrdered(chain[..n], now) && Fits(chain[..n], chain[n], now);
      if WellOrdered(chain[..n], now) { assert Fits(chain[..n], chain[n], now) <==> GoodLink(chain, n, now); }
    }
  }

  lemma {:induction false} StampsIncrease(chain: seq<Link>, now: int, i: nat, j: nat)
    requires WellOrdered(chain, now) && i < j < |chain|
    ensures chain[i].at < chain[j].at
  {
    WellOrderedAt(chain, now, j);
    if i < j - 1 { StampsIncrease(chain, now, i, j - 1); }
  }

  // ---- The held line ----

  datatype OwnerLine = OwnerLine(ownerId: Id, ownerPin: Id, chain: seq<Link>, at: int)

  // The same handover, whoever's proof of it is attached.
  predicate SameLink(a: Link, b: Link) { a.signer == b.signer && a.newOwnerId == b.newOwnerId && a.at == b.at }

  /** ownerChainsCompatible: neither contradicts the other where both speak. */
  predicate ChainsCompatible(held: seq<Link>, incoming: seq<Link>) {
    forall i | 0 <= i < |held| && i < |incoming| :: SameLink(held[i], incoming[i])
  }

  predicate NamesOwner(chain: seq<Link>, id: Id) { exists l | l in chain :: l.newOwnerId == id }

  predicate Signs(chain: seq<Link>, id: Id) { exists l | l in chain :: l.signer == id }

  // Does the chain start from, or pass through, the owner this line answers to?
  predicate RootAllowed(line: OwnerLine, chain: seq<Link>)
    requires chain != []
  {
    var root := chain[0].signer;
    if line.ownerPin != "" then root == line.ownerPin || NamesOwner(chain, line.ownerPin)
    else
      var known := if line.chain != [] && line.chain[0].signer != "" then line.chain[0].signer else line.ownerId;
      known == "" || root == known || Signs(chain, known) || NamesOwner(chain, known)
  }

  predicate Anchored(line: OwnerLine, chain: seq<Link>) {
    chain != [] && |chain| >= |line.chain| && ChainsCompatible(line.chain, chain) && RootAllowed(line, chain)
  }

  predicate Advances(line: OwnerLine, chain: seq<Link>) {
    var at := LastAt(chain);
    Anchored(line, chain) && (at > line.at || (at == line.at && |chain| > |line.chain|))
  }

  function Adopt(line: OwnerLine, chain: seq<Link>): OwnerLine
    requires chain != []
  {
    line.(chain := chain, at := LastAt(chain), ownerId := chain[|chain| - 1].newOwnerId)
  }

  predicate PinHolds(pin: Id, chain: seq<Link>) {
    pin != "" && chain != [] ==> chain[0].signer == pin || NamesOwner(chain, pin)
  }

  // The clock at which a chain was accepted is gone by the time it is looked at again.
  ghost predicate Ordered(chain: seq<Link>) { exists now: int :: WellOrdered(chain, now) }

  /** What every reachable line is: one contiguous strictly increasing chain of at most
      eight handovers through the pin, its last link naming the owner. */
  ghost predicate LineInv(line: OwnerLine) {
    && Ordered(line.chain) && |line.chain| <= ROOM_TRANSFER_LIMIT
    && line.at == LastAt(line.chain) && PinHolds(line.ownerPin, line.chain)
    && (line.chain != [] ==> line.ownerId == line.chain[|line.chain| - 1].newOwnerId)
  }

  /** The stamps add nothing: a well-ordered chain advances the line if and only if it is a
      strictly longer continuation of it from an allowed root. So no adoption ever replaces
      a link, shortens the chain or keeps its length. */
  lemma AdvancesIff(line: OwnerLine, chain: seq<Link>, now: int)
    requires LineInv(line) && WellOrdered(chain, now)
    ensures Advances(line, chain) <==>
            |chain| > |line.chain| && ChainsCompatible(line.chain, chain) && RootAllowed(line, chain)
  {
    if chain != [] && ChainsCompatible(line.chain, chain) && line.chain != [] {
      var n := |line.chain| - 1;
      if |chain| == |line.chain| { assert SameLink(line.chain[n], chain[n]); }
      if |chain| > |line.chain| {
        assert SameLink(line.chain[n], chain[n]);
        StampsIncrease(chain, now, n, |chain| - 1);
      }
    } else if chain != [] {
      WellOrderedAt(chain, now, |chain| - 1);
    }
  }

  // The member takes part in one of the handovers.
  ghost predicate TakesPart(chain: seq<Link>, id: Id) {
    exists i :: 0 <= i < |chain| && (chain[i].signer == id || chain[i].newOwnerId == id)
  }

  // Who signs a well-ordered chain after the first link is named by the link before.
  lemma RootOrNamed(chain: seq<Link>, now: int, id: Id)
    requires WellOrdered(chain, now) && chain != []
    ensures TakesPart(chain, id) <==> chain[0].signer == id || NamesOwner(chain, id)
    ensures TakesPart(chain, id) <==> chain[0].signer == id || Signs(chain, id) || NamesOwner(chain, id)
  {
    if i :| 0 <= i < |chain| && (chain[i].signer == id || chain[i].newOwnerId == id) {
      assert chain[i] in chain;
      WellOrderedAt(chain, now, i);
      if i > 0 { assert chain[i - 1] in chain; }
    }
    if chain[0].signer == id { assert TakesPart(chain, id); }
    if l :| l in chain && (l.signer == id || l.newOwnerId == id) {
      var i :| 0 <= i < |chain| && chain[i] == l;
    }
  }

  /** Which chains take over. Against a held chain it is the strictly longer ones that say the same
      as far as it goes. Without one, a line with a pin takes a chain the pinned member takes part
      in; one without a pin but with an owner, a chain that owner takes part in; and one that knows
      nobody, any. */
  lemma TakesOverIff(line: OwnerLine, chain: seq<Link>, now: int)
    requires LineInv(line) && WellOrdered(chain, now)
    ensures Advances(line, chain) <==>
            if line.chain != [] then
              |chain| > |line.chain|
              && forall i | 0 <= i < |line.chain| ::
                   chain[i].signer == line.chain[i].signer && chain[i].newOwnerId == line.chain[i].newOwnerId
                   && chain[i].at == line.chain[i].at
            else
              chain != []
              && if line.ownerPin != "" then TakesPart(chain, line.ownerPin)
                 else line.ownerId == "" || TakesPart(chain, line.ownerId)
  {
    AdvancesIff(line, chain, now);
    if chain != [] {
      RootOrNamed(chain, now, line.ownerPin);
      RootOrNamed(chain, now, line.ownerId);
      if line.chain != [] && |chain| > |line.chain| && ChainsCompatible(line.chain, chain) {
        HeldRootAllowed(line, chain);
      }
    }
  }

  lemma HeldRootAllowed(line: OwnerLine, chain: seq<Link>)
    requires LineInv(line) && line.chain != [] && |chain| > |line.chain| && ChainsCompatible(line.chain, chain)
    ensures RootAllowed(line, chain)
  {
    assert SameLink(line.chain[0], chain[0]);
    var now: int :| WellOrdered(line.chain, now);
    WellOrderedAt(line.chain, now, 0);
    if line.ownerPin != "" && line.chain[0].signer != line.ownerPin {
      var l :| l in line.chain && l.newOwnerId == line.ownerPin;
      var i :| 0 <= i < |line.chain| && line.chain[i] == l;
      assert SameLink(line.chain[i], chain[i]) && chain[i] in chain;
    }
  }

  // ---- Non-equivocation ----

  /** Every link of the chain is the one handover its signer ever made. */
  ghost predicate Honours(chain: seq<Link>, handover: Id -> (Id, int)) {
    forall l | l in chain :: handover(l.signer) == (l.newOwnerId, l.at)
  }

  /** Where no member signs two different handovers, lines from one root never fork: of any
      two, one continues the other. */
  lemma SameRootSameLine(a: seq<Link>, b: seq<Link>, now: int, later: int, handover: Id -> (Id, int))
    requires WellOrdered(a, now) && WellOrdered(b, later) && Honours(a, handover) && Honours(b, handover)
    requires a != [] && b != [] && a[0].signer == b[0].signer
    ensures ChainsCompatible(a, b)
  {
    forall i | 0 <= i < |a| && i < |b| ensures SameLink(a[i], b[i]) {
      SameRootAt(a, b, now, later, handover, i);
    }
  }

  lemma {:induction false} SameRootAt(
    a: seq<Link>, b: seq<Link>, now: int, later: int, handover: Id -> (Id, int), i: nat)
    requires WellOrdered(a, now) && WellOrdered(b, later) && Honours(a, handover) && Honours(b, handover)
    requires i < |a| && i < |b| && a[0].signer == b[0].signer
    ensures SameLink(a[i], b[i])
  {
    assert a[i] in a && b[i] in b;
    if i > 0 {
      SameRootAt(a, b, now, later, handover, i - 1);
      WellOrderedAt(a, now, i);
      WellOrderedAt(b, later, i);
    }
  }

  // ---- Deleting and reviving files ----

  predicate CanDelete(owner: Id, author: Option<Id>, signer: Id) {
    signer != "" && ((owner != "" && signer == owner) || (author.Some? && author.value != "" && signer == author.value))
  }

  predicate CanRevive(owner: Id, deleter: Option<Id>, signer: Id) { CanDelete(owner, deleter, signer) }

  predicate CurrentDeletion(at: int, addedAt: Option<int>, revivedAt: Option<int>, now: int) {
    SafeInteger(at) && 0 < at <= now + CLOCK_SLACK
    && !(addedAt.Some? && addedAt.value > at) && !(revivedAt.Some? && revivedAt.value >= at)
  }

  // ---- Bans ----

  const ROOM_BAN_LIMIT := 2048

  datatype BanSnapshot = BanSnapshot(ownerId: Id, revision: int, bans: seq<Id>, pub: string, sig: string)

  predicate ValidBanSnapshot(p: BanSnapshot) {
    0 < |p.ownerId| <= 1024 && SafeInteger(p.revision) && p.revision > 0
    && 0 < |p.pub| <= 2048 && 0 < |p.sig| <= 1024 && |p.bans| <= ROOM_BAN_LIMIT
    && forall i | 0 <= i < |p.bans| ::
         0 < |p.bans[i]| <= 128 && p.bans[i] != p.ownerId && (i > 0 ==> Less(p.bans[i - 1], p.bans[i]))
  }

  /** banSnapshotAdvances: nothing held may be missing, and under one owner the revision
      only goes up (the very same proof may come again). */
  predicate BanSnapshotAdvances(p: BanSnapshot, ownerId: Id, previous: Option<BanSnapshot>, held: set<Id>) {
    p.ownerId == ownerId && held <= Elements(p.bans)
    && (previous == None || previous.value.ownerId != p.ownerId
        || p.revision > previous.value.revision
        || (p.revision == previous.value.revision && p.sig == previous.value.sig))
  }

  /** A valid snapshot lists its bans in the one sorted way, so the bytes that are signed
      depend on the banned set alone. */
  lemma SnapshotIsCanonical(p: BanSnapshot)
    requires ValidBanSnapshot(p)
    ensures p.bans == Sorted(Elements(p.bans)) && |Elements(p.bans)| == |p.bans| && p.ownerId !in p.bans
  {
    forall i, j | 0 <= i < j < |p.bans| ensures Less(p.bans[i], p.bans[j]) { BansAscend(p, i, j); }
    AscendingUnique(p.bans, Sorted(Elements(p.bans)));
  }

  /** The valid snapshots are exactly the sorted lists of up to 2048 ids of up to 128 characters,
      the owner's not among them, with a revision and a proof. */
  lemma ValidSnapshotIff(p: BanSnapshot)
    ensures ValidBanSnapshot(p) <==>
            && 0 < |p.ownerId| <= 1024 && 0 < p.revision <= MAX_SAFE_INTEGER
            && 0 < |p.pub| <= 2048 && 0 < |p.sig| <= 1024
            && |p.bans| <= 2048 && p.bans == Sorted(Elements(p.bans))
            && forall m | m in p.bans :: 0 < |m| <= 128 && m != p.ownerId
  {
    if ValidBanSnapshot(p) {
      SnapshotIsCanonical(p);
      forall m | m in p.bans ensures 0 < |m| <= 128 && m != p.ownerId {
        var i :| 0 <= i < |p.bans| && p.bans[i] == m;
      }
    }
    if p.bans == Sorted(Elements(p.bans)) {
      var bans := Sorted(Elements(p.bans));
      assert Ascending(bans);
      forall i | 0 < i < |p.bans| ensures Less(p.bans[i - 1], p.bans[i]) { assert Less(bans[i - 1], bans[i]); }
      assert forall i | 0 <= i < |p.bans| :: p.bans[i] in p.bans;
    }
  }

  /** A snapshot may replace another of the same owner only by adding to it at a higher revision;
      the first one of an owner, at any revision, as long as it names everybody banned so far. */
  lemma SnapshotReplacesIff(p: BanSnapshot, ownerId: Id, previous: Option<BanSnapshot>, held: set<Id>)
    ensures BanSnapshotAdvances(p, ownerId, previous, held) <==>
            && p.ownerId == ownerId && (forall m | m in held :: m in p.bans)
            && (previous.Some? && previous.value.ownerId == ownerId ==>
                  previous.value.revision < p.revision
                  || (previous.value.revision == p.revision && previous.value.sig == p.sig))
  {
    assert forall m :: m in Elements(p.bans) <==> m in p.bans;
  }

  lemma {:induction false} BansAscend(p: BanSnapshot, i: nat, j: nat)
    requires ValidBanSnapshot(p) && i < j < |p.bans|
    ensures Less(p.bans[i], p.bans[j])
  {
    if i < j - 1 {
      BansAscend(p, i, j - 1);
      LessTransitive(p.bans[i], p.bans[j - 1], p.bans[j]);
    }
  }
}
