/** What a browser guest does take up (guest/mesh.ts): handovers, ban lists, keys and members, each
    with the exact condition, in terms of keys, signatures and what the guest knows already. */
module GuestGrants {
  import opened Ids
  import opened Numbers
  import opened Dicts
  import opened RoomAuthority
  import opened GuestState
  import opened GuestSafety
  import opened GuestTheorems
  import opened GuestAuthority

  // ---- Keys ----

  /** A signature counts if and only if it is made with the member's own key over just this, and the
      key is the one known for the member, or there is room to learn it. */
  lemma VerifiesIff(g: Self, r: Room, m: Id, pub: string, sig: string, p: Payload)
    ensures Verifies(g.crypto, r.identities, m, pub, sig, p) <==>
            m != "" && sig != "" && g.crypto.memberIdOf(pub) == m && KeyKnown(r, m, pub) && g.crypto.valid(pub, p, sig)
  {}

  // ---- Handovers ----

  // A complete offer of a line: in order, and every handover signed with its signer's own key.
  ghost predicate IsSignedLine(c: Crypto, links: seq<Link>, now: int) {
    && WellOrdered(links, now) && 0 < |links| <= 8
    && forall i | 0 <= i < |links| ::
         var l := links[i];
         c.memberIdOf(l.pub) == l.signer
         && c.valid(l.pub, TransferOf(links[0].signer, l.signer, l.newOwnerId, l.at), l.sig)
  }

  // None of the keys contradicts a known one, and there is room to learn them all.
  ghost predicate KeysFit(r: Room, links: seq<Link>) {
    && |r.identities| + |links| <= 2048
    && (forall m | m in r.identities :: r.identities[m] != "")
    && (forall l | l in links && l.signer in r.identities :: r.identities[l.signer] == l.pub)
    && forall l, k | l in links && k in links && l.signer == k.signer :: l.pub == k.pub
  }

  function BindAll(ids: map<Id, string>, links: seq<Link>): map<Id, string> {
    if links == [] then ids else
      Bind(BindAll(ids, links[..|links| - 1]), links[|links| - 1].signer, links[|links| - 1].pub)
  }

  lemma {:induction false} BindAllIs(r: Room, links: seq<Link>)
    requires KeysFit(r, links)
    ensures var ids := BindAll(r.identities, links);
            && |ids| <= |r.identities| + |links|
            && (forall m | m in r.identities :: m in ids && ids[m] == r.identities[m])
            && (forall l | l in links :: l.signer in ids && ids[l.signer] == l.pub)
            && (forall m | m in ids && m !in r.identities :: exists l :: l in links && l.signer == m)
  {
    if links != [] {
      var front, last := links[..|links| - 1], links[|links| - 1];
      assert links == front + [last];
      assert forall l | l in front :: l in links;
      BindAllIs(r, front);
      var ids := BindAll(r.identities, front);
      if last.signer !in ids {
        OneMoreKey(ids, last.signer, last.pub);
      } else if last.signer !in r.identities {
        var l :| l in front && l.signer == last.signer;
        assert l in links && last in links;
      } else {
        assert last in links;
      }
    }
  }

  lemma {:induction false} AllChecked(g: Self, r: Room, links: seq<Link>, now: int, i: nat)
    requires IsSignedLine(g.crypto, links, now) && KeysFit(r, links) && i <= |links|
    ensures CheckLinks(g.crypto, BindAll(r.identities, links[..i]), links[0].signer, links, i)
            == Checked(links, BindAll(r.identities, links))
    decreases |links| - i
  {
    if i < |links| {
      NextChecked(g, r, links, now, i);
      assert links[..i + 1][..i] == links[..i];
      AllChecked(g, r, links, now, i + 1);
    } else {
      assert links[..i] == links;
    }
  }

  lemma NextChecked(g: Self, r: Room, links: seq<Link>, now: int, i: nat)
    requires IsSignedLine(g.crypto, links, now) && KeysFit(r, links) && i < |links|
    ensures LinkVerifies(g.crypto, BindAll(r.identities, links[..i]), links[0].signer, links[i])
  {
    var front := links[..i];
    assert forall l | l in front :: l in links;
    BindAllIs(r, front);
    WellOrderedIff(links, now);
    assert GoodLink(links, i, now) && links[i] in links;
    var ids := BindAll(r.identities, front);
    if links[i].signer in ids && links[i].signer !in r.identities {
      var l :| l in front && l.signer == links[i].signer;
      assert ids[l.signer] == l.pub;
    }
  }

  /** A signed line whose keys fit is taken up exactly when it takes over from the one held and ends
      with nobody banned; its keys are learned either way. */
  lemma SignedLineTakenIff(g: Self, r: Room, links: seq<Link>, now: int)
    requires IsSignedLine(g.crypto, links, now) && KeysFit(r, links)
    ensures var s := AdoptChain(g, r, links, now);
            && s.line == (if Advances(r.line, links) && links[|links| - 1].newOwnerId !in r.roster.bans
                          then OwnerLine(links[|links| - 1].newOwnerId, r.line.ownerPin, links, links[|links| - 1].at)
                          else r.line)
            && (forall l | l in links :: l.signer in s.identities && s.identities[l.signer] == l.pub)
  {
    WholePrefix(links, now);
    assert links[..0] == [];
    AllChecked(g, r, links, now, 0);
    BindAllIs(r, links);
  }

  lemma WholePrefix(links: seq<Link>, now: int)
    requires WellOrdered(links, now) && |links| <= 8
    ensures OrderedPrefix(links, now) == links
  {
    assert links[..|links|] == links;
    PrefixIsLongest(links, now, |links|);
  }

  /** Whatever is offered, nobody banned becomes the owner by it. */
  lemma NoBannedOwner(g: Self, r: Room, links: seq<Link>, now: int)
    ensures var s := AdoptChain(g, r, links, now); s.line != r.line ==> s.line.ownerId !in r.roster.bans
  {}

  // ---- Ban lists ----

  /** A ban list counts if and only if it is valid, follows on what is held, and is signed by the
      owner; it then takes effect, unless it is the very proof held already. */
  lemma BanListTakenIff(g: Self, r: Room, p: BanSnapshot)
    ensures var b := AdoptBanState(g, r, p);
            && (b.ok <==> ValidBanSnapshot(p)
                          && BanSnapshotAdvances(p, r.line.ownerId, r.roster.banState, r.roster.bans)
                          && g.crypto.memberIdOf(p.pub) == p.ownerId && KeyKnown(r, p.ownerId, p.pub)
                          && g.crypto.valid(p.pub, BansOf(r.topic, p.ownerId, p.revision, p.bans), p.sig))
            && (!b.ok ==> b.room == r)
            && (b.ok && !(r.roster.banState.Some? && r.roster.banState.value.sig == p.sig) ==>
                  b.room.roster.banState == Some(p)
                  && (forall m :: m in b.room.roster.bans <==> m in r.roster.bans || m in p.bans)
                  && (forall m :: m in b.room.roster.members <==> m in r.roster.members && m !in p.bans)
                  && (b.room.roster.kicked <==> r.roster.kicked || g.id in r.roster.bans || g.id in p.bans))
            && (b.ok && r.roster.banState.Some? && r.roster.banState.value.sig == p.sig ==> b.room.roster == r.roster)
  {
    VerifiesIff(g, r, p.ownerId, p.pub, p.sig, BansOf(r.topic, p.ownerId, p.revision, p.bans));
  }
}
