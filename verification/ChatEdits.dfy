/** Edits of chat messages as a guest keeps them (guest/mesh.ts): the newest edit by the
    message's author wins, and edits that arrive before their message wait for it. */
module ChatEdits {
  import opened Ids
  import opened Dicts

  const MAX_CHAT := 200

  datatype Edit = Edit(text: string, at: int, signer: Id, pub: string, sig: string)

  // Later stamp first; the signature breaks ties.
  predicate Newer(a: Edit, b: Edit) { a.at > b.at || (a.at == b.at && Less(b.sig, a.sig)) }

  lemma NewerTransitive(a: Edit, b: Edit, c: Edit)
    requires Newer(a, b) && Newer(b, c)
    ensures Newer(a, c)
  {
    if a.at == b.at == c.at { LessTransitive(c.sig, b.sig, a.sig); }
  }

  /** `authors` is who said which message; `pending` holds verified edits of messages that
      have not arrived. */
  datatype Chat = Chat(authors: map<Id, Id>, edits: map<Id, Edit>, pending: Dict<Edit>)

  predicate Supersedes(e: Edit, held: Option<Edit>) { held == None || Newer(e, held.value) }

  function Held(m: map<Id, Edit>, id: Id): Option<Edit> { if id in m then Some(m[id]) else None }

  function ApplyEdit(c: Chat, msgId: Id, e: Edit): Chat {
    if msgId !in c.authors then
      if Supersedes(e, Held(c.pending.at, msgId)) then c.(pending := c.pending.Set(msgId, e).Newest(MAX_CHAT)) else c
    else if Supersedes(e, Held(c.edits, msgId)) then c.(edits := c.edits[msgId := e]) else c
  }

  // The chat-edit frame, its signature verified.
  function HearEdit(c: Chat, msgId: Id, e: Edit): Chat {
    if msgId in c.authors && c.authors[msgId] != e.signer then c else ApplyEdit(c, msgId, e)
  }

  function FlushPending(c: Chat, msgId: Id): Chat {
    if msgId !in c.pending.at then c
    else
      var e := c.pending.at[msgId];
      var d := c.(pending := c.pending.Delete(msgId));
      if msgId in c.authors && c.authors[msgId] == e.signer then ApplyEdit(d, msgId, e) else d
  }

  function HearMessage(c: Chat, msgId: Id, author: Id): Chat {
    if msgId in c.authors then c else FlushPending(c.(authors := c.authors[msgId := author]), msgId)
  }

  datatype Event = Said(msgId: Id, author: Id) | Edited(msgId: Id, edit: Edit)

  function Step(c: Chat, e: Event): Chat {
    if e.Said? then HearMessage(c, e.msgId, e.author) else HearEdit(c, e.msgId, e.edit)
  }

  function Run(c: Chat, es: seq<Event>): Chat {
    if es == [] then c else Step(Run(c, es[..|es| - 1]), es[|es| - 1])
  }

  function Fresh(): Chat { Chat(map[], map[], Empty()) }

  // ---- The class ----

  class Edits {
    var authors: map<Id, Id>
    var chatEdits: map<Id, Edit>
    var pendingEdits: Dict<Edit>

    function State(): Chat
      reads this
    {
      Chat(authors, chatEdits, pendingEdits)
    }

    constructor ()
      ensures State() == Fresh()
    {
      authors, chatEdits, pendingEdits := map[], map[], Empty();
    }

    method Apply(msgId: Id, e: Edit, haveTarget: bool)
      requires haveTarget == (msgId in authors) && pendingEdits.Valid()
      modifies this`chatEdits, this`pendingEdits
      ensures State() == ApplyEdit(old(State()), msgId, e) && pendingEdits.Valid()
    {
      if !haveTarget {
        if msgId in pendingEdits.at && !Newer(e, pendingEdits.at[msgId]) { return; }
        SetValid(pendingEdits, msgId, e);
        pendingEdits := CapFifo(pendingEdits.Set(msgId, e), MAX_CHAT);
        return;
      }
      if msgId in chatEdits && !Newer(e, chatEdits[msgId]) { return; }
      chatEdits := chatEdits[msgId := e];
    }

    method OnEdit(msgId: Id, e: Edit)
      requires pendingEdits.Valid()
      modifies this`chatEdits, this`pendingEdits
      ensures State() == HearEdit(old(State()), msgId, e) && pendingEdits.Valid()
    {
      if msgId in authors && authors[msgId] != e.signer { return; }
      Apply(msgId, e, msgId in authors);
    }

    method Flush(msgId: Id)
      requires pendingEdits.Valid()
      modifies this`chatEdits, this`pendingEdits
      ensures State() == FlushPending(old(State()), msgId) && pendingEdits.Valid()
    {
      if msgId !in pendingEdits.at { return; }
      var e := pendingEdits.at[msgId];
      DeleteValid(pendingEdits, msgId);
      pendingEdits := pendingEdits.Delete(msgId);
      if msgId !in authors || authors[msgId] != e.signer { return; }
      Apply(msgId, e, true);
    }

    method OnMessage(msgId: Id, author: Id)
      requires pendingEdits.Valid()
      modifies this
      ensures State() == HearMessage(old(State()), msgId, author) && pendingEdits.Valid()
    {
      if msgId in authors { return; }
      authors := authors[msgId := author];
      Flush(msgId);
    }
  }

  // ---- What is left standing ----

  ghost predicate IsTop(o: Option<Edit>, s: set<Edit>) {
    && (o == None <==> s == {})
    && (o.Some? ==> o.value in s && forall x | x in s :: !Newer(x, o.value))
  }

  lemma TopAdd(o: Option<Edit>, s: set<Edit>, e: Edit)
    requires IsTop(o, s)
    ensures IsTop(if Supersedes(e, o) then Some(e) else o, s + {e})
  {
    LessIrreflexive(e.sig);
    if o.Some? && Newer(e, o.value) {
      forall x | x in s + {e} ensures !Newer(x, e) {
        if Newer(x, e) && x in s { NewerTransitive(x, e, o.value); }
      }
    }
  }

  // The edits of a message in a run, and those of them by one member.
  function EditsOf(es: seq<Event>, msgId: Id): set<Edit> {
    set e | e in es && e.Edited? && e.msgId == msgId :: e.edit
  }

  function By(s: set<Edit>, author: Id): set<Edit> { set e | e in s && e.signer == author }

  predicate Unsaid(es: seq<Event>, msgId: Id) { forall e | e in es && e.Said? :: e.msgId != msgId }

  // No more messages are about than a guest keeps pending edits for.
  ghost predicate Within(es: seq<Event>, universe: set<Id>) {
    |universe| <= MAX_CHAT && forall e | e in es :: e.msgId in universe
  }

  ghost predicate Bounded(c: Chat, universe: set<Id>) { c.pending.Valid() && c.pending.at.Keys <= universe }

  lemma ApplyEditBounded(c: Chat, msgId: Id, e: Edit, universe: set<Id>)
    requires Bounded(c, universe) && msgId in universe && |universe| <= MAX_CHAT
    ensures Bounded(ApplyEdit(c, msgId, e), universe)
    ensures c.pending.Set(msgId, e).Newest(MAX_CHAT) == c.pending.Set(msgId, e)
  {
    SetValid(c.pending, msgId, e);
    KeysBounded(c.pending.Set(msgId, e), universe, MAX_CHAT);
  }

  lemma StepBounded(c: Chat, e: Event, universe: set<Id>)
    requires Bounded(c, universe) && e.msgId in universe && |universe| <= MAX_CHAT
    ensures Bounded(Step(c, e), universe)
  {
    if e.Edited? {
      ApplyEditBounded(c, e.msgId, e.edit, universe);
    } else if e.msgId !in c.authors && e.msgId in c.pending.at {
      var d := c.(authors := c.authors[e.msgId := e.author], pending := c.pending.Delete(e.msgId));
      DeleteValid(c.pending, e.msgId);
      ApplyEditBounded(d, e.msgId, c.pending.at[e.msgId], universe);
    }
  }

  lemma {:induction false} RunBounded(es: seq<Event>, universe: set<Id>)
    requires Within(es, universe)
    ensures Bounded(Run(Fresh(), es), universe)
  {
    if es != [] {
      RunBounded(es[..|es| - 1], universe);
      StepBounded(Run(Fresh(), es[..|es| - 1]), es[|es| - 1], universe);
    }
  }

  // Events about other messages change nothing about this one.
  lemma OtherMessage(c: Chat, e: Event, msgId: Id, universe: set<Id>)
    requires Bounded(c, universe) && e.msgId in universe && |universe| <= MAX_CHAT && e.msgId != msgId
    ensures var d := Step(c, e);
            && (msgId in d.authors <==> msgId in c.authors)
            && (msgId in c.authors ==> d.authors[msgId] == c.authors[msgId])
            && Held(d.edits, msgId) == Held(c.edits, msgId) && Held(d.pending.at, msgId) == Held(c.pending.at, msgId)
  {
    if e.Edited? {
      ApplyEditBounded(c, e.msgId, e.edit, universe);
    } else if e.msgId !in c.authors && e.msgId in c.pending.at {
      var d := c.(authors := c.authors[e.msgId := e.author], pending := c.pending.Delete(e.msgId));
      DeleteValid(c.pending, e.msgId);
      ApplyEditBounded(d, e.msgId, c.pending.at[e.msgId], universe);
    }
  }

  lemma EditsOfLast(es: seq<Event>, msgId: Id)
    requires es != []
    ensures var n := |es| - 1;
            EditsOf(es, msgId) == EditsOf(es[..n], msgId)
              + if es[n].Edited? && es[n].msgId == msgId then {es[n].edit} else {}
  {
    assert es == es[..|es| - 1] + [es[|es| - 1]];
  }

  // Until its message arrives, the newest edit waits, whoever signed it.
  lemma {:induction false} PendingIsTop(es: seq<Event>, msgId: Id, universe: set<Id>)
    requires Within(es, universe) && Unsaid(es, msgId)
    ensures var c := Run(Fresh(), es);
            msgId !in c.authors && msgId !in c.edits && IsTop(Held(c.pending.at, msgId), EditsOf(es, msgId))
  {
    if es != [] {
      var n := |es| - 1;
      var c, e := Run(Fresh(), es[..n]), es[n];
      PendingIsTop(es[..n], msgId, universe);
      RunBounded(es[..n], universe);
      EditsOfLast(es, msgId);
      if e.msgId != msgId {
        OtherMessage(c, e, msgId, universe);
      } else {
        ApplyEditBounded(c, msgId, e.edit, universe);
        TopAdd(Held(c.pending.at, msgId), EditsOf(es[..n], msgId), e.edit);
      }
    }
  }

  // What the edits before the message come to once it arrives: the newest of them, if its
  // author's.
  ghost predicate Survives(s: set<Edit>, before: set<Edit>, author: Id) {
    (exists e :: IsTop(Some(e), before) && e.signer == author && s == {e})
    || (s == {} && (before == {} || exists e :: IsTop(Some(e), before) && e.signer != author))
  }

  lemma SaidStep(before: seq<Event>, msgId: Id, author: Id, universe: set<Id>) returns (s: set<Edit>)
    requires Within(before, universe) && Unsaid(before, msgId) && msgId in universe
    ensures Survives(s, EditsOf(before, msgId), author)
    ensures var c := Step(Run(Fresh(), before), Said(msgId, author));
            msgId in c.authors && c.authors[msgId] == author && IsTop(Held(c.edits, msgId), s)
  {
    var c := Run(Fresh(), before);
    PendingIsTop(before, msgId, universe);
    var p := Held(c.pending.at, msgId);
    s := if p.Some? && p.value.signer == author then {p.value} else {};
    if p.Some? { LessIrreflexive(p.value.sig); }
  }

  // From then on the author's edits compete, and nobody else's.
  lemma {:induction false} AuthorsCompete(
    c: Chat, s: set<Edit>, after: seq<Event>, msgId: Id, author: Id, universe: set<Id>)
    requires Bounded(c, universe) && Within(after, universe) && msgId in c.authors && c.authors[msgId] == author
    requires IsTop(Held(c.edits, msgId), s)
    ensures var d := Run(c, after);
            && Bounded(d, universe) && msgId in d.authors && d.authors[msgId] == author
            && IsTop(Held(d.edits, msgId), s + By(EditsOf(after, msgId), author))
  {
    if after == [] {
      assert s + By(EditsOf(after, msgId), author) == s;
    } else {
      var n := |after| - 1;
      var d, e := Run(c, after[..n]), after[n];
      AuthorsCompete(c, s, after[..n], msgId, author, universe);
      StepBounded(d, e, universe);
      EditsOfLast(after, msgId);
      var t := s + By(EditsOf(after[..n], msgId), author);
      if e.msgId != msgId {
        OtherMessage(d, e, msgId, universe);
        assert s + By(EditsOf(after, msgId), author) == t;
      } else if e.Edited? && e.edit.signer == author {
        TopAdd(Held(d.edits, msgId), t, e.edit);
        assert s + By(EditsOf(after, msgId), author) == t + {e.edit};
      } else {
        assert s + By(EditsOf(after, msgId), author) == t;
      }
    }
  }

  lemma {:induction false} RunConcat(c: Chat, a: seq<Event>, b: seq<Event>)
    ensures Run(c, a + b) == Run(Run(c, a), b)
  {
    if b == [] {
      assert a + b == a;
    } else {
      assert (a + b)[..|a + b| - 1] == a + b[..|b| - 1];
      RunConcat(c, a, b[..|b| - 1]);
    }
  }

  // No two edits of the message carry the same stamp and signature.
  ghost predicate KeyedApart(s: set<Edit>) { forall x, y | x in s && y in s && x != y :: Newer(x, y) || Newer(y, x) }

  lemma SaidAt(before: seq<Event>, msgId: Id, author: Id)
    ensures Run(Fresh(), before + [Said(msgId, author)]) == Step(Run(Fresh(), before), Said(msgId, author))
  {
    assert (before + [Said(msgId, author)])[..|before|] == before;
  }

  /** The author's newest edit is what stands in the end if and only if it arrives after the
      message, or no other member's edit of the message that arrived before it is newer: an
      edit that waits can be pushed out by anybody's. */
  lemma AuthorsEditStandsIff(
    before: seq<Event>, after: seq<Event>, msgId: Id, author: Id, best: Edit, universe: set<Id>)
    requires Within(before + [Said(msgId, author)] + after, universe) && Unsaid(before, msgId)
    requires KeyedApart(EditsOf(before, msgId) + EditsOf(after, msgId))
    requires IsTop(Some(best), By(EditsOf(before, msgId) + EditsOf(after, msgId), author))
    ensures Held(Run(Fresh(), before + [Said(msgId, author)] + after).edits, msgId) == Some(best) <==>
            best in EditsOf(after, msgId) || forall x | x in EditsOf(before, msgId) :: !Newer(x, best)
  {
    var all := before + [Said(msgId, author)] + after;
    assert forall e | e in before :: e in all;
    assert forall e | e in after :: e in all;
    assert Said(msgId, author) in all;
    var s := SaidStep(before, msgId, author, universe);
    SaidAt(before, msgId, author);
    RunBounded(before, universe);
    var c := Step(Run(Fresh(), before), Said(msgId, author));
    StepBounded(Run(Fresh(), before), Said(msgId, author), universe);
    AuthorsCompete(c, s, after, msgId, author, universe);
    RunConcat(Fresh(), before + [Said(msgId, author)], after);
    BestStands(Held(Run(c, after).edits, msgId), s, EditsOf(before, msgId), EditsOf(after, msgId), author, best);
  }

  /** Of two edits by the author of a known message the one with the later stamp stands, in either
      order; at equal stamps the one with the greater signature. */
  lemma LaterEditStands(c: Chat, msgId: Id, late: Edit, early: Edit)
    requires msgId in c.authors && c.authors[msgId] == late.signer == early.signer && msgId !in c.edits
    requires late.at > early.at || (late.at == early.at && Less(early.sig, late.sig))
    ensures HearEdit(HearEdit(c, msgId, late), msgId, early) == c.(edits := c.edits[msgId := late])
    ensures HearEdit(HearEdit(c, msgId, early), msgId, late) == c.(edits := c.edits[msgId := late])
  {
    if late.at == early.at { LessAsymmetric(early.sig, late.sig); }
    assert c.edits[msgId := early][msgId := late] == c.edits[msgId := late];
  }

  lemma OnlyTop(o: Option<Edit>, s: set<Edit>, e: Edit)
    requires IsTop(o, s) && KeyedApart(s) && e in s && forall x | x in s :: !Newer(x, e)
    ensures o == Some(e)
  {}

  lemma BestStands(o: Option<Edit>, s: set<Edit>, before: set<Edit>, after: set<Edit>, author: Id, best: Edit)
    requires Survives(s, before, author) && IsTop(o, s + By(after, author))
    requires KeyedApart(before + after) && IsTop(Some(best), By(before + after, author))
    ensures o == Some(best) <==> best in after || forall x | x in before :: !Newer(x, best)
  {
    assert best in before + after && best.signer == author;
    assert forall x | x in s + By(after, author) :: x in By(before + after, author);
    if best in s + By(after, author) { OnlyTop(o, s + By(after, author), best); }
    if best !in after {
      if forall x | x in before :: !Newer(x, best) {
        forall e | IsTop(Some(e), before) ensures e == best { OnlyTop(Some(e), before, best); }
        assert s == {best};
      } else {
        assert !IsTop(Some(best), before);
        assert best !in s;
      }
    }
  }

  /** Any newer edit of somebody else's does it: of the author's, that came before the message
      and before the other one, nothing is left, and of the other nothing either. */
  lemma AuthorsEditDropped(msgId: Id, author: Id, mine: Edit, theirs: Edit)
    requires mine.signer == author && theirs.signer != author && Newer(theirs, mine)
    ensures var c := Run(Fresh(), [Edited(msgId, mine), Edited(msgId, theirs), Said(msgId, author)]);
            msgId in c.authors && msgId !in c.edits && msgId !in c.pending.at
  {
    var a, b, m := Edited(msgId, mine), Edited(msgId, theirs), Said(msgId, author);
    var none: seq<Event> := [];
    assert [a, b, m][..2] == [a, b] && [a, b][..1] == [a] && [a][..0] == none;
    var one := Step(Fresh(), a);
    assert one.pending.keys == [msgId] && one.pending.at == map[msgId := mine];
    var two := Step(one, b);
    assert two.pending.keys == [msgId] && two.pending.at == map[msgId := theirs];
    assert Run(Fresh(), [a]) == one && Run(Fresh(), [a, b]) == two;
  }

  /** So whatever the order of arrival, and however often edits repeat, two guests keep the
      same edit of a message, its author's newest, unless a newer one by somebody else got
      to either of them before the message did. */
  lemma EditsConverge(
    before: seq<Event>, after: seq<Event>, before': seq<Event>, after': seq<Event>,
    msgId: Id, author: Id, best: Edit, universe: set<Id>)
    requires Within(before + [Said(msgId, author)] + after, universe) && Unsaid(before, msgId)
    requires Within(before' + [Said(msgId, author)] + after', universe) && Unsaid(before', msgId)
    requires EditsOf(before, msgId) + EditsOf(after, msgId) == EditsOf(before', msgId) + EditsOf(after', msgId)
    requires KeyedApart(EditsOf(before, msgId) + EditsOf(after, msgId))
    requires IsTop(Some(best), By(EditsOf(before, msgId) + EditsOf(after, msgId), author))
    requires forall x | x in EditsOf(before, msgId) + EditsOf(before', msgId) && x.signer != author :: !Newer(x, best)
    ensures Held(Run(Fresh(), before + [Said(msgId, author)] + after).edits, msgId) == Some(best)
    ensures Held(Run(Fresh(), before' + [Said(msgId, author)] + after').edits, msgId) == Some(best)
  {
    NoneNewer(before, after, msgId, author, best);
    NoneNewer(before', after', msgId, author, best);
    AuthorsEditStandsIff(before, after, msgId, author, best, universe);
    AuthorsEditStandsIff(before', after', msgId, author, best, universe);
  }

  lemma NoneNewer(before: seq<Event>, after: seq<Event>, msgId: Id, author: Id, best: Edit)
    requires IsTop(Some(best), By(EditsOf(before, msgId) + EditsOf(after, msgId), author))
    requires forall x | x in EditsOf(before, msgId) && x.signer != author :: !Newer(x, best)
    ensures forall x | x in EditsOf(before, msgId) :: !Newer(x, best)
  {
    forall x | x in EditsOf(before, msgId) ensures !Newer(x, best) {
      if x.signer == author { assert x in By(EditsOf(before, msgId) + EditsOf(after, msgId), author); }
    }
  }
}
