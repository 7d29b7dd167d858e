/** The replicated folder overlay of a room (shared/room-folders.ts): last-writer-wins
    upserts and deletes by an explicit clock, applied to two maps in place. */
module RoomFolders {
  import opened Ids
  import opened Numbers
  import opened Dicts

  const ROOM_FOLDER_LIMIT := 512
  const ROOM_FOLDER_TOMB_LIMIT := 5000

  /** `parentId` is None when the record does not carry the property at all; explicit
      root is the empty string. `look` is everything else (name, icon, color). */
  datatype Folder = Folder(id: Id, at: int, parentId: Option<Id>, look: string)

  datatype Store = Store(folders: map<Id, Folder>, tombs: map<Id, int>)

  // Explicit root and a folder placed in itself are stored as ''.
  function Placed(f: Folder): Folder {
    if f.parentId.Some? && (f.parentId.value == "" || f.parentId.value == f.id) then f.(parentId := Some("")) else f
  }

  function DeletedAt(s: Store, id: Id): int { if id in s.tombs then s.tombs[id] else 0 }

  predicate UpsertApplies(s: Store, f: Folder) {
    f.id != "" && DeletedAt(s, f.id) < f.at
    && (if f.id in s.folders then s.folders[f.id].at < f.at else |s.folders| < ROOM_FOLDER_LIMIT)
  }

  function Upserted(s: Store, f: Folder): Store {
    var next := if f.parentId.Some? then Placed(f)
                else if f.id in s.folders then f.(parentId := s.folders[f.id].parentId) else f;
    Store(s.folders[f.id := next], if DeletedAt(s, f.id) != 0 then s.tombs - {f.id} else s.tombs)
  }

  function Upsert(s: Store, f: Folder): Store { if UpsertApplies(s, f) then Upserted(s, f) else s }

  predicate Removes(s: Store, id: Id, at: int) { id in s.folders && s.folders[id].at <= at }

  predicate DeleteApplies(s: Store, id: Id, at: int) {
    id != "" && (id in s.tombs || |s.tombs| < ROOM_FOLDER_TOMB_LIMIT)
    && (at > DeletedAt(s, id) || Removes(s, id, at))
  }

  function Deleted(s: Store, id: Id, at: int): Store {
    Store(if Removes(s, id, at) then s.folders - {id} else s.folders, s.tombs[id := Max(DeletedAt(s, id), at)])
  }

  function Delete(s: Store, id: Id, at: int): Store { if DeleteApplies(s, id, at) then Deleted(s, id, at) else s }

  /** The two maps the source passes around and mutates. */
  class FolderMaps {
    var folders: map<Id, Folder>
    var tombs: map<Id, int>

    function State(): Store
      reads this
    {
      Store(folders, tombs)
    }

    constructor ()
      ensures State() == Store(map[], map[])
    {
      folders, tombs := map[], map[];
    }

    method MergeUpsert(f: Folder) returns (changed: bool)
      modifies this
      ensures changed == UpsertApplies(old(State()), f) && State() == Upsert(old(State()), f)
    {
      if f.id == "" { return false; }
      var deletedAt := if f.id in tombs then tombs[f.id] else 0;
      if deletedAt >= f.at { return false; }
      if f.id !in folders && |folders| >= ROOM_FOLDER_LIMIT { return false; }
      if f.id in folders && folders[f.id].at >= f.at { return false; }
      if deletedAt != 0 { tombs := tombs - {f.id}; }
      var next := f;
      if f.parentId.None? {
        if f.id in folders && folders[f.id].parentId.Some? { next := next.(parentId := folders[f.id].parentId); }
      } else if f.parentId.value == "" || f.parentId.value == f.id {
        next := next.(parentId := Some(""));
      }
      folders := folders[f.id := next];
      return true;
    }

    method ApplyDelete(id: Id, at: int) returns (changed: bool)
      modifies this
      ensures changed == DeleteApplies(old(State()), id, at) && State() == Delete(old(State()), id, at)
    {
      if id == "" { return false; }
      if id !in tombs && |tombs| >= ROOM_FOLDER_TOMB_LIMIT { return false; }
      var prevTomb := if id in tombs then tombs[id] else 0;
      var nextTomb := Max(prevTomb, at);
      var removes := id in folders && folders[id].at <= at;
      if nextTomb == prevTomb && !removes { return false; }
      tombs := tombs[id := nextTomb];
      if removes { folders := folders - {id}; }
      return true;
    }
  }

  // ---- Convergence ----

  datatype Msg = Put(folder: Folder) | Del(id: Id, at: int)

  function Apply(s: Store, m: Msg): Store {
    match m
    case Put(f) => Upsert(s, f)
    case Del(id, at) => Delete(s, id, at)
  }

  function Run(ms: seq<Msg>): Store {
    if ms == [] then Store(map[], map[]) else Apply(Run(ms[..|ms| - 1]), ms[|ms| - 1])
  }

  /** In every run there are at most 512 folders and 5000 tombstones. */
  lemma {:induction false} CapsHold(ms: seq<Msg>)
    ensures |Run(ms).folders| <= 512 && |Run(ms).tombs| <= 5000
  {
    if ms != [] {
      CapsHold(ms[..|ms| - 1]);
      var s, m := Run(ms[..|ms| - 1]), ms[|ms| - 1];
      if m.Put? { UpsertSizes(s, m.folder); } else { DeleteSizes(s, m.id, m.at); }
    }
  }

  lemma UpsertSizes(s: Store, f: Folder)
    ensures var t := Upsert(s, f);
            && |t.tombs| <= |s.tombs|
            && (|t.folders| <= |s.folders| || |t.folders| == |s.folders| + 1 <= ROOM_FOLDER_LIMIT)
  {
    var t := Upsert(s, f);
    KeysGrow(s.folders, t.folders, f.id);
    KeysGrow(s.tombs, t.tombs, "");
  }

  lemma DeleteSizes(s: Store, id: Id, at: int)
    ensures var t := Delete(s, id, at);
            && |t.folders| <= |s.folders|
            && (|t.tombs| <= |s.tombs| || |t.tombs| == |s.tombs| + 1 <= ROOM_FOLDER_TOMB_LIMIT)
  {
    var t := Delete(s, id, at);
    KeysGrow(s.folders, t.folders, "");
    KeysGrow(s.tombs, t.tombs, id);
  }

  lemma KeysGrow<V, W>(m: map<Id, V>, n: map<Id, W>, k: Id)
    requires n.Keys <= m.Keys + {k}
    ensures |n| <= |m| + if k in n && k !in m then 1 else 0
  {
    assert |m| == |m.Keys| && |n| == |n.Keys|;
    if k in n && k !in m {
      SubsetSize(n.Keys, m.Keys + {k});
    } else {
      assert n.Keys <= m.Keys;
      SubsetSize(n.Keys, m.Keys);
    }
  }

  /** A folder that is not there yet comes in exactly when it has an id, is newer than its tombstone,
      or than nothing, and there is room. */
  lemma NewFolderIff(s: Store, f: Folder)
    requires f.id !in s.folders
    ensures f.id in Upsert(s, f).folders <==>
            f.id != "" && f.at > (if f.id in s.tombs then s.tombs[f.id] else 0) && |s.folders| < 512
  {}

  /** And a tombstone exactly when it says something, and there is room. */
  lemma NewTombIff(s: Store, id: Id, at: int)
    requires id !in s.tombs
    ensures id in Delete(s, id, at).tombs <==>
            id != "" && |s.tombs| < 5000 && (at > 0 || (id in s.folders && s.folders[id].at <= at))
  {}

  /** What an upsert that is taken up leaves of its folder: everything as sent, with the parent it had
      where none is sent, and at the root where it is sent as its own parent. */
  lemma StoredAsSent(s: Store, f: Folder)
    requires Upsert(s, f) != s
    ensures var g := Upsert(s, f).folders;
            && f.id in g && g[f.id].(parentId := f.parentId) == f
            && g[f.id].parentId == (if f.parentId == Some(f.id) then Some("")
                                    else if f.parentId == None && f.id in s.folders then s.folders[f.id].parentId
                                    else f.parentId)
            && g - {f.id} == s.folders - {f.id}
  {}

  // Every delete of id in the set is stamped at or before `at`.
  ghost predicate NoDeleteAfter(ms: set<Msg>, id: Id, at: int) {
    forall m | m in ms && m.Del? && m.id == id :: m.at <= at
  }

  ghost predicate NoPutAfter(ms: set<Msg>, id: Id, at: int) {
    forall m | m in ms && m.Put? && m.folder.id == id :: m.folder.at <= at
  }

  /** The winner of an id: its newest upsert, if that is newer than every delete of the
      id and than the clock's zero. */
  ghost predicate Wins(ms: set<Msg>, f: Folder) {
    && f.id != "" && f.at > 0 && Put(f) in ms
    && NoPutAfter(ms, f.id, f.at) && NoDeleteAfter(ms, f.id, f.at - 1)
  }

  // Is there a parent for an upsert of that stamp to inherit?
  ghost predicate Heirloom(ms: set<Msg>, id: Id, at: int) {
    exists h :: Put(h) in ms && h.id == id && h.parentId.Some? && 0 < h.at < at
  }

  /** Nothing is left to the order of arrival: upserts that tie for an id place the same
      folder, and one that names no parent has none to inherit. */
  ghost predicate Settled(ms: set<Msg>) {
    && (forall f, g | Wins(ms, f) && Wins(ms, g) && f.id == g.id :: Placed(f) == Placed(g))
    && (forall f | Wins(ms, f) && f.parentId == None :: !Heirloom(ms, f.id, f.at))
  }

  // At most 512 folders are ever put and at most 5000 deleted.
  ghost predicate Within(ms: set<Msg>, puts: set<Id>, dels: set<Id>) {
    && |puts| <= ROOM_FOLDER_LIMIT && |dels| <= ROOM_FOLDER_TOMB_LIMIT
    && (forall m | m in ms && m.Put? :: m.folder.id in puts)
    && (forall m | m in ms && m.Del? :: m.id in dels)
  }

  // What a folder map must be, id by id: the winner, placed, or absent.
  ghost predicate Converged(ms: set<Msg>, folders: map<Id, Folder>) {
    && (forall f | Wins(ms, f) :: f.id in folders && folders[f.id] == Placed(f))
    && (forall id | id in folders :: exists f :: Wins(ms, f) && f.id == id)
  }

  /** The replica invariant behind it: the newest put of an id is held exactly when no
      delete reaches it; without a folder, the tomb is the newest delete. */
  ghost predicate Tracks(s: Store, ms: set<Msg>) { forall id :: TracksId(s, ms, id) }

  ghost predicate TracksId(s: Store, ms: set<Msg>, id: Id) {
    && (id in s.folders ==> Held(s.folders[id], DeletedAt(s, id), ms, id))
    && (id !in s.folders && id != "" ==>
          NoPutAfter(ms, id, DeletedAt(s, id)) && NoDeleteAfter(ms, id, DeletedAt(s, id)))
    && (id in s.tombs ==> s.tombs[id] > 0 && Del(id, s.tombs[id]) in ms)
    && (id == "" ==> id !in s.folders && id !in s.tombs)
  }

  ghost predicate Held(held: Folder, deletedAt: int, ms: set<Msg>, id: Id) {
    && held.at > deletedAt && NoPutAfter(ms, id, held.at) && NoDeleteAfter(ms, id, held.at - 1)
    && Source(held, ms, id)
  }

  ghost predicate Source(held: Folder, ms: set<Msg>, id: Id) {
    exists f :: Put(f) in ms && f.id == id && f.at == held.at && From(held, f, ms)
  }

  // How a held record comes from the upsert f: as placed, or with a parent it inherited.
  ghost predicate From(held: Folder, f: Folder, ms: set<Msg>) {
    if f.parentId.Some? then held == Placed(f)
    else held == f.(parentId := held.parentId) && (held.parentId.Some? ==> Heirloom(ms, f.id, f.at))
  }

  predicate About(m: Msg, id: Id) { (if m.Put? then m.folder.id else m.id) == id }

  lemma BoundsGrow(ms: set<Msg>, m: Msg, id: Id, at: int)
    ensures NoPutAfter(ms + {m}, id, at) <==>
            NoPutAfter(ms, id, at) && (m.Put? && m.folder.id == id ==> m.folder.at <= at)
    ensures NoDeleteAfter(ms + {m}, id, at) <==> NoDeleteAfter(ms, id, at) && (m.Del? && m.id == id ==> m.at <= at)
  {
    assert m in ms + {m};
  }

  lemma SourceGrows(held: Folder, ms: set<Msg>, m: Msg, id: Id)
    requires Source(held, ms, id)
    ensures Source(held, ms + {m}, id)
  {
    var f :| Put(f) in ms && f.id == id && f.at == held.at && From(held, f, ms);
    assert Put(f) in ms + {m};
    if Heirloom(ms, id, f.at) { HeirloomStays(ms, ms + {m}, id, f.at); }
  }

  lemma HeirloomStays(ms: set<Msg>, ns: set<Msg>, id: Id, at: int)
    requires Heirloom(ms, id, at) && ms <= ns
    ensures Heirloom(ns, id, at)
  {
    var h :| Put(h) in ms && h.id == id && h.parentId.Some? && 0 < h.at < at;
    assert Put(h) in ns;
  }

  // A parent that is held was put in by an explicit upsert, this one or an earlier one.
  lemma HeldParent(held: Folder, ms: set<Msg>, id: Id, at: int)
    requires Source(held, ms, id) && held.parentId.Some? && 0 < held.at < at
    ensures Heirloom(ms, id, at)
  {
    var f :| Put(f) in ms && f.id == id && f.at == held.at && From(held, f, ms);
    if f.parentId == None {
      var h :| Put(h) in ms && h.id == id && h.parentId.Some? && 0 < h.at < f.at;
    }
  }

  // What an upsert that applies leaves in its place is accounted for.
  lemma UpsertedFrom(s: Store, ms: set<Msg>, f: Folder)
    requires TracksId(s, ms, f.id) && UpsertApplies(s, f)
    ensures Source(Upserted(s, f).folders[f.id], ms + {Put(f)}, f.id)
  {
    var held := Upserted(s, f).folders[f.id];
    if f.parentId == None && f.id in s.folders && s.folders[f.id].parentId.Some? {
      HeldParent(s.folders[f.id], ms, f.id, f.at);
      HeirloomStays(ms, ms + {Put(f)}, f.id, f.at);
    }
    assert Put(f) in ms + {Put(f)} && From(held, f, ms + {Put(f)});
  }

  lemma OtherIdTracked(s: Store, t: Store, ms: set<Msg>, m: Msg, id: Id)
    requires TracksId(s, ms, id) && !About(m, id)
    requires id in t.folders <==> id in s.folders
    requires id in t.tombs <==> id in s.tombs
    requires id in s.folders ==> t.folders[id] == s.folders[id]
    requires id in s.tombs ==> t.tombs[id] == s.tombs[id]
    ensures TracksId(t, ms + {m}, id)
  {
    BoundsGrow(ms, m, id, DeletedAt(s, id));
    if id in s.folders {
      BoundsGrow(ms, m, id, s.folders[id].at);
      BoundsGrow(ms, m, id, s.folders[id].at - 1);
      SourceGrows(s.folders[id], ms, m, id);
    }
  }

  lemma PutTracked(s: Store, ms: set<Msg>, f: Folder)
    requires TracksId(s, ms, f.id)
    requires f.id in s.folders || |s.folders| < ROOM_FOLDER_LIMIT
    ensures TracksId(Upsert(s, f), ms + {Put(f)}, f.id)
  {
    var m := Put(f);
    BoundsGrow(ms, m, f.id, DeletedAt(s, f.id));
    BoundsGrow(ms, m, f.id, f.at);
    BoundsGrow(ms, m, f.id, f.at - 1);
    if f.id in s.folders {
      BoundsGrow(ms, m, f.id, s.folders[f.id].at);
      BoundsGrow(ms, m, f.id, s.folders[f.id].at - 1);
      SourceGrows(s.folders[f.id], ms, m, f.id);
    }
    if UpsertApplies(s, f) { UpsertedFrom(s, ms, f); }
  }

  lemma DeleteTracked(s: Store, ms: set<Msg>, id: Id, at: int)
    requires TracksId(s, ms, id)
    requires id in s.tombs || |s.tombs| < ROOM_FOLDER_TOMB_LIMIT
    ensures TracksId(Delete(s, id, at), ms + {Del(id, at)}, id)
  {
    var m := Del(id, at);
    BoundsGrow(ms, m, id, DeletedAt(s, id));
    BoundsGrow(ms, m, id, at);
    if id in s.folders {
      BoundsGrow(ms, m, id, s.folders[id].at);
      BoundsGrow(ms, m, id, s.folders[id].at - 1);
      SourceGrows(s.folders[id], ms, m, id);
    }
    assert m in ms + {m};
  }

  lemma RoomForOneMore<V>(held: map<Id, V>, universe: set<Id>, id: Id)
    requires held.Keys <= universe && id in universe && id !in held
    ensures |held| < |universe|
  {
    SubsetSize(held.Keys, universe - {id});
    assert |held| == |held.Keys|;
  }

  lemma TracksStep(s: Store, ms: set<Msg>, m: Msg, puts: set<Id>, dels: set<Id>)
    requires Tracks(s, ms) && Within({m}, puts, dels)
    requires s.folders.Keys <= puts && s.tombs.Keys <= dels
    ensures Tracks(Apply(s, m), ms + {m})
  {
    assert m in {m};
    match m
    case Put(f) =>
      if f.id !in s.folders { RoomForOneMore(s.folders, puts, f.id); }
      PutTracked(s, ms, f);
      forall id ensures TracksId(Apply(s, m), ms + {m}, id) {
        if id != f.id { OtherIdTracked(s, Apply(s, m), ms, m, id); }
      }
    case Del(d, at) =>
      if d !in s.tombs { RoomForOneMore(s.tombs, dels, d); }
      DeleteTracked(s, ms, d, at);
      forall id ensures TracksId(Apply(s, m), ms + {m}, id) {
        if id != d { OtherIdTracked(s, Apply(s, m), ms, m, id); }
      }
  }

  lemma {:induction false} TracksRun(ms: seq<Msg>, puts: set<Id>, dels: set<Id>)
    requires Within(Elements(ms), puts, dels)
    ensures Tracks(Run(ms), Elements(ms))
    ensures Run(ms).folders.Keys <= puts && Run(ms).tombs.Keys <= dels
  {
    if ms != [] {
      var front, m := ms[..|ms| - 1], ms[|ms| - 1];
      assert ms == front + [m];
      assert Elements(ms) == Elements(front) + {m};
      TracksRun(front, puts, dels);
      TracksStep(Run(front), Elements(front), m, puts, dels);
    }
  }

  lemma WinnerHeld(s: Store, ms: set<Msg>, f: Folder)
    requires TracksId(s, ms, f.id) && Settled(ms) && Wins(ms, f)
    ensures f.id in s.folders && s.folders[f.id] == Placed(f)
  {
    assert f.id in s.tombs ==> Del(f.id, s.tombs[f.id]) in ms;
    assert f.id in s.folders;
    var g := HeldWins(s, ms, f.id);
    assert Placed(f) == Placed(g);
  }

  lemma HeldWins(s: Store, ms: set<Msg>, id: Id) returns (f: Folder)
    requires TracksId(s, ms, id) && id in s.folders
    ensures Wins(ms, f) && f.id == id && f.at == s.folders[id].at && From(s.folders[id], f, ms)
  {
    f :| Put(f) in ms && f.id == id && f.at == s.folders[id].at && From(s.folders[id], f, ms);
  }

  lemma TrackedIsConverged(s: Store, ms: set<Msg>)
    requires Tracks(s, ms) && Settled(ms)
    ensures Converged(ms, s.folders)
  {
    forall f | Wins(ms, f) ensures f.id in s.folders && s.folders[f.id] == Placed(f) {
      assert TracksId(s, ms, f.id);
      WinnerHeld(s, ms, f);
    }
    forall id | id in s.folders ensures exists f :: Wins(ms, f) && f.id == id {
      assert TracksId(s, ms, id);
      var f := HeldWins(s, ms, id);
    }
  }

  /** Every replica ends with, for each folder id, its newest upsert if that is newer than
      the newest delete, and nothing otherwise. */
  lemma FoldersConverge(ms: seq<Msg>, puts: set<Id>, dels: set<Id>)
    requires Settled(Elements(ms)) && Within(Elements(ms), puts, dels)
    ensures Converged(Elements(ms), Run(ms).folders)
  {
    TracksRun(ms, puts, dels);
    TrackedIsConverged(Run(ms), Elements(ms));
  }

  lemma ConvergedUnique(ms: set<Msg>, a: map<Id, Folder>, b: map<Id, Folder>)
    requires Converged(ms, a) && Converged(ms, b)
    ensures a == b
  {
    forall id ensures id in a <==> id in b {
      if id in a { var f :| Wins(ms, f) && f.id == id; }
      if id in b { var f :| Wins(ms, f) && f.id == id; }
    }
    forall id | id in a ensures a[id] == b[id] {
      var f :| Wins(ms, f) && f.id == id;
    }
  }

  // ---- When the order matters ----

  // Every order of arrival of these messages, with any repetition, gives the same folders.
  ghost predicate FoldersSettle(ms: set<Msg>) {
    forall xs, ys | Elements(xs) == ms && Elements(ys) == ms :: Run(xs).folders == Run(ys).folders
  }

  ghost predicate TombsSettle(ms: set<Msg>) {
    forall xs, ys | Elements(xs) == ms && Elements(ys) == ms :: Run(xs).tombs == Run(ys).tombs
  }

  lemma {:induction false} AnyOrder(ms: set<Msg>) returns (xs: seq<Msg>)
    ensures Elements(xs) == ms
  {
    xs := [];
    if ms != {} {
      var m :| m in ms;
      var rest := AnyOrder(ms - {m});
      xs := [m] + rest;
      ElementsJoin([m], rest);
    }
  }

  lemma ElementsJoin(xs: seq<Msg>, ys: seq<Msg>)
    ensures Elements(xs + ys) == Elements(xs) + Elements(ys)
  {}

  function RunFrom(s: Store, ms: seq<Msg>): Store {
    if ms == [] then s else Apply(RunFrom(s, ms[..|ms| - 1]), ms[|ms| - 1])
  }

  lemma {:induction false} RunJoin(xs: seq<Msg>, ys: seq<Msg>)
    ensures Run(xs + ys) == RunFrom(Run(xs), ys)
  {
    if ys == [] {
      assert xs + ys == xs;
    } else {
      assert (xs + ys)[..|xs + ys| - 1] == xs + ys[..|ys| - 1];
      RunJoin(xs, ys[..|ys| - 1]);
    }
  }

  // Once a record of the winning stamp is held, no message of the set moves it.
  lemma {:induction false} WinnerStays(s: Store, ms: set<Msg>, f: Folder, rest: seq<Msg>)
    requires Wins(ms, f) && Elements(rest) <= ms && f.id in s.folders && s.folders[f.id].at == f.at
    ensures var t := RunFrom(s, rest);
            && f.id in t.folders && t.folders[f.id] == s.folders[f.id]
            && (f.id in s.tombs ==> f.id in t.tombs)
  {
    if rest != [] {
      var n := |rest| - 1;
      assert rest[n] in Elements(rest) && Elements(rest[..n]) <= Elements(rest);
      WinnerStays(s, ms, f, rest[..n]);
    }
  }

  lemma HeadOfOrder(ms: set<Msg>, f: Folder, head: seq<Msg>, held: Folder) returns (xs: seq<Msg>)
    requires Wins(ms, f) && Elements(head) <= ms
    requires f.id in Run(head).folders && Run(head).folders[f.id] == held && held.at == f.at
    ensures Elements(xs) == ms && f.id in Run(xs).folders && Run(xs).folders[f.id] == held
  {
    var rest := AnyOrder(ms);
    xs := head + rest;
    ElementsJoin(head, rest);
    RunJoin(head, rest);
    WinnerStays(Run(head), ms, f, rest);
  }

  lemma RunOne(f: Folder)
    requires f.id != "" && f.at > 0
    ensures Run([Put(f)]) == Store(map[f.id := Placed(f)], map[])
  {
    assert [Put(f)][..0] == [];
    assert Run([Put(f)]) == Upsert(Store(map[], map[]), f);
  }

  lemma RunTwo(h: Folder, f: Folder)
    requires f.id != "" && h.id == f.id && 0 < h.at < f.at && h.parentId.Some? && f.parentId == None
    ensures Run([Put(h), Put(f)]) == Store(map[f.id := f.(parentId := Placed(h).parentId)], map[])
  {
    assert [Put(h), Put(f)][..1] == [Put(h)];
    RunOne(h);
    assert Run([Put(h), Put(f)]) == Upsert(Run([Put(h)]), f);
  }

  // Some order leaves this winner in place.
  lemma WinnerFirst(ms: set<Msg>, f: Folder) returns (xs: seq<Msg>)
    requires Wins(ms, f)
    ensures Elements(xs) == ms && f.id in Run(xs).folders && Run(xs).folders[f.id] == Placed(f)
  {
    RunOne(f);
    assert Elements([Put(f)]) <= ms;
    xs := HeadOfOrder(ms, f, [Put(f)], Placed(f));
  }

  /** Of upserts that tie for an id the first stays: different ones depend on the order. */
  lemma EqualStampsKeepFirst(ms: set<Msg>, f: Folder, g: Folder)
    requires Wins(ms, f) && Wins(ms, g) && f.id == g.id && Placed(f) != Placed(g)
    ensures !FoldersSettle(ms)
  {
    var xs := WinnerFirst(ms, f);
    var ys := WinnerFirst(ms, g);
  }

  /** A winner that names no parent inherits whatever parent is held when it arrives, and
      that depends on the order as soon as there is one to inherit. */
  lemma InheritedParentDependsOnOrder(ms: set<Msg>, f: Folder)
    requires Wins(ms, f) && f.parentId == None && Heirloom(ms, f.id, f.at)
    ensures !FoldersSettle(ms)
  {
    var h :| Put(h) in ms && h.id == f.id && h.parentId.Some? && 0 < h.at < f.at;
    var xs := WinnerFirst(ms, f);
    RunTwo(h, f);
    assert Elements([Put(h), Put(f)]) <= ms;
    var ys := HeadOfOrder(ms, f, [Put(h), Put(f)], f.(parentId := Placed(h).parentId));
  }

  /** The exact condition for the folders not to depend on order and repetition, for any
      set of upserts and deletes within the size limits. */
  lemma FolderOrderIrrelevantIff(ms: set<Msg>, puts: set<Id>, dels: set<Id>)
    requires Within(ms, puts, dels)
    ensures FoldersSettle(ms) <==> Settled(ms)
  {
    if Settled(ms) {
      forall xs, ys | Elements(xs) == ms && Elements(ys) == ms ensures Run(xs).folders == Run(ys).folders {
        FoldersConverge(xs, puts, dels);
        FoldersConverge(ys, puts, dels);
        ConvergedUnique(ms, Run(xs).folders, Run(ys).folders);
      }
    } else if f, g :| Wins(ms, f) && Wins(ms, g) && f.id == g.id && Placed(f) != Placed(g) {
      EqualStampsKeepFirst(ms, f, g);
    } else {
      var f :| Wins(ms, f) && f.parentId == None && Heirloom(ms, f.id, f.at);
      InheritedParentDependsOnOrder(ms, f);
    }
  }

  /** Where every upsert names its parent, only ties between winners matter. */
  lemma ExplicitOrderIrrelevantIff(ms: set<Msg>, puts: set<Id>, dels: set<Id>)
    requires Within(ms, puts, dels) && forall m | m in ms && m.Put? :: m.folder.parentId.Some?
    ensures FoldersSettle(ms) <==> forall f, g | Wins(ms, f) && Wins(ms, g) && f.id == g.id :: Placed(f) == Placed(g)
  {
    FolderOrderIrrelevantIff(ms, puts, dels);
  }

  // ---- The tombstones ----

  // An id that is live in the end and was deleted in between.
  ghost predicate Resurrected(ms: set<Msg>, f: Folder, at: int) { Wins(ms, f) && Del(f.id, at) in ms && at > 0 }

  // An id that is live beside a tomb came back from a delete.
  lemma LiveTomb(s: Store, ms: set<Msg>, id: Id) returns (f: Folder)
    requires TracksId(s, ms, id) && id in s.folders && id in s.tombs
    ensures f.id == id && Resurrected(ms, f, s.tombs[id])
  {
    f := HeldWins(s, ms, id);
  }

  // A live folder wins, so no replica can hold its tomb alone.
  lemma LiveIsLive(s: Store, t: Store, ms: set<Msg>, id: Id)
    requires TracksId(s, ms, id) && TracksId(t, ms, id) && id in s.folders
    ensures id in t.folders
  {
    var f := HeldWins(s, ms, id);
  }

  // Without a live folder the tomb is the newest positive delete, if there is one.
  lemma TombDetermined(s: Store, t: Store, ms: set<Msg>, id: Id)
    requires TracksId(s, ms, id) && TracksId(t, ms, id)
    requires forall f: Folder, at: int :: f.id == id ==> !Resurrected(ms, f, at)
    ensures (id in s.tombs <==> id in t.tombs) && (id in s.tombs ==> s.tombs[id] == t.tombs[id])
  {
    if id in s.folders { LiveIsLive(s, t, ms, id); }
    if id in t.folders { LiveIsLive(t, s, ms, id); }
    if id in s.folders && id in s.tombs { var f := LiveTomb(s, ms, id); }
    if id in t.folders && id in t.tombs { var f := LiveTomb(t, ms, id); }
  }

  // A delete that arrives after the winner leaves its tomb.
  lemma {:induction false} DeleteLeavesTomb(
    head: seq<Msg>, rest: seq<Msg>, ms: set<Msg>, f: Folder, at: int, puts: set<Id>, dels: set<Id>)
    requires Within(ms, puts, dels) && Resurrected(ms, f, at)
    requires Elements(head) <= ms && Elements(rest) <= ms && Del(f.id, at) in rest
    requires f.id in Run(head).folders && Run(head).folders[f.id].at == f.at
    ensures f.id in Run(head + rest).tombs
  {
    var n := |rest| - 1;
    assert rest == rest[..n] + [rest[n]] && head + rest == (head + rest[..n]) + [rest[n]];
    RunJoin(head + rest[..n], [rest[n]]);
    assert [rest[n]][..0] == [];
    var s := Run(head + rest[..n]);
    RunJoin(head, rest[..n]);
    assert Elements(rest[..n]) <= ms;
    WinnerStays(Run(head), ms, f, rest[..n]);
    if Del(f.id, at) in rest[..n] {
      DeleteLeavesTomb(head, rest[..n], ms, f, at, puts, dels);
      assert Elements([rest[n]]) <= ms;
      WinnerStays(s, ms, f, [rest[n]]);
    } else {
      assert rest[n] == Del(f.id, at);
      ElementsJoin(head, rest[..n]);
      assert Within(Elements(head + rest[..n]), puts, dels);
      TracksRun(head + rest[..n], puts, dels);
      if f.id !in s.tombs { RoomForOneMore(s.tombs, dels, f.id); }
    }
  }

  // Winners of an id that arrive after everything else clear its tomb.
  lemma {:induction false} WinnersClearTomb(s: Store, ms: set<Msg>, f: Folder, last: seq<Msg>)
    requires Wins(ms, f) && last != []
    requires forall m | m in last :: m.Put? && m.folder.id == f.id && m.folder.at == f.at && m in ms
    requires DeletedAt(s, f.id) < f.at && (f.id in s.folders || |s.folders| < ROOM_FOLDER_LIMIT)
    requires f.id in s.folders ==> s.folders[f.id].at < f.at
    requires f.id in s.tombs ==> s.tombs[f.id] > 0
    ensures var t := RunFrom(s, last); f.id !in t.tombs && f.id in t.folders && t.folders[f.id].at == f.at
  {
    var n := |last| - 1;
    assert last[n] in last;
    if n == 0 {
      assert last[..0] == [];
    } else {
      WinnersClearTomb(s, ms, f, last[..n]);
    }
  }

  lemma TombCleared(ms: set<Msg>, f: Folder, puts: set<Id>, dels: set<Id>) returns (xs: seq<Msg>)
    requires Within(ms, puts, dels) && Wins(ms, f)
    ensures Elements(xs) == ms && f.id !in Run(xs).tombs
  {
    var winners := set m | m in ms && m.Put? && m.folder.id == f.id && m.folder.at == f.at;
    var first := AnyOrder(ms - winners);
    var last := AnyOrder(winners);
    xs := first + last;
    ElementsJoin(first, last);
    RunJoin(first, last);
    assert Put(f) in Elements(last);
    TracksRun(first, puts, dels);
    BeforeWinners(Run(first), ms, f, winners);
    if f.id !in Run(first).folders { RoomForOneMore(Run(first).folders, puts, f.id); }
    assert forall m | m in last :: m in Elements(last);
    WinnersClearTomb(Run(first), ms, f, last);
  }

  // Without its winners an id is held, if at all, at an older stamp, and so is its tomb.
  lemma BeforeWinners(s: Store, ms: set<Msg>, f: Folder, winners: set<Msg>)
    requires Wins(ms, f) && TracksId(s, ms - winners, f.id)
    requires winners == set m | m in ms && m.Put? && m.folder.id == f.id && m.folder.at == f.at
    ensures DeletedAt(s, f.id) < f.at && (f.id in s.folders ==> s.folders[f.id].at < f.at)
    ensures f.id in s.tombs ==> s.tombs[f.id] > 0
  {
    if f.id in s.tombs { assert Del(f.id, s.tombs[f.id]) in ms; }
    if f.id in s.folders {
      var g :| Put(g) in ms - winners && g.id == f.id && g.at == s.folders[f.id].at
        && From(s.folders[f.id], g, ms - winners);
      assert Put(g) in ms;
    }
  }

  /** Even replicas that agree on the folders may disagree on the tombs: as soon as an id
      that wins was deleted, it depends on which came last. */
  lemma TombsMayDiffer(ms: set<Msg>, f: Folder, at: int, puts: set<Id>, dels: set<Id>)
    requires Within(ms, puts, dels) && Resurrected(ms, f, at)
    ensures !TombsSettle(ms)
  {
    var xs := TombCleared(ms, f, puts, dels);
    var rest := AnyOrder(ms);
    RunOne(f);
    assert Elements([Put(f)]) <= ms;
    DeleteLeavesTomb([Put(f)], rest, ms, f, at, puts, dels);
    ElementsJoin([Put(f)], rest);
    assert Elements([Put(f)] + rest) == ms;
  }

  /** The tombs do not depend on the order exactly when no id both wins and was deleted. */
  lemma TombOrderIrrelevantIff(ms: set<Msg>, puts: set<Id>, dels: set<Id>)
    requires Within(ms, puts, dels)
    ensures TombsSettle(ms) <==> forall f, at :: !Resurrected(ms, f, at)
  {
    if f, at :| Resurrected(ms, f, at) {
      TombsMayDiffer(ms, f, at, puts, dels);
    } else {
      forall xs, ys | Elements(xs) == ms && Elements(ys) == ms ensures Run(xs).tombs == Run(ys).tombs {
        TracksRun(xs, puts, dels);
        TracksRun(ys, puts, dels);
        forall id ensures (id in Run(xs).tombs <==> id in Run(ys).tombs)
                          && (id in Run(xs).tombs ==> Run(xs).tombs[id] == Run(ys).tombs[id]) {
          TombDetermined(Run(xs), Run(ys), ms, id);
        }
      }
    }
  }
}
