/** Grouping a room's files under its folders (shared/room-folders.ts): flat, and in
    two levels of sections and nested folders. */
module FolderGroups {
  import opened Ids
  import opened RoomFolders

  datatype File = File(fileId: Id, folderId: Id) // "" when the file is in no folder

  datatype FolderGroup = FolderGroup(folder: Option<Folder>, files: seq<File>)

  datatype SectionGroup = SectionGroup(section: Option<Folder>, files: seq<File>, children: seq<FolderGroup>)

  function FileKey(f: File): Option<Id> { if f.folderId == "" then None else Some(f.folderId) }

  // The entries filed under one key, in order.
  function Under<T>(xs: seq<T>, key: T -> Option<Id>, k: Option<Id>): seq<T> {
    if xs == [] then [] else (if key(xs[0]) == k then [xs[0]] else []) + Under(xs[1..], key, k)
  }

  // The entries whose key is not among the given ones.
  function Outside<T>(xs: seq<T>, key: T -> Option<Id>, ks: set<Option<Id>>): seq<T> {
    if xs == [] then [] else (if key(xs[0]) in ks then [] else [xs[0]]) + Outside(xs[1..], key, ks)
  }

  function FilesIn(files: seq<File>, f: Folder): seq<File> { Under(files, FileKey, Some(f.id)) }

  function FolderKeys(folders: seq<Folder>): set<Option<Id>> { set f | f in folders :: Some(f.id) }

  function Group(files: seq<File>, f: Folder): FolderGroup { FolderGroup(Some(f), FilesIn(files, f)) }

  function Groups(files: seq<File>, folders: seq<Folder>): seq<FolderGroup> {
    if folders == [] then [] else [Group(files, folders[0])] + Groups(files, folders[1..])
  }

  function Loose(files: seq<File>, folders: seq<Folder>): seq<File> { Outside(files, FileKey, FolderKeys(folders)) }

  function Flat(files: seq<File>, folders: seq<Folder>): seq<FolderGroup> {
    var loose := Loose(files, folders);
    Groups(files, folders) + if loose == [] then [] else [FolderGroup(None, loose)]
  }

  lemma {:induction false} UnderAppend<T>(xs: seq<T>, x: T, key: T -> Option<Id>, k: Option<Id>)
    ensures Under(xs + [x], key, k) == Under(xs, key, k) + if key(x) == k then [x] else []
  {
    if xs != [] {
      assert (xs + [x])[1..] == xs[1..] + [x];
      UnderAppend(xs[1..], x, key, k);
    }
  }

  lemma {:induction false} OutsideAppend<T>(xs: seq<T>, x: T, key: T -> Option<Id>, ks: set<Option<Id>>)
    ensures Outside(xs + [x], key, ks) == Outside(xs, key, ks) + if key(x) in ks then [] else [x]
  {
    if xs != [] {
      assert (xs + [x])[1..] == xs[1..] + [x];
      OutsideAppend(xs[1..], x, key, ks);
    }
  }

  lemma {:induction false} GroupsAppend(files: seq<File>, folders: seq<Folder>, f: Folder)
    ensures Groups(files, folders + [f]) == Groups(files, folders) + [Group(files, f)]
  {
    if folders != [] {
      assert (folders + [f])[1..] == folders[1..] + [f];
      GroupsAppend(files, folders[1..], f);
    }
  }

  /** groupFilesByFolder: one bucket per folder, filled in one pass over the files. */
  method GroupFilesByFolder(files: seq<File>, folders: seq<Folder>) returns (out: seq<FolderGroup>)
    ensures out == Flat(files, folders)
  {
    var buckets, loose := FillBuckets(files, folders);
    out := [];
    for i := 0 to |folders|
      invariant out == Groups(files, folders[..i])
    {
      GroupsAppend(files, folders[..i], folders[i]);
      assert folders[..i + 1] == folders[..i] + [folders[i]];
      out := out + [FolderGroup(Some(folders[i]), buckets[folders[i].id])];
    }
    assert folders[..|folders|] == folders;
    if loose != [] { out := out + [FolderGroup(None, loose)]; }
  }

  method FillBuckets(files: seq<File>, folders: seq<Folder>) returns (buckets: map<Id, seq<File>>, loose: seq<File>)
    ensures forall f | f in folders :: f.id in buckets && buckets[f.id] == FilesIn(files, f)
    ensures loose == Loose(files, folders)
  {
    buckets, loose := map[], [];
    for i := 0 to |folders|
      invariant forall id :: id in buckets <==> exists k | 0 <= k < i :: folders[k].id == id
      invariant forall id | id in buckets :: buckets[id] == []
    {
      buckets := buckets[folders[i].id := []];
    }
    ghost var keys := FolderKeys(folders);
    assert forall id :: id in buckets <==> Some(id) in keys;
    for i := 0 to |files|
      invariant forall id :: id in buckets <==> Some(id) in keys
      invariant forall id | id in buckets :: buckets[id] == Under(files[..i], FileKey, Some(id))
      invariant loose == Outside(files[..i], FileKey, keys)
    {
      var file := files[i];
      assert files[..i + 1] == files[..i] + [file];
      OutsideAppend(files[..i], file, FileKey, keys);
      forall id ensures Under(files[..i + 1], FileKey, Some(id)) ==
                        Under(files[..i], FileKey, Some(id)) + if FileKey(file) == Some(id) then [file] else [] {
        UnderAppend(files[..i], file, FileKey, Some(id));
      }
      if file.folderId != "" && file.folderId in buckets {
        buckets := buckets[file.folderId := buckets[file.folderId] + [file]];
      } else {
        loose := loose + [file];
      }
    }
    assert files[..|files|] == files;
  }

  // ---- Two levels ----

  function ById(folders: seq<Folder>): map<Id, Folder> {
    if folders == [] then map[] else
      var last := folders[|folders| - 1];
      ById(folders[..|folders| - 1])[last.id := last]
  }

  function ParentOf(f: Folder): Id { if f.parentId.Some? then f.parentId.value else "" }

  /** sectionIdOf: the section a folder nests in, or None when it is a section itself. */
  function SectionIdOf(f: Folder, byId: map<Id, Folder>): Option<Id> {
    var pid := ParentOf(f);
    if pid == "" || pid == f.id || pid !in byId then None else
      var grand := ParentOf(byId[pid]);
      if grand != "" && grand != pid && grand in byId then None else Some(pid)
  }

  function SectionKey(byId: map<Id, Folder>): Folder -> Option<Id> { (f: Folder) => SectionIdOf(f, byId) }

  function Tops(folders: seq<Folder>): seq<Folder> { Under(folders, SectionKey(ById(folders)), None) }

  function Nested(folders: seq<Folder>, f: Folder): seq<Folder> {
    Under(folders, SectionKey(ById(folders)), Some(f.id))
  }

  function Section(files: seq<File>, folders: seq<Folder>, f: Folder): SectionGroup {
    SectionGroup(Some(f), FilesIn(files, f), Groups(files, Nested(folders, f)))
  }

  function Sections(files: seq<File>, folders: seq<Folder>, tops: seq<Folder>): seq<SectionGroup> {
    if tops == [] then [] else [Section(files, folders, tops[0])] + Sections(files, folders, tops[1..])
  }

  /** What the hierarchy is: the sections in folder order, each with its nested folders in
      folder order, and the files of no live folder last. */
  function Hierarchy(files: seq<File>, folders: seq<Folder>): seq<SectionGroup> {
    var loose := Loose(files, folders);
    Sections(files, folders, Tops(folders)) + if loose == [] then [] else [SectionGroup(None, loose, [])]
  }

  // The folder that goes by f's id: the last one that has it.
  function Named(folders: seq<Folder>, f: Folder): Folder {
    if f.id in ById(folders) then ById(folders)[f.id] else f
  }

  function NamedAll(folders: seq<Folder>, fs: seq<Folder>): seq<Folder> {
    if fs == [] then [] else NamedAll(folders, fs[..|fs| - 1]) + [Named(folders, fs[|fs| - 1])]
  }

  predicate IsLast(tops: seq<Folder>, k: nat)
    requires k < |tops|
  {
    forall j | k < j < |tops| :: tops[j].id != tops[k].id
  }

  // A section with the nested folders found among the first n. Of sections of one id the last
  // has them all, and each is shown as the folder that goes by its id.
  function Partial(files: seq<File>, folders: seq<Folder>, n: nat, tops: seq<Folder>, k: nat): SectionGroup
    requires n <= |folders| && k < |tops|
  {
    SectionGroup(Some(tops[k]), FilesIn(files, tops[k]),
                 if IsLast(tops, k) then Groups(files, NestedAmong(folders, n, tops[k])) else [])
  }

  function NestedAmong(folders: seq<Folder>, n: nat, top: Folder): seq<Folder>
    requires n <= |folders|
  {
    NamedAll(folders, Under(folders[..n], SectionKey(ById(folders)), Some(top.id)))
  }

  // The sections with everything nested.
  function Attached(files: seq<File>, folders: seq<Folder>): seq<SectionGroup> {
    seq(|Tops(folders)|, k requires 0 <= k < |Tops(folders)| => Partial(files, folders, |folders|, Tops(folders), k))
  }

  /** What the grouping yields for any folders, those with repeated ids included. */
  function Grouped(files: seq<File>, folders: seq<Folder>): seq<SectionGroup> {
    var loose := Loose(files, folders);
    Attached(files, folders) + if loose == [] then [] else [SectionGroup(None, loose, [])]
  }

  predicate UniqueIds(folders: seq<Folder>) {
    folders == [] || ((forall f | f in folders[1..] :: f.id != folders[0].id) && UniqueIds(folders[1..]))
  }

  lemma {:induction false} UniqueAt(folders: seq<Folder>, i: nat, j: nat)
    requires UniqueIds(folders) && i < j < |folders|
    ensures folders[i].id != folders[j].id
  {
    if i == 0 { assert folders[j] in folders[1..]; } else { UniqueAt(folders[1..], i - 1, j - 1); }
  }

  lemma {:induction false} ByIdFinds(folders: seq<Folder>)
    requires UniqueIds(folders)
    ensures forall f | f in folders :: f.id in ById(folders) && ById(folders)[f.id] == f
    ensures forall id | id in ById(folders) :: ById(folders)[id] in folders && ById(folders)[id].id == id
  {
    if folders != [] {
      var n := |folders| - 1;
      var front := folders[..n];
      UniquePrefix(folders, n);
      ByIdFinds(front);
      forall f | f in folders ensures f.id in ById(folders) && ById(folders)[f.id] == f {
        if f != folders[n] {
          var i :| 0 <= i < |folders| && folders[i] == f;
          UniqueAt(folders, i, n);
          assert f in front;
        }
      }
    }
  }

  lemma {:induction false} UniquePrefix(folders: seq<Folder>, n: nat)
    requires UniqueIds(folders) && n <= |folders|
    ensures UniqueIds(folders[..n])
  {
    if n > 0 {
      UniquePrefix(folders[1..], n - 1);
      assert folders[..n][1..] == folders[1..][..n - 1];
      forall f | f in folders[..n][1..] ensures f.id != folders[0].id { assert f in folders[1..]; }
    }
  }

  /** The parent a folder nests in is a live folder that is itself a section, however
      parents dangle, loop or chain. */
  lemma ParentIsSection(folders: seq<Folder>, f: Folder)
    requires SectionIdOf(f, ById(folders)).Some?
    ensures var byId := ById(folders); var pid := SectionIdOf(f, byId).value;
            pid in byId && byId[pid] in folders && byId[pid].id == pid && pid != f.id
              && SectionIdOf(byId[pid], byId) == None
  {
    ByIdNames(folders);
  }

  // The folder that goes by an id: the last one that has it.
  predicate GoesBy(folders: seq<Folder>, id: Id, f: Folder) {
    exists i :: 0 <= i < |folders| && folders[i] == f && f.id == id
                && forall j | i < j < |folders| :: folders[j].id != id
  }

  predicate IsLive(folders: seq<Folder>, id: Id) { exists i :: 0 <= i < |folders| && folders[i].id == id }

  lemma {:induction false} ByIdIs(folders: seq<Folder>, id: Id)
    ensures id in ById(folders) <==> IsLive(folders, id)
    ensures id in ById(folders) ==> forall f :: GoesBy(folders, id, f) <==> f == ById(folders)[id]
  {
    if folders != [] {
      var n := |folders| - 1;
      var front, last := folders[..n], folders[n];
      ByIdIs(front, id);
      if last.id == id {
        assert folders[n].id == id;
        forall f ensures GoesBy(folders, id, f) <==> f == last { if f == last { assert folders[n] == f; } }
      } else {
        if id in ById(front) {
          assert IsLive(front, id);
          var i :| 0 <= i < |front| && front[i].id == id;
          assert folders[i].id == id;
          forall f ensures GoesBy(folders, id, f) <==> GoesBy(front, id, f) { SameLast(folders, id, f); }
        } else {
          assert forall i | 0 <= i < n :: folders[i] == front[i];
        }
      }
    }
  }

  lemma SameLast(folders: seq<Folder>, id: Id, f: Folder)
    requires folders != [] && folders[|folders| - 1].id != id
    ensures GoesBy(folders, id, f) <==> GoesBy(folders[..|folders| - 1], id, f)
  {
    var n := |folders| - 1;
    var front := folders[..n];
    if i :| 0 <= i < |folders| && folders[i] == f && f.id == id && forall j | i < j < |folders| :: folders[j].id != id {
      assert front[i] == f && forall j | i < j < n :: front[j] == folders[j];
    }
    if i :| 0 <= i < n && front[i] == f && f.id == id && forall j | i < j < n :: front[j].id != id {
      assert folders[i] == f && forall j | i < j < n :: front[j] == folders[j];
    }
  }

  /** When a folder nests in p: p is its parent and another id, p is live, and p's own parent is
      absent, empty, p itself, or not live. */
  ghost predicate NestsIn(folders: seq<Folder>, f: Folder, p: Id) {
    f.parentId == Some(p) && p != "" && p != f.id && exists top :: GoesBy(folders, p, top) && AtRoot(folders, top)
  }

  predicate AtRoot(folders: seq<Folder>, f: Folder) {
    f.parentId == None || f.parentId == Some("") || f.parentId == Some(f.id) || !IsLive(folders, f.parentId.value)
  }

  lemma SectionIff(folders: seq<Folder>, f: Folder, p: Id)
    ensures SectionIdOf(f, ById(folders)) == Some(p) <==> NestsIn(folders, f, p)
  {
    ByIdIs(folders, p);
    if p in ById(folders) {
      var top := ById(folders)[p];
      assert GoesBy(folders, p, top);
      if top.parentId.Some? { ByIdIs(folders, top.parentId.value); }
    } else {
      assert forall top :: !GoesBy(folders, p, top);
    }
  }

  lemma {:induction false} UnderMembers<T(!new)>(xs: seq<T>, key: T -> Option<Id>, k: Option<Id>)
    ensures forall x :: x in Under(xs, key, k) <==> x in xs && key(x) == k
  {
    if xs != [] {
      UnderMembers(xs[1..], key, k);
      assert xs == [xs[0]] + xs[1..];
    }
  }

  lemma {:induction false} GroupsAt(files: seq<File>, folders: seq<Folder>, i: nat)
    requires i < |folders|
    ensures |Groups(files, folders)| == |folders| && Groups(files, folders)[i] == Group(files, folders[i])
  {
    if folders[1..] != [] { GroupsAt(files, folders[1..], if i > 0 then i - 1 else 0); }
  }

  lemma {:induction false} GroupsLength(files: seq<File>, folders: seq<Folder>)
    ensures |Groups(files, folders)| == |folders|
  {
    if folders != [] { GroupsLength(files, folders[1..]); }
  }

  lemma {:induction false} ByIdNames(folders: seq<Folder>)
    ensures forall f | f in folders :: f.id in ById(folders)
    ensures forall id | id in ById(folders) :: ById(folders)[id] in folders && ById(folders)[id].id == id
  {
    if folders != [] {
      ByIdNames(folders[..|folders| - 1]);
      assert folders == folders[..|folders| - 1] + [folders[|folders| - 1]];
    }
  }

  /** groupFilesByHierarchy: sections first, then every nested folder attached to its one. */
  method GroupFilesByHierarchy(files: seq<File>, folders: seq<Folder>) returns (out: seq<SectionGroup>)
    ensures out == Grouped(files, folders)
  {
    var flat := GroupFilesByFolder(files, folders);
    var groupOf := IndexGroups(files, folders, flat);
    var sections, bySection := TopSections(files, folders, groupOf);
    out := AttachNested(files, folders, groupOf, sections, bySection);
    GroupsLength(files, folders);
    if |flat| > |folders| { out := out + [SectionGroup(None, flat[|folders|].files, [])]; }
  }

  ghost predicate IndexesGroups(files: seq<File>, byId: map<Id, Folder>, groupOf: map<Id, FolderGroup>) {
    groupOf.Keys == byId.Keys && forall id | id in byId :: groupOf[id] == Group(files, byId[id])
  }

  method IndexGroups(files: seq<File>, folders: seq<Folder>, flat: seq<FolderGroup>)
    returns (groupOf: map<Id, FolderGroup>)
    requires flat == Flat(files, folders)
    ensures IndexesGroups(files, ById(folders), groupOf)
  {
    groupOf := map[];
    GroupsLength(files, folders);
    for i := 0 to |folders|
      invariant IndexesGroups(files, ById(folders[..i]), groupOf)
    {
      GroupsAt(files, folders, i);
      assert folders[..i + 1][..i] == folders[..i];
      groupOf := groupOf[folders[i].id := flat[i]];
    }
    assert folders[..|folders|] == folders;
  }

  // The last position of every section's id.
  ghost predicate Indexes(tops: seq<Folder>, bySection: map<Id, nat>) {
    && (forall k | 0 <= k < |tops| :: tops[k].id in bySection && k <= bySection[tops[k].id])
    && (forall id | id in bySection :: bySection[id] < |tops| && tops[bySection[id]].id == id)
  }

  // The sections before anything is nested in them.
  ghost predicate Bare(files: seq<File>, tops: seq<Folder>, sections: seq<SectionGroup>) {
    |sections| == |tops| &&
    forall k | 0 <= k < |tops| :: sections[k] == SectionGroup(Some(tops[k]), FilesIn(files, tops[k]), [])
  }

  method TopSections(files: seq<File>, folders: seq<Folder>, groupOf: map<Id, FolderGroup>)
    returns (sections: seq<SectionGroup>, bySection: map<Id, nat>)
    requires IndexesGroups(files, ById(folders), groupOf)
    ensures Indexes(Tops(folders), bySection) && Bare(files, Tops(folders), sections)
  {
    var byId := ById(folders);
    ghost var key := SectionKey(byId);
    ghost var tops: seq<Folder> := [];
    sections, bySection := [], map[];
    ByIdNames(folders);
    for i := 0 to |folders|
      invariant tops == Under(folders[..i], key, None)
      invariant Indexes(tops, bySection) && Bare(files, tops, sections)
    {
      var f := folders[i];
      UnderNext(folders, i, key, None);
      if SectionIdOf(f, byId) == None {
        OneMoreTop(files, tops, bySection, sections, f);
        bySection := bySection[f.id := |sections|];
        sections := sections + [SectionGroup(Some(f), groupOf[f.id].files, [])];
        tops := tops + [f];
      }
    }
    assert folders[..|folders|] == folders;
  }

  lemma OneMoreTop(files: seq<File>, tops: seq<Folder>, bySection: map<Id, nat>, sections: seq<SectionGroup>, f: Folder)
    requires Indexes(tops, bySection) && Bare(files, tops, sections)
    ensures Indexes(tops + [f], bySection[f.id := |tops|])
    ensures Bare(files, tops + [f], sections + [SectionGroup(Some(f), FilesIn(files, f), [])])
  {}

  method AttachNested(
    files: seq<File>, folders: seq<Folder>, groupOf: map<Id, FolderGroup>,
    sections: seq<SectionGroup>, bySection: map<Id, nat>)
    returns (out: seq<SectionGroup>)
    requires IndexesGroups(files, ById(folders), groupOf)
    requires Indexes(Tops(folders), bySection) && Bare(files, Tops(folders), sections)
    ensures IsPartial(files, folders, |folders|, Tops(folders), out)
  {
    var byId := ById(folders);
    out := sections;
    ByIdNames(folders);
    NothingNested(files, folders, Tops(folders), sections);
    for i := 0 to |folders|
      invariant IsPartial(files, folders, i, Tops(folders), out)
    {
      var sid := SectionIdOf(folders[i], byId);
      ghost var before := out;
      if sid.Some? {
        RealSection(folders, folders[i], bySection);
        var at := bySection[sid.value];
        out := out[at := out[at].(children := out[at].children + [groupOf[folders[i].id]])];
        AttachStep(files, folders, i, Tops(folders), bySection, before, out);
      } else {
        SkipStep(files, folders, i, Tops(folders), out);
      }
    }
  }

  ghost predicate IsPartial(files: seq<File>, folders: seq<Folder>, n: nat, tops: seq<Folder>, out: seq<SectionGroup>)
    requires n <= |folders|
  {
    |out| == |tops| && forall k | 0 <= k < |out| :: out[k] == Partial(files, folders, n, tops, k)
  }

  lemma NothingNested(files: seq<File>, folders: seq<Folder>, tops: seq<Folder>, out: seq<SectionGroup>)
    requires Bare(files, tops, out)
    ensures IsPartial(files, folders, 0, tops, out)
  {
    assert folders[..0] == [];
  }

  lemma AttachStep(
    files: seq<File>, folders: seq<Folder>, i: nat, tops: seq<Folder>, bySection: map<Id, nat>,
    before: seq<SectionGroup>, after: seq<SectionGroup>)
    requires i < |folders| && IsPartial(files, folders, i, tops, before) && Indexes(tops, bySection)
    requires SectionIdOf(folders[i], ById(folders)).Some? && SectionIdOf(folders[i], ById(folders)).value in bySection
    requires var at := bySection[SectionIdOf(folders[i], ById(folders)).value];
             var more := [Group(files, Named(folders, folders[i]))];
             after == before[at := before[at].(children := before[at].children + more)]
    ensures IsPartial(files, folders, i + 1, tops, after)
  {
    var at := bySection[SectionIdOf(folders[i], ById(folders)).value];
    assert IsLast(tops, at);
    forall k | 0 <= k < |after| ensures after[k] == Partial(files, folders, i + 1, tops, k) {
      PartialStep(files, folders, i, tops, k);
      assert IsLast(tops, k) && tops[k].id == tops[at].id ==> k == at;
    }
  }

  lemma SkipStep(files: seq<File>, folders: seq<Folder>, i: nat, tops: seq<Folder>, out: seq<SectionGroup>)
    requires i < |folders| && IsPartial(files, folders, i, tops, out) && SectionIdOf(folders[i], ById(folders)) == None
    ensures IsPartial(files, folders, i + 1, tops, out)
  {
    forall k | 0 <= k < |out| ensures out[k] == Partial(files, folders, i + 1, tops, k) {
      PartialStep(files, folders, i, tops, k);
    }
  }

  lemma PartialStep(files: seq<File>, folders: seq<Folder>, i: nat, tops: seq<Folder>, k: nat)
    requires i < |folders| && k < |tops|
    ensures var p := Partial(files, folders, i, tops, k);
            Partial(files, folders, i + 1, tops, k)
            == if IsLast(tops, k) && SectionIdOf(folders[i], ById(folders)) == Some(tops[k].id)
               then p.(children := p.children + [Group(files, Named(folders, folders[i]))]) else p
  {
    var before := NestedAmong(folders, i, tops[k]);
    NestedStep(folders, i, tops[k]);
    if SectionIdOf(folders[i], ById(folders)) == Some(tops[k].id) {
      GroupsAppend(files, before, Named(folders, folders[i]));
    }
  }

  lemma NestedStep(folders: seq<Folder>, i: nat, top: Folder)
    requires i < |folders|
    ensures NestedAmong(folders, i + 1, top)
            == if SectionIdOf(folders[i], ById(folders)) == Some(top.id)
               then NestedAmong(folders, i, top) + [Named(folders, folders[i])] else NestedAmong(folders, i, top)
  {
    var key := SectionKey(ById(folders));
    var before := Under(folders[..i], key, Some(top.id));
    UnderNext(folders, i, key, Some(top.id));
    if key(folders[i]) == Some(top.id) { NamedAppend(folders, before, folders[i]); }
  }

  lemma UnderNext<T>(xs: seq<T>, i: nat, key: T -> Option<Id>, k: Option<Id>)
    requires i < |xs|
    ensures Under(xs[..i + 1], key, k)
            == if key(xs[i]) == k then Under(xs[..i], key, k) + [xs[i]] else Under(xs[..i], key, k)
  {
    assert xs[..i + 1] == xs[..i] + [xs[i]];
    UnderAppend(xs[..i], xs[i], key, k);
    assert Under(xs[..i], key, k) + [] == Under(xs[..i], key, k);
  }

  lemma NamedAppend(folders: seq<Folder>, fs: seq<Folder>, f: Folder)
    ensures NamedAll(folders, fs + [f]) == NamedAll(folders, fs) + [Named(folders, f)]
  {
    assert (fs + [f])[..|fs|] == fs;
  }

  lemma RealSection(folders: seq<Folder>, f: Folder, bySection: map<Id, nat>)
    requires SectionIdOf(f, ById(folders)).Some? && Indexes(Tops(folders), bySection)
    ensures SectionIdOf(f, ById(folders)).value in bySection
  {
    ParentIsSection(folders, f);
    var parent := ById(folders)[SectionIdOf(f, ById(folders)).value];
    UnderMembers(folders, SectionKey(ById(folders)), None);
    assert parent in Tops(folders);
    var k :| 0 <= k < |Tops(folders)| && Tops(folders)[k] == parent;
  }

  /** For unique ids that is the hierarchy. */
  lemma GroupedIsHierarchy(files: seq<File>, folders: seq<Folder>)
    requires UniqueIds(folders)
    ensures Grouped(files, folders) == Hierarchy(files, folders)
  {
    var tops := Tops(folders);
    var out := Attached(files, folders);
    UnderUnique(folders, SectionKey(ById(folders)), None);
    forall k | 0 <= k < |tops| ensures out[k] == Section(files, folders, tops[k]) {
      PartialIsSection(files, folders, tops, k);
    }
    SectionsPointwise(files, folders, tops, out);
  }

  lemma PartialIsSection(files: seq<File>, folders: seq<Folder>, tops: seq<Folder>, k: nat)
    requires UniqueIds(folders) && UniqueIds(tops) && k < |tops|
    ensures Partial(files, folders, |folders|, tops, k) == Section(files, folders, tops[k])
  {
    forall j | k < j < |tops| ensures tops[j].id != tops[k].id { UniqueAt(tops, k, j); }
    assert folders[..|folders|] == folders;
    NamesThemselves(folders, Nested(folders, tops[k]), SectionKey(ById(folders)), Some(tops[k].id));
  }

  lemma NamesThemselves(folders: seq<Folder>, fs: seq<Folder>, key: Folder -> Option<Id>, k: Option<Id>)
    requires UniqueIds(folders) && fs == Under(folders, key, k)
    ensures NamedAll(folders, fs) == fs
  {
    UnderMembers(folders, key, k);
    ByIdFinds(folders);
    AllThemselves(folders, fs);
  }

  lemma {:induction false} AllThemselves(folders: seq<Folder>, fs: seq<Folder>)
    requires forall f | f in fs :: Named(folders, f) == f
    ensures NamedAll(folders, fs) == fs
  {
    if fs != [] {
      var front, last := fs[..|fs| - 1], fs[|fs| - 1];
      AllThemselves(folders, front);
      assert fs == front + [last];
    }
  }

  lemma {:induction false} SectionsPointwise(
    files: seq<File>, folders: seq<Folder>, tops: seq<Folder>, out: seq<SectionGroup>)
    requires |out| == |tops|
    requires forall k | 0 <= k < |out| :: out[k] == Section(files, folders, tops[k])
    ensures out == Sections(files, folders, tops)
  {
    if tops != [] {
      SectionsPointwise(files, folders, tops[1..], out[1..]);
      assert out == [out[0]] + out[1..];
    }
  }

  // ---- The partition ----

  function FoldersOf(gs: seq<FolderGroup>): seq<Folder> {
    if gs == [] then [] else (if gs[0].folder.Some? then [gs[0].folder.value] else []) + FoldersOf(gs[1..])
  }

  function FilesOf(gs: seq<FolderGroup>): seq<File> {
    if gs == [] then [] else gs[0].files + FilesOf(gs[1..])
  }

  // Every folder and every file shown by a hierarchy, in display order.
  function ShownFolders(out: seq<SectionGroup>): seq<Folder> {
    if out == [] then [] else
      (if out[0].section.Some? then [out[0].section.value] else []) + FoldersOf(out[0].children)
        + ShownFolders(out[1..])
  }

  function ShownFiles(out: seq<SectionGroup>): seq<File> {
    if out == [] then [] else out[0].files + FilesOf(out[0].children) + ShownFiles(out[1..])
  }

  // Everything filed under each owner in turn.
  function Over<T>(xs: seq<T>, key: T -> Option<Id>, owners: seq<Folder>): seq<T> {
    if owners == [] then [] else Under(xs, key, Some(owners[0].id)) + Over(xs, key, owners[1..])
  }

  lemma {:induction false} GroupsShow(files: seq<File>, folders: seq<Folder>)
    ensures FoldersOf(Groups(files, folders)) == folders
    ensures FilesOf(Groups(files, folders)) == Over(files, FileKey, folders)
  {
    if folders != [] {
      GroupsShow(files, folders[1..]);
      assert Groups(files, folders)[1..] == Groups(files, folders[1..]);
      assert folders == [folders[0]] + folders[1..];
    }
  }

  // The folders no later one repeats the id of, and the others.
  function Lasts(fs: seq<Folder>): seq<Folder> {
    if fs == [] then [] else (if IsLast(fs, 0) then [fs[0]] else []) + Lasts(fs[1..])
  }

  function Repeated(fs: seq<Folder>): seq<Folder> {
    if fs == [] then [] else (if IsLast(fs, 0) then [] else [fs[0]]) + Repeated(fs[1..])
  }

  // The folders in display order: each section followed by what is shown in it.
  function Display(folders: seq<Folder>, tops: seq<Folder>): seq<Folder> {
    if tops == [] then [] else
      [tops[0]] + (if IsLast(tops, 0) then NamedAll(folders, Nested(folders, tops[0])) else [])
        + Display(folders, tops[1..])
  }

  lemma {:induction false} OverConcat<T>(xs: seq<T>, key: T -> Option<Id>, a: seq<Folder>, b: seq<Folder>)
    ensures Over(xs, key, a + b) == Over(xs, key, a) + Over(xs, key, b)
  {
    if a == [] {
      assert a + b == b;
    } else {
      assert (a + b)[1..] == a[1..] + b;
      OverConcat(xs, key, a[1..], b);
    }
  }

  lemma {:induction false} SectionsShow(files: seq<File>, folders: seq<Folder>, k: nat)
    requires k <= |Tops(folders)|
    ensures ShownFolders(Attached(files, folders)[k..]) == Display(folders, Tops(folders)[k..])
    ensures ShownFiles(Attached(files, folders)[k..]) == Over(files, FileKey, Display(folders, Tops(folders)[k..]))
    decreases |Tops(folders)| - k
  {
    if k < |Tops(folders)| {
      SectionsShow(files, folders, k + 1);
      OneSectionShows(files, folders, k);
    } else {
      assert Attached(files, folders)[k..] == [] && Tops(folders)[k..] == [];
    }
  }

  lemma OneSectionShows(files: seq<File>, folders: seq<Folder>, k: nat)
    requires k < |Tops(folders)|
    requires var more, rest := Display(folders, Tops(folders)[k + 1..]), Attached(files, folders)[k + 1..];
             ShownFolders(rest) == more && ShownFiles(rest) == Over(files, FileKey, more)
    ensures ShownFolders(Attached(files, folders)[k..]) == Display(folders, Tops(folders)[k..])
    ensures ShownFiles(Attached(files, folders)[k..]) == Over(files, FileKey, Display(folders, Tops(folders)[k..]))
  {
    var secs, tops := Attached(files, folders)[k..], Tops(folders)[k..];
    var inside := if IsLast(tops, 0) then NamedAll(folders, Nested(folders, tops[0])) else [];
    SuffixLast(Tops(folders), k);
    assert folders[..|folders|] == folders;
    assert secs[1..] == Attached(files, folders)[k + 1..] && tops[1..] == Tops(folders)[k + 1..];
    assert secs[0] == SectionGroup(Some(tops[0]), FilesIn(files, tops[0]), Groups(files, inside));
    GroupsShow(files, inside);
    OverConcat(files, FileKey, [tops[0]] + inside, Display(folders, tops[1..]));
    OverOne(files, FileKey, tops[0], inside);
  }

  lemma SuffixLast(fs: seq<Folder>, k: nat)
    requires k < |fs|
    ensures IsLast(fs, k) <==> IsLast(fs[k..], 0)
  {
    assert forall j | 0 < j < |fs| - k :: fs[k..][j] == fs[k + j];
    assert forall j | k < j < |fs| :: fs[j] == fs[k..][j - k];
  }

  lemma OverOne<T>(xs: seq<T>, key: T -> Option<Id>, f: Folder, more: seq<Folder>)
    ensures Over(xs, key, [f] + more) == Under(xs, key, Some(f.id)) + Over(xs, key, more)
  {
    assert ([f] + more)[1..] == more;
  }

  // Filing one more key moves its entries, all of them, out of the remainder.
  lemma {:induction false} OutsideSplit<T>(xs: seq<T>, key: T -> Option<Id>, ks: set<Option<Id>>, k: Option<Id>)
    requires k !in ks
    ensures multiset(Outside(xs, key, ks)) == multiset(Under(xs, key, k)) + multiset(Outside(xs, key, ks + {k}))
  {
    if xs != [] { OutsideSplit(xs[1..], key, ks, k); }
  }

  lemma {:induction false} OverCovers<T>(xs: seq<T>, key: T -> Option<Id>, base: set<Option<Id>>, owners: seq<Folder>)
    requires UniqueIds(owners) && forall f | f in owners :: Some(f.id) !in base
    ensures multiset(Outside(xs, key, base)) == multiset(Over(xs, key, owners))
            + multiset(Outside(xs, key, base + FolderKeys(owners)))
    decreases owners
  {
    if owners == [] {
      assert base + FolderKeys(owners) == base;
    } else {
      var k := Some(owners[0].id);
      OutsideSplit(xs, key, base, k);
      OverCovers(xs, key, base + {k}, owners[1..]);
      KeysFirst(owners);
      assert base + {k} + FolderKeys(owners[1..]) == base + FolderKeys(owners);
    }
  }

  lemma KeysFirst(owners: seq<Folder>)
    requires owners != []
    ensures FolderKeys(owners) == {Some(owners[0].id)} + FolderKeys(owners[1..])
  {
    assert owners == [owners[0]] + owners[1..];
  }

  lemma {:induction false} OutsideNothing<T>(xs: seq<T>, key: T -> Option<Id>)
    ensures Outside(xs, key, {}) == xs
  {
    if xs != [] {
      OutsideNothing(xs[1..], key);
      assert xs == [xs[0]] + xs[1..];
    }
  }

  lemma {:induction false} OutsideAll<T>(xs: seq<T>, key: T -> Option<Id>, ks: set<Option<Id>>)
    requires forall x | x in xs :: key(x) in ks
    ensures Outside(xs, key, ks) == []
  {
    if xs != [] { OutsideAll(xs[1..], key, ks); }
  }

  lemma {:induction false} UnderUnique(folders: seq<Folder>, key: Folder -> Option<Id>, k: Option<Id>)
    requires UniqueIds(folders)
    ensures UniqueIds(Under(folders, key, k))
  {
    if folders != [] {
      UnderUnique(folders[1..], key, k);
      UnderMembers(folders[1..], key, k);
      var r := Under(folders, key, k);
      if key(folders[0]) == k {
        assert r[1..] == Under(folders[1..], key, k);
      } else {
        assert r == Under(folders[1..], key, k);
      }
    }
  }

  lemma {:induction false} LastsUnique(fs: seq<Folder>)
    ensures UniqueIds(Lasts(fs)) && FolderKeys(Lasts(fs)) == FolderKeys(fs)
    ensures forall f | f in Lasts(fs) :: f in fs
  {
    if fs != [] {
      LastsUnique(fs[1..]);
      KeysFirst(fs);
      var r := Lasts(fs);
      if IsLast(fs, 0) {
        KeysFirst(r);
        assert r[1..] == Lasts(fs[1..]);
      } else {
        assert r == Lasts(fs[1..]);
        var j :| 0 < j < |fs| && fs[j].id == fs[0].id;
        assert fs[j] in fs[1..];
      }
    }
  }

  lemma {:induction false} LastsAndRepeated(fs: seq<Folder>)
    ensures multiset(fs) == multiset(Lasts(fs) + Repeated(fs))
  {
    if fs != [] {
      LastsAndRepeated(fs[1..]);
      assert fs == [fs[0]] + fs[1..];
    }
  }

  lemma {:induction false} NamedConcat(folders: seq<Folder>, a: seq<Folder>, b: seq<Folder>)
    ensures NamedAll(folders, a + b) == NamedAll(folders, a) + NamedAll(folders, b)
  {
    if b == [] {
      assert a + b == a;
    } else {
      var n := |b| - 1;
      NamedConcat(folders, a, b[..n]);
      assert a + b == (a + b[..n]) + [b[n]];
      NamedAppend(folders, a + b[..n], b[n]);
    }
  }

  lemma {:induction false} DisplayCounts(folders: seq<Folder>, tops: seq<Folder>)
    ensures multiset(Display(folders, tops))
            == multiset(tops + NamedAll(folders, Over(folders, SectionKey(ById(folders)), Lasts(tops))))
  {
    if tops != [] {
      var key := SectionKey(ById(folders));
      var inside := if IsLast(tops, 0) then Nested(folders, tops[0]) else [];
      var more := Over(folders, key, Lasts(tops[1..]));
      DisplayCounts(folders, tops[1..]);
      LastsFirst(folders, key, tops);
      NamedConcat(folders, inside, more);
      assert NamedAll(folders, []) == [];
      MoveAhead(tops, NamedAll(folders, inside), Display(folders, tops[1..]), NamedAll(folders, more));
    }
  }

  lemma LastsFirst(folders: seq<Folder>, key: Folder -> Option<Id>, tops: seq<Folder>)
    requires tops != []
    ensures Over(folders, key, Lasts(tops))
            == (if IsLast(tops, 0) then Under(folders, key, Some(tops[0].id)) else [])
              + Over(folders, key, Lasts(tops[1..]))
  {
    if IsLast(tops, 0) {
      OverOne(folders, key, tops[0], Lasts(tops[1..]));
    } else {
      assert Lasts(tops) == Lasts(tops[1..]);
    }
  }

  lemma MoveAhead(tops: seq<Folder>, inside: seq<Folder>, rest: seq<Folder>, more: seq<Folder>)
    requires tops != [] && multiset(rest) == multiset(tops[1..] + more)
    ensures multiset([tops[0]] + inside + rest) == multiset(tops + (inside + more))
  {
    assert tops == [tops[0]] + tops[1..];
  }

  // The folders that nest, in the order of the sections they nest in.
  function Inner(folders: seq<Folder>): seq<Folder> { Over(folders, SectionKey(ById(folders)), Lasts(Tops(folders))) }

  // Every folder is a section, or nests in one.
  lemma TopsAndInner(folders: seq<Folder>)
    ensures multiset(folders) == multiset(Tops(folders) + Inner(folders))
  {
    var key := SectionKey(ById(folders));
    var none: set<Option<Id>> := {};
    OutsideNothing(folders, key);
    OutsideSplit(folders, key, none, None);
    assert none + {None} == {None};
    LastsUnique(Tops(folders));
    OverCovers(folders, key, {None}, Lasts(Tops(folders)));
    AllNested(folders);
  }

  lemma AllNested(folders: seq<Folder>)
    ensures Outside(folders, SectionKey(ById(folders)), {None} + FolderKeys(Tops(folders))) == []
  {
    var key := SectionKey(ById(folders));
    forall f | f in folders ensures key(f) in {None} + FolderKeys(Tops(folders)) {
      if key(f) != None { SectionIsTop(folders, f); }
    }
    OutsideAll(folders, key, {None} + FolderKeys(Tops(folders)));
  }

  lemma SectionIsTop(folders: seq<Folder>, f: Folder)
    requires SectionIdOf(f, ById(folders)).Some?
    ensures SectionIdOf(f, ById(folders)) in FolderKeys(Tops(folders))
  {
    ParentIsSection(folders, f);
    UnderMembers(folders, SectionKey(ById(folders)), None);
    assert ById(folders)[SectionIdOf(f, ById(folders)).value] in Tops(folders);
  }

  // Which of them do.
  lemma InnerAre(folders: seq<Folder>)
    ensures forall f :: f in Inner(folders) <==> f in folders && SectionIdOf(f, ById(folders)).Some?
  {
    var key := SectionKey(ById(folders));
    TopsAndInner(folders);
    UnderMembers(folders, key, None);
    LastsUnique(Tops(folders));
    OverMembers(folders, key, Lasts(Tops(folders)));
    forall f ensures f in Inner(folders) <==> f in folders && SectionIdOf(f, ById(folders)).Some? {
      assert key(f) == SectionIdOf(f, ById(folders));
      assert f in folders <==> f in multiset(folders);
      assert f in Tops(folders) + Inner(folders) <==> f in multiset(Tops(folders) + Inner(folders));
    }
  }

  lemma InnerIn(folders: seq<Folder>)
    ensures forall f | f in Inner(folders) :: f in folders
  {
    InnerAre(folders);
  }

  lemma {:induction false} OverMembers<T(!new)>(xs: seq<T>, key: T -> Option<Id>, owners: seq<Folder>)
    ensures forall x | x in Over(xs, key, owners) :: key(x).Some? && x in xs
  {
    if owners != [] {
      OverMembers(xs, key, owners[1..]);
      UnderMembers(xs, key, Some(owners[0].id));
    }
  }

  // Renaming keeps the folders if and only if none of them goes by another.
  lemma NamedSameIff(folders: seq<Folder>, fs: seq<Folder>)
    requires forall f | f in fs :: f in folders
    ensures multiset(NamedAll(folders, fs)) == multiset(fs) <==> forall f | f in fs :: Named(folders, f) == f
  {
    NamedAre(folders, fs);
    if forall f | f in fs :: Named(folders, f) == f {
      AllThemselves(folders, fs);
    } else {
      var f :| f in fs && Named(folders, f) != f;
      assert f in multiset(fs) && f !in NamedAll(folders, fs);
    }
  }

  lemma {:induction false} NamedAre(folders: seq<Folder>, fs: seq<Folder>)
    requires forall f | f in fs :: f in folders
    ensures forall g | g in NamedAll(folders, fs) :: Named(folders, g) == g
  {
    if fs != [] {
      NamedAre(folders, fs[..|fs| - 1]);
      ByIdNames(folders);
      assert fs[|fs| - 1] in fs;
    }
  }

  lemma {:induction false} OverNamed<T>(xs: seq<T>, key: T -> Option<Id>, folders: seq<Folder>, fs: seq<Folder>)
    ensures Over(xs, key, NamedAll(folders, fs)) == Over(xs, key, fs)
  {
    if fs != [] {
      var front, f := fs[..|fs| - 1], fs[|fs| - 1];
      OverNamed(xs, key, folders, front);
      ByIdNames(folders);
      OverConcat(xs, key, front, [f]);
      OverConcat(xs, key, NamedAll(folders, front), [Named(folders, f)]);
      assert fs == front + [f];
      OverOne(xs, key, f, []);
      OverOne(xs, key, Named(folders, f), []);
    }
  }

  // The order of the folders does not matter to which files they hold between them.
  lemma {:induction false} OverPermutation<T>(xs: seq<T>, key: T -> Option<Id>, a: seq<Folder>, b: seq<Folder>)
    requires multiset(a) == multiset(b)
    ensures multiset(Over(xs, key, a)) == multiset(Over(xs, key, b))
  {
    if a == [] {
      assert |b| == |multiset(b)| == 0;
    } else {
      assert a[0] in multiset(b);
      var i :| 0 <= i < |b| && b[i] == a[0];
      TakenOut(a, 0);
      TakenOut(b, i);
      assert a[..0] + a[1..] == a[1..];
      assert multiset(a[1..]) == multiset(a) - multiset{a[0]};
      assert multiset(b[..i] + b[i + 1..]) == multiset(b) - multiset{b[i]};
      OverPermutation(xs, key, a[1..], b[..i] + b[i + 1..]);
      OverTakenOut(xs, key, b, i);
    }
  }

  lemma TakenOut(a: seq<Folder>, i: nat)
    requires i < |a|
    ensures multiset(a) == multiset(a[..i] + a[i + 1..]) + multiset{a[i]}
  {
    assert a == a[..i] + [a[i]] + a[i + 1..];
  }

  lemma OverTakenOut<T>(xs: seq<T>, key: T -> Option<Id>, b: seq<Folder>, i: nat)
    requires i < |b|
    ensures multiset(Over(xs, key, b)) == multiset(Under(xs, key, Some(b[i].id)))
            + multiset(Over(xs, key, b[..i] + b[i + 1..]))
  {
    assert b == b[..i] + ([b[i]] + b[i + 1..]);
    OverConcat(xs, key, b[..i], [b[i]] + b[i + 1..]);
    OverOne(xs, key, b[i], b[i + 1..]);
    OverConcat(xs, key, b[..i], b[i + 1..]);
  }

  lemma {:induction false} ShownAppend(a: seq<SectionGroup>, g: SectionGroup)
    requires g.section == None && g.children == []
    ensures ShownFolders(a + [g]) == ShownFolders(a) && ShownFiles(a + [g]) == ShownFiles(a) + g.files
  {
    if a != [] {
      assert (a + [g])[1..] == a[1..] + [g];
      ShownAppend(a[1..], g);
    } else {
      assert a + [g] == [g];
    }
  }

  lemma GroupedShows(files: seq<File>, folders: seq<Folder>)
    ensures ShownFolders(Grouped(files, folders)) == Display(folders, Tops(folders))
    ensures ShownFiles(Grouped(files, folders)) == Over(files, FileKey, Display(folders, Tops(folders)))
            + Loose(files, folders)
  {
    var loose := Loose(files, folders);
    SectionsShow(files, folders, 0);
    assert Attached(files, folders)[0..] == Attached(files, folders) && Tops(folders)[0..] == Tops(folders);
    if loose == [] {
      assert Grouped(files, folders) == Attached(files, folders);
    } else {
      ShownAppend(Attached(files, folders), SectionGroup(None, loose, []));
    }
  }

  // The files shown are the files of every folder in turn, whatever the sections.
  lemma FilesShown(files: seq<File>, folders: seq<Folder>)
    ensures multiset(ShownFiles(Grouped(files, folders))) == multiset(Over(files, FileKey, folders))
            + multiset(Loose(files, folders))
  {
    var tops, inner := Tops(folders), Inner(folders);
    GroupedShows(files, folders);
    DisplayCounts(folders, tops);
    OverPermutation(files, FileKey, Display(folders, tops), tops + NamedAll(folders, inner));
    OverConcat(files, FileKey, tops, NamedAll(folders, inner));
    OverNamed(files, FileKey, folders, inner);
    TopsAndInner(folders);
    OverPermutation(files, FileKey, folders, tops + inner);
    OverConcat(files, FileKey, tops, inner);
  }

  lemma FilesCovered(files: seq<File>, folders: seq<Folder>)
    ensures multiset(Over(files, FileKey, folders)) + multiset(Loose(files, folders))
            == multiset(files) + multiset(Over(files, FileKey, Repeated(folders)))
  {
    var none: set<Option<Id>> := {};
    OverLasts(files, FileKey, folders);
    LastsUnique(folders);
    OutsideNothing(files, FileKey);
    OverCovers(files, FileKey, none, Lasts(folders));
    assert none + FolderKeys(folders) == FolderKeys(folders);
  }

  lemma OverLasts<T>(xs: seq<T>, key: T -> Option<Id>, fs: seq<Folder>)
    ensures multiset(Over(xs, key, fs)) == multiset(Over(xs, key, Lasts(fs))) + multiset(Over(xs, key, Repeated(fs)))
  {
    LastsAndRepeated(fs);
    OverPermutation(xs, key, fs, Lasts(fs) + Repeated(fs));
    OverConcat(xs, key, Lasts(fs), Repeated(fs));
  }

  lemma {:induction false} OverEmptyIff<T(!new)>(xs: seq<T>, key: T -> Option<Id>, owners: seq<Folder>)
    ensures Over(xs, key, owners) == [] <==> forall x, f | x in xs && f in owners :: key(x) != Some(f.id)
  {
    if owners != [] {
      OverEmptyIff(xs, key, owners[1..]);
      UnderMembers(xs, key, Some(owners[0].id));
      assert owners == [owners[0]] + owners[1..];
      var here := Under(xs, key, Some(owners[0].id));
      if here != [] { assert here[0] in here; }
    }
  }

  /** Grouping loses nothing and repeats nothing, for any parent graph and whether ids are
      unique or not, exactly under these conditions: every folder is shown once if and only if
      no nested one is superseded by a later one of its id, and every file once if and only if
      none is filed under an id that folders share. */
  lemma GroupedIsPartitionIff(files: seq<File>, folders: seq<Folder>)
    ensures multiset(ShownFolders(Grouped(files, folders))) == multiset(folders) <==>
            forall f | f in folders && SectionIdOf(f, ById(folders)).Some? :: Named(folders, f) == f
    ensures multiset(ShownFiles(Grouped(files, folders))) == multiset(files) <==>
            forall x, f | x in files && f in Repeated(folders) :: FileKey(x) != Some(f.id)
  {
    FoldersOnceIff(files, folders);
    FilesOnceIff(files, folders);
  }

  lemma FoldersOnceIff(files: seq<File>, folders: seq<Folder>)
    ensures multiset(ShownFolders(Grouped(files, folders))) == multiset(folders) <==>
            forall f | f in folders && SectionIdOf(f, ById(folders)).Some? :: Named(folders, f) == f
  {
    var inner := Inner(folders);
    GroupedShows(files, folders);
    DisplayCounts(folders, Tops(folders));
    TopsAndInner(folders);
    InnerIn(folders);
    NamedSameIff(folders, inner);
    SamePrefix(Tops(folders), NamedAll(folders, inner), inner);
    InnerNamed(folders);
  }

  lemma InnerNamed(folders: seq<Folder>)
    ensures (forall f | f in Inner(folders) :: Named(folders, f) == f) <==>
            forall f | f in folders && SectionIdOf(f, ById(folders)).Some? :: Named(folders, f) == f
  {
    InnerAre(folders);
  }

  lemma SamePrefix(a: seq<Folder>, b: seq<Folder>, c: seq<Folder>)
    ensures multiset(a + b) == multiset(a + c) <==> multiset(b) == multiset(c)
  {
    assert multiset(b) == multiset(a + b) - multiset(a) && multiset(c) == multiset(a + c) - multiset(a);
  }

  lemma FilesOnceIff(files: seq<File>, folders: seq<Folder>)
    ensures multiset(ShownFiles(Grouped(files, folders))) == multiset(files) <==>
            forall x, f | x in files && f in Repeated(folders) :: FileKey(x) != Some(f.id)
  {
    var extra := Over(files, FileKey, Repeated(folders));
    FilesShown(files, folders);
    FilesCovered(files, folders);
    OverEmptyIff(files, FileKey, Repeated(folders));
    assert extra != [] ==> multiset(extra)[extra[0]] > 0;
  }

  /** For unique ids, then, always. */
  lemma HierarchyIsPartition(files: seq<File>, folders: seq<Folder>)
    requires UniqueIds(folders)
    ensures multiset(ShownFolders(Hierarchy(files, folders))) == multiset(folders)
    ensures multiset(ShownFiles(Hierarchy(files, folders))) == multiset(files)
  {
    GroupedIsHierarchy(files, folders);
    GroupedIsPartitionIff(files, folders);
    ByIdFinds(folders);
    NoneRepeated(folders);
  }

  lemma {:induction false} NoneRepeated(folders: seq<Folder>)
    requires UniqueIds(folders)
    ensures Repeated(folders) == []
  {
    if folders != [] {
      NoneRepeated(folders[1..]);
      forall j | 0 < j < |folders| ensures folders[j].id != folders[0].id { UniqueAt(folders, 0, j); }
    }
  }

  // ---- The order ----

  lemma {:induction false} UnderKeepsOrder<T>(xs: seq<T>, key: T -> Option<Id>, k: Option<Id>)
    ensures KeepsOrder(Under(xs, key, k), xs)
  {
    if xs != [] {
      UnderKeepsOrder(xs[1..], key, k);
      var r := Under(xs, key, k);
      if key(xs[0]) == k { assert r[1..] == Under(xs[1..], key, k); } else { assert r == Under(xs[1..], key, k); }
    }
  }

  lemma {:induction false} OutsideKeepsOrder<T>(xs: seq<T>, key: T -> Option<Id>, ks: set<Option<Id>>)
    ensures KeepsOrder(Outside(xs, key, ks), xs)
  {
    if xs != [] {
      OutsideKeepsOrder(xs[1..], key, ks);
      var r := Outside(xs, key, ks);
      if key(xs[0]) !in ks {
        assert r[1..] == Outside(xs[1..], key, ks);
      } else {
        assert r == Outside(xs[1..], key, ks);
      }
    }
  }

  function SectionFolders(out: seq<SectionGroup>): seq<Folder> {
    if out == [] then [] else (if out[0].section.Some? then [out[0].section.value] else []) + SectionFolders(out[1..])
  }

  function IdsOf(fs: seq<Folder>): seq<Id> { if fs == [] then [] else [fs[0].id] + IdsOf(fs[1..]) }

  lemma {:induction false} IdsKeepOrder(a: seq<Folder>, b: seq<Folder>)
    requires KeepsOrder(a, b)
    ensures KeepsOrder(IdsOf(a), IdsOf(b))
    decreases |a| + |b|
  {
    if a != [] {
      if a[0] == b[0] && KeepsOrder(a[1..], b[1..]) {
        IdsKeepOrder(a[1..], b[1..]);
        assert IdsOf(a)[1..] == IdsOf(a[1..]) && IdsOf(b)[1..] == IdsOf(b[1..]);
      } else {
        IdsKeepOrder(a, b[1..]);
        assert IdsOf(b)[1..] == IdsOf(b[1..]);
      }
    }
  }

  lemma {:induction false} IdsAppend(fs: seq<Folder>, f: Folder)
    ensures IdsOf(fs + [f]) == IdsOf(fs) + [f.id]
  {
    if fs != [] {
      assert (fs + [f])[1..] == fs[1..] + [f];
      IdsAppend(fs[1..], f);
    }
  }

  lemma {:induction false} NamedIds(folders: seq<Folder>, fs: seq<Folder>)
    ensures IdsOf(NamedAll(folders, fs)) == IdsOf(fs)
  {
    if fs != [] {
      var front, f := fs[..|fs| - 1], fs[|fs| - 1];
      NamedIds(folders, front);
      ByIdNames(folders);
      IdsAppend(front, f);
      IdsAppend(NamedAll(folders, front), Named(folders, f));
      assert fs == front + [f];
    }
  }

  lemma {:induction false} AttachedSections(files: seq<File>, folders: seq<Folder>, loose: seq<SectionGroup>, k: nat)
    requires k <= |Tops(folders)| && SectionFolders(loose) == []
    ensures SectionFolders(Attached(files, folders)[k..] + loose) == Tops(folders)[k..]
    decreases |Tops(folders)| - k
  {
    var out, tops := Attached(files, folders)[k..], Tops(folders)[k..];
    if k < |Tops(folders)| {
      AttachedSections(files, folders, loose, k + 1);
      SuffixThen(Attached(files, folders), loose, k);
      assert tops == [tops[0]] + Tops(folders)[k + 1..];
    } else {
      assert out + loose == loose;
    }
  }

  lemma SuffixThen(a: seq<SectionGroup>, b: seq<SectionGroup>, k: nat)
    requires k < |a|
    ensures (a[k..] + b)[0] == a[k] && (a[k..] + b)[1..] == a[k + 1..] + b
  {}

  /** For any folders at all: the sections are in folder order, the ids nested in each are in the
      order of the folders' ids, and the files of every group are in file order; for unique ids
      the nested folders themselves are in folder order. */
  lemma GroupedKeepsOrder(files: seq<File>, folders: seq<Folder>)
    ensures KeepsOrder(SectionFolders(Grouped(files, folders)), folders)
    ensures forall g | g in Grouped(files, folders) ::
              KeepsOrder(IdsOf(FoldersOf(g.children)), IdsOf(folders)) && KeepsOrder(g.files, files)
    ensures UniqueIds(folders) ==> forall g | g in Grouped(files, folders) :: KeepsOrder(FoldersOf(g.children), folders)
    ensures forall g, c | g in Grouped(files, folders) && c in g.children :: KeepsOrder(c.files, files)
  {
    var loose := Loose(files, folders);
    var last := if loose == [] then [] else [SectionGroup(None, loose, [])];
    AttachedSections(files, folders, last, 0);
    assert Attached(files, folders)[0..] == Attached(files, folders) && Tops(folders)[0..] == Tops(folders);
    UnderKeepsOrder(folders, SectionKey(ById(folders)), None);
    forall g | g in Grouped(files, folders)
      ensures KeepsOrder(IdsOf(FoldersOf(g.children)), IdsOf(folders)) && KeepsOrder(g.files, files)
      ensures UniqueIds(folders) ==> KeepsOrder(FoldersOf(g.children), folders)
      ensures forall c | c in g.children :: KeepsOrder(c.files, files)
    {
      if g in last {
        OutsideKeepsOrder(files, FileKey, FolderKeys(folders));
      } else {
        var k :| 0 <= k < |Tops(folders)| && Attached(files, folders)[k] == g;
        PartialKeepsOrder(files, folders, k);
      }
    }
  }

  lemma PartialKeepsOrder(files: seq<File>, folders: seq<Folder>, k: nat)
    requires k < |Tops(folders)|
    ensures var g := Partial(files, folders, |folders|, Tops(folders), k);
            && KeepsOrder(IdsOf(FoldersOf(g.children)), IdsOf(folders)) && KeepsOrder(g.files, files)
            && (UniqueIds(folders) ==> KeepsOrder(FoldersOf(g.children), folders))
            && forall c | c in g.children :: KeepsOrder(c.files, files)
  {
    var g, top := Partial(files, folders, |folders|, Tops(folders), k), Tops(folders)[k];
    assert folders[..|folders|] == folders;
    var inside := NamedAll(folders, Nested(folders, top));
    UnderKeepsOrder(files, FileKey, Some(top.id));
    if IsLast(Tops(folders), k) {
      GroupsShow(files, inside);
      NamedIds(folders, Nested(folders, top));
      UnderKeepsOrder(folders, SectionKey(ById(folders)), Some(top.id));
      IdsKeepOrder(Nested(folders, top), folders);
      GroupsKeepOrder(files, inside);
      if UniqueIds(folders) {
        NamesThemselves(folders, Nested(folders, top), SectionKey(ById(folders)), Some(top.id));
      }
    }
  }

  lemma GroupsKeepOrder(files: seq<File>, fs: seq<Folder>)
    ensures forall c | c in Groups(files, fs) :: KeepsOrder(c.files, files)
  {
    forall c | c in Groups(files, fs) ensures KeepsOrder(c.files, files) {
      var j :| 0 <= j < |Groups(files, fs)| && Groups(files, fs)[j] == c;
      GroupsLength(files, fs);
      GroupsAt(files, fs, j);
      UnderKeepsOrder(files, FileKey, Some(fs[j].id));
    }
  }

  // ---- Who is shown where ----

  ghost predicate IsShownAsSection(out: seq<SectionGroup>, f: Folder) { exists g :: g in out && g.section == Some(f) }

  ghost predicate IsShownInside(out: seq<SectionGroup>, f: Folder, p: Folder) {
    exists g :: g in out && g.section == Some(p) && f in FoldersOf(g.children)
  }

  lemma TopsAre(folders: seq<Folder>, f: Folder)
    ensures f in Tops(folders) <==> f in folders && forall p :: !NestsIn(folders, f, p)
  {
    UnderMembers(folders, SectionKey(ById(folders)), None);
    forall p ensures SectionIdOf(f, ById(folders)) == Some(p) <==> NestsIn(folders, f, p) { SectionIff(folders, f, p); }
    assert SectionKey(ById(folders))(f) == SectionIdOf(f, ById(folders));
  }

  /** In the grouping a folder is a section of its own if and only if it nests nowhere. */
  lemma ShownAsSectionIff(files: seq<File>, folders: seq<Folder>, f: Folder)
    ensures IsShownAsSection(Grouped(files, folders), f) <==> f in folders && forall p :: !NestsIn(folders, f, p)
  {
    var out, tops := Grouped(files, folders), Tops(folders);
    TopsAre(folders, f);
    if g :| g in out && g.section == Some(f) {
      var k :| 0 <= k < |out| && out[k] == g;
      assert k < |tops| ==> g == Partial(files, folders, |folders|, tops, k);
    }
    if f in tops {
      var k :| 0 <= k < |tops| && tops[k] == f;
      assert out[k] == Partial(files, folders, |folders|, tops, k);
      assert out[k] in out;
    }
  }

  /** And, for unique ids, it is shown inside another if and only if it nests in that one. */
  lemma ShownInsideIff(files: seq<File>, folders: seq<Folder>, f: Folder, p: Folder)
    requires UniqueIds(folders)
    ensures IsShownInside(Grouped(files, folders), f, p) <==> f in folders && p in folders && NestsIn(folders, f, p.id)
  {
    var out, tops := Grouped(files, folders), Tops(folders);
    GroupedIsHierarchy(files, folders);
    NestedAre(files, folders, f, p);
    TopsAre(folders, p);
    if g :| g in out && g.section == Some(p) && f in FoldersOf(g.children) {
      var k :| 0 <= k < |out| && out[k] == g;
      HierarchyAt(files, folders, k);
    }
    if f in folders && p in folders && NestsIn(folders, f, p.id) {
      ParentIsTop(folders, f, p);
      var k :| 0 <= k < |tops| && tops[k] == p;
      HierarchyAt(files, folders, k);
      assert out[k] in out;
    }
  }

  lemma NestedAre(files: seq<File>, folders: seq<Folder>, f: Folder, p: Folder)
    ensures f in FoldersOf(Section(files, folders, p).children) <==> f in folders && NestsIn(folders, f, p.id)
  {
    GroupsShow(files, Nested(folders, p));
    UnderMembers(folders, SectionKey(ById(folders)), Some(p.id));
    SectionIff(folders, f, p.id);
    assert SectionKey(ById(folders))(f) == SectionIdOf(f, ById(folders));
  }

  lemma HierarchyAt(files: seq<File>, folders: seq<Folder>, k: nat)
    requires k < |Hierarchy(files, folders)|
    ensures |Hierarchy(files, folders)| >= |Tops(folders)|
    ensures if k < |Tops(folders)| then Hierarchy(files, folders)[k] == Section(files, folders, Tops(folders)[k])
            else Hierarchy(files, folders)[k].section == None
  {
    SectionsAre(files, folders, Tops(folders));
  }

  lemma {:induction false} SectionsAre(files: seq<File>, folders: seq<Folder>, tops: seq<Folder>)
    ensures var out := Sections(files, folders, tops);
            |out| == |tops| && forall k | 0 <= k < |out| :: out[k] == Section(files, folders, tops[k])
  {
    if tops != [] { SectionsAre(files, folders, tops[1..]); }
  }

  lemma ParentIsTop(folders: seq<Folder>, f: Folder, p: Folder)
    requires UniqueIds(folders) && f in folders && p in folders && NestsIn(folders, f, p.id)
    ensures p in Tops(folders)
  {
    SectionIff(folders, f, p.id);
    ParentIsSection(folders, f);
    ByIdFinds(folders);
    UnderMembers(folders, SectionKey(ById(folders)), None);
    assert SectionKey(ById(folders))(p) == SectionIdOf(p, ById(folders));
  }

  lemma FiledIff(files: seq<File>, f: Folder, x: File)
    ensures x in FilesIn(files, f) <==> x in files && x.folderId == f.id && x.folderId != ""
  {
    UnderMembers(files, FileKey, Some(f.id));
  }

  lemma LooseIff(files: seq<File>, folders: seq<Folder>, x: File)
    ensures x in Loose(files, folders) <==>
            x in files && (x.folderId == "" || forall f | f in folders :: f.id != x.folderId)
  {
    OutsideMembers(files, FileKey, FolderKeys(folders));
  }

  lemma {:induction false} OutsideMembers<T(!new)>(xs: seq<T>, key: T -> Option<Id>, ks: set<Option<Id>>)
    ensures forall x :: x in Outside(xs, key, ks) <==> x in xs && key(x) !in ks
  {
    if xs != [] {
      OutsideMembers(xs[1..], key, ks);
      assert xs == [xs[0]] + xs[1..];
    }
  }

  /** Where a file is shown in the flat grouping: with each folder that has its id, and among the rest
      if it names none or one that is not live. */
  lemma FlatShowsIff(files: seq<File>, folders: seq<Folder>, g: FolderGroup, x: File)
    requires g in Flat(files, folders)
    ensures x in g.files <==>
            x in files && if g.folder.Some? then x.folderId == g.folder.value.id && x.folderId != ""
                          else x.folderId == "" || forall f | f in folders :: f.id != x.folderId
    ensures g.folder.Some? ==> g.folder.value in folders
  {
    LooseIff(files, folders, x);
    if g in Groups(files, folders) {
      var i :| 0 <= i < |Groups(files, folders)| && Groups(files, folders)[i] == g;
      GroupsLength(files, folders);
      GroupsAt(files, folders, i);
      FiledIff(files, folders[i], x);
    }
  }

  // In no folder that is live.
  predicate IsLoose(folders: seq<Folder>, x: File) { x.folderId == "" || forall f | f in folders :: f.id != x.folderId }

  /** The flat grouping is one group for each folder in order, however few files it has, and a last one
      for the files in none, if there are such. */
  lemma FlatGroupsIff(files: seq<File>, folders: seq<Folder>)
    ensures var r, n := Flat(files, folders), |folders|;
            && |r| == n + (if exists x :: x in files && IsLoose(folders, x) then 1 else 0)
            && (forall i | 0 <= i < n :: r[i].folder == Some(folders[i])) && (|r| > n ==> r[n].folder == None)
  {
    GroupsLength(files, folders);
    forall i | 0 <= i < |folders| ensures Groups(files, folders)[i].folder == Some(folders[i]) {
      GroupsAt(files, folders, i);
    }
    var loose := Loose(files, folders);
    forall x ensures x in loose <==> x in files && IsLoose(folders, x) { LooseIff(files, folders, x); }
    if loose != [] { assert loose[0] in loose; }
  }

  /** And in the hierarchy: with each section and each nested folder that has its id, and else among
      the rest. A nested folder is always shown as the last one of its id. */
  lemma GroupedShowsIff(files: seq<File>, folders: seq<Folder>, g: SectionGroup, x: File)
    requires g in Grouped(files, folders)
    ensures x in g.files <==>
            x in files && if g.section.Some? then x.folderId == g.section.value.id && x.folderId != ""
                          else x.folderId == "" || forall f | f in folders :: f.id != x.folderId
    ensures forall c | c in g.children ::
              && c.folder.Some? && GoesBy(folders, c.folder.value.id, c.folder.value)
              && (x in c.files <==> x in files && x.folderId == c.folder.value.id && x.folderId != "")
  {
    LooseIff(files, folders, x);
    if g in Attached(files, folders) {
      var k :| 0 <= k < |Attached(files, folders)| && Attached(files, folders)[k] == g;
      FiledIff(files, Tops(folders)[k], x);
      forall c | c in g.children
        ensures c.folder.Some? && GoesBy(folders, c.folder.value.id, c.folder.value)
        ensures x in c.files <==> x in files && x.folderId == c.folder.value.id && x.folderId != ""
      {
        ChildShows(files, folders, k, c, x);
      }
    }
  }

  lemma ChildShows(files: seq<File>, folders: seq<Folder>, k: nat, c: FolderGroup, x: File)
    requires k < |Tops(folders)| && c in Partial(files, folders, |folders|, Tops(folders), k).children
    ensures c.folder.Some? && GoesBy(folders, c.folder.value.id, c.folder.value)
    ensures x in c.files <==> x in files && x.folderId == c.folder.value.id && x.folderId != ""
  {
    assert folders[..|folders|] == folders;
    var nested := Nested(folders, Tops(folders)[k]);
    var inside := NamedAll(folders, nested);
    var i :| 0 <= i < |Groups(files, inside)| && Groups(files, inside)[i] == c;
    GroupsLength(files, inside);
    GroupsAt(files, inside, i);
    FiledIff(files, inside[i], x);
    UnderMembers(folders, SectionKey(ById(folders)), Some(Tops(folders)[k].id));
    NamedGoesBy(folders, nested, i);
  }

  lemma {:induction false} NamedGoesBy(folders: seq<Folder>, fs: seq<Folder>, i: nat)
    requires i < |NamedAll(folders, fs)| && forall f | f in fs :: f in folders
    ensures GoesBy(folders, NamedAll(folders, fs)[i].id, NamedAll(folders, fs)[i])
  {
    var front, last := fs[..|fs| - 1], fs[|fs| - 1];
    if i < |NamedAll(folders, front)| {
      NamedGoesBy(folders, front, i);
    } else {
      assert last in fs;
      ByIdNames(folders);
      ByIdIs(folders, last.id);
    }
  }
}
