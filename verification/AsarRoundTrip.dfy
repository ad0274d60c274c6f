/** Opening an archive gives back what Write put into it: the exact condition. */
module AsarRoundTrip {
  import opened Wrappers
  import opened Text
  import opened AsarPickle
  import opened AsarPaths
  import opened AsarHeader
  import opened Asar

  // ----- names -----

  /** A file name as an archive spells it: plain components, no outer white space. */
  ghost predicate Canonical(name: string)
  {
    var parts := Split(name, '/');
    ValidParts(parts) && !EndsInSpace(parts[|parts| - 1])
  }

  /** Canonical names, none of them also a folder of another. */
  ghost predicate WellNamed(packed: Files, unpacked: Files)
  {
    var names := packed.Keys + unpacked.Keys;
    && packed.Keys !! unpacked.Keys
    && (forall n :: n in names ==> Canonical(n))
    && (forall n, m :: n in names && m in names ==> !(n + "/" <= m))
  }

  lemma SplitInjective(a: string, b: string)
    requires Split(a, '/') == Split(b, '/')
    ensures a == b
  {
    JoinSplit(a, '/');
    JoinSplit(b, '/');
  }

  lemma FolderIsPrefix(a: string, b: string)
    requires a + "/" <= b
    ensures StrictPrefix(Split(a, '/'), Split(b, '/'))
  {
  }

  lemma PrefixIsFolder(a: string, b: string)
    requires StrictPrefix(Split(a, '/'), Split(b, '/'))
    ensures a + "/" <= b
  {
    var p, q := Split(a, '/'), Split(b, '/');
    JoinSplit(a, '/');
    JoinSplit(b, '/');
    assert q == p + q[|p|..];
    JoinConcat(p, q[|p|..], '/');
  }

  /** Being a folder of a name, on strings and on components. */
  lemma AncestorParts(a: string, b: string)
    ensures a + "/" <= b <==> StrictPrefix(Split(a, '/'), Split(b, '/'))
  {
    if a + "/" <= b { FolderIsPrefix(a, b); }
    if StrictPrefix(Split(a, '/'), Split(b, '/')) { PrefixIsFolder(a, b); }
  }

  lemma CanonicalName(name: string)
    requires Canonical(name)
    ensures NormalizeInnerPath(name) == name && name != "" && !("../" <= name)
  {
    var parts := Split(name, '/');
    JoinSplit(name, '/');
    NormalizeJoin(parts);
    JoinEnds(parts);
    assert PlainName(parts[0]);
    if "../" <= name {
      assert name == ".." + ['/'] + name[3..];
      SplitAfterPiece("..", name[3..], '/');
    }
  }

  // ----- the tree Write builds, as a map from paths to files -----

  type Leaves = m: map<seq<string>, Kind> | forall p :: p in m ==> m[p].Leaf? witness map[]

  /** The kind of every path when exactly these files are in the tree. */
  ghost function Expect(leaves: Leaves, q: seq<string>): Kind
  {
    if q in leaves then leaves[q]
    else if q == [] || exists k :: k in leaves && StrictPrefix(q, k) then Folder
    else Missing
  }

  ghost predicate Holds(root: WriteNode, leaves: Leaves)
  {
    forall q :: Look(root, q) == Expect(leaves, q)
  }

  ghost predicate Apart(leaves: Leaves, parts: seq<string>)
  {
    forall k :: k in leaves ==> !(k <= parts) && !(parts <= k)
  }

  lemma AddHolds(root: WriteNode, leaves: Leaves, name: string, file: WriteNode)
    requires Holds(root, leaves) && [] !in leaves && Canonical(name) && file.File?
    requires Apart(leaves, Split(name, '/'))
    ensures AddFile(root, name, file).Ok?
    ensures Holds(AddFile(root, name, file).value, leaves[Split(name, '/') := KindOf(file)])
  {
    var parts := Split(name, '/');
    CanonicalName(name);
    forall q | StrictPrefix(q, parts)
      ensures !Look(root, q).Leaf?
    {
      assert Look(root, q) == Expect(leaves, q);
    }
    LookInsert(root, parts, file, []);
    var grown: Leaves := leaves[parts := KindOf(file)];
    forall q
      ensures Look(AddFile(root, name, file).value, q) == Expect(grown, q)
    {
      LookInsert(root, parts, file, q);
      assert Look(root, q) == Expect(leaves, q);
      assert parts in grown;
      if StrictPrefix(parts, q) {
        assert forall k :: k in leaves && StrictPrefix(q, k) ==> parts <= k;
      }
    }
  }

  function Concat(names: seq<string>, data: Files): seq<Byte>
    requires forall i :: 0 <= i < |names| ==> names[i] in data
  {
    if names == [] then [] else Concat(names[..|names| - 1], data) + data[names[|names| - 1]]
  }

  function PackedLeaves(names: seq<string>, data: Files): Leaves
    requires forall i :: 0 <= i < |names| ==> names[i] in data
  {
    if names == [] then map[]
    else
      var front, name := names[..|names| - 1], names[|names| - 1];
      PackedLeaves(front, data)[Split(name, '/') := Leaf(Itoa(|Concat(front, data)|), |data[name]|, false)]
  }

  function UnpackedLeaves(names: seq<string>, data: Files, leaves: Leaves): Leaves
    requires forall i :: 0 <= i < |names| ==> names[i] in data
  {
    if names == [] then leaves
    else
      var front, name := names[..|names| - 1], names[|names| - 1];
      UnpackedLeaves(front, data, leaves)[Split(name, '/') := Leaf("", |data[name]|, true)]
  }

  /** No name is another one's folder, and none occurs twice. */
  ghost predicate NamesApart(names: seq<string>)
  {
    && (forall i :: 0 <= i < |names| ==> Canonical(names[i]))
    && forall i, j :: 0 <= i < |names| && 0 <= j < |names| && i != j ==> !(Split(names[i], '/') <= Split(names[j], '/'))
  }

  ghost predicate KeysFrom(leaves: Leaves, names: seq<string>)
  {
    forall q :: q in leaves <==> exists i :: 0 <= i < |names| && Split(names[i], '/') == q
  }

  /** One more name, apart from those already there. */
  lemma SnocApart(names: seq<string>, leaves: Leaves)
    requires |names| >= 1 && NamesApart(names) && KeysFrom(leaves, names[..|names| - 1])
    ensures NamesApart(names[..|names| - 1])
    ensures Apart(leaves, Split(names[|names| - 1], '/')) && [] !in leaves
  {
  }

  lemma SnocKeys(names: seq<string>, leaves: Leaves, leaf: Kind)
    requires |names| >= 1 && KeysFrom(leaves, names[..|names| - 1]) && leaf.Leaf?
    ensures KeysFrom(leaves[Split(names[|names| - 1], '/') := leaf], names)
  {
  }

  lemma {:induction false} PackedHolds(names: seq<string>, data: Files)
    requires forall i :: 0 <= i < |names| ==> names[i] in data
    requires NamesApart(names)
    ensures Packed(names, data).Ok?
    ensures Packed(names, data).value.content == Concat(names, data)
    ensures Holds(Packed(names, data).value.root, PackedLeaves(names, data))
    ensures KeysFrom(PackedLeaves(names, data), names)
  {
    if names == [] {
      assert forall q :: Look(Dir(map[]), q) == Expect(map[], q);
    } else {
      var front, name := names[..|names| - 1], names[|names| - 1];
      assert NamesApart(front) by { assert forall i :: 0 <= i < |front| ==> front[i] == names[i]; }
      PackedHolds(front, data);
      var b := Packed(front, data).value;
      var file := File(Itoa(|b.content|), |data[name]|, false);
      SnocApart(names, PackedLeaves(front, data));
      AddHolds(b.root, PackedLeaves(front, data), name, file);
      SnocKeys(names, PackedLeaves(front, data), KindOf(file));
    }
  }

  lemma {:induction false} UnpackedHolds(before: seq<string>, names: seq<string>, data: Files, root: WriteNode, leaves: Leaves)
    requires forall i :: 0 <= i < |names| ==> names[i] in data
    requires NamesApart(before + names) && Holds(root, leaves) && KeysFrom(leaves, before)
    ensures WithUnpacked(names, data, root).Ok?
    ensures Holds(WithUnpacked(names, data, root).value, UnpackedLeaves(names, data, leaves))
    ensures KeysFrom(UnpackedLeaves(names, data, leaves), before + names)
    decreases |names|
  {
    if names == [] {
      assert before + names == before;
    } else {
      var front, name := names[..|names| - 1], names[|names| - 1];
      var all := before + names;
      assert all[..|all| - 1] == before + front && all[|all| - 1] == name;
      assert NamesApart(before + front) by { assert forall i :: 0 <= i < |before + front| ==> (before + front)[i] == all[i]; }
      UnpackedHolds(before, front, data, root, leaves);
      var file := File("", |data[name]|, true);
      SnocApart(all, UnpackedLeaves(front, data, leaves));
      AddHolds(WithUnpacked(front, data, root).value, UnpackedLeaves(front, data, leaves), name, file);
      SnocKeys(all, UnpackedLeaves(front, data, leaves), KindOf(file));
    }
  }

  // ----- where each file lies in the content -----

  /** The offset of the i-th packed file. */
  function Start(names: seq<string>, data: Files, i: nat): nat
    requires forall i :: 0 <= i < |names| ==> names[i] in data
    requires i <= |names|
  {
    |Concat(names[..i], data)|
  }

  lemma StartNext(names: seq<string>, data: Files, i: nat)
    requires forall i :: 0 <= i < |names| ==> names[i] in data
    requires i < |names|
    ensures Start(names, data, i + 1) == Start(names, data, i) + |data[names[i]]|
  {
    assert names[..i + 1][..i] == names[..i];
  }

  lemma {:induction false} StartsInOrder(names: seq<string>, data: Files, i: nat, j: nat)
    requires forall i :: 0 <= i < |names| ==> names[i] in data
    requires i < j <= |names|
    ensures Start(names, data, i) + |data[names[i]]| <= Start(names, data, j)
    decreases j
  {
    StartNext(names, data, j - 1);
    if i < j - 1 {
      StartsInOrder(names, data, i, j - 1);
    }
  }

  /** Each packed file is found at its offset, byte for byte. */
  lemma {:induction false} ContentAt(names: seq<string>, data: Files, i: nat)
    requires forall i :: 0 <= i < |names| ==> names[i] in data
    requires i < |names|
    ensures Start(names, data, i) + |data[names[i]]| <= |Concat(names, data)|
    ensures Concat(names, data)[Start(names, data, i)..Start(names, data, i) + |data[names[i]]|] == data[names[i]]
    decreases |names|
  {
    var front := names[..|names| - 1];
    assert front[..i] == names[..i];
    if i < |front| {
      ContentAt(front, data, i);
    }
  }

  /** Every content position lies in some file. */
  lemma {:induction false} SomeExtent(names: seq<string>, data: Files, pos: nat) returns (i: nat)
    requires forall i :: 0 <= i < |names| ==> names[i] in data
    requires pos < |Concat(names, data)|
    ensures i < |names| && Start(names, data, i) <= pos < Start(names, data, i) + |data[names[i]]|
    decreases |names|
  {
    var front := names[..|names| - 1];
    if pos < |Concat(front, data)| {
      i := SomeExtent(front, data, pos);
      assert front[..i] == names[..i];
    } else {
      i := |front|;
    }
  }

  lemma {:induction false} PackedLeafAt(names: seq<string>, data: Files, i: nat)
    requires forall i :: 0 <= i < |names| ==> names[i] in data
    requires NamesApart(names) && i < |names|
    ensures Split(names[i], '/') in PackedLeaves(names, data)
    ensures PackedLeaves(names, data)[Split(names[i], '/')] == Leaf(Itoa(Start(names, data, i)), |data[names[i]]|, false)
    decreases |names|
  {
    var front := names[..|names| - 1];
    assert front[..i] == names[..i];
    if i < |front| {
      assert forall j :: 0 <= j < |front| ==> front[j] == names[j];
      PackedLeafAt(front, data, i);
      assert Split(names[i], '/') != Split(names[|names| - 1], '/');
    }
  }

  /** Unpacked names get their own leaves and leave the packed ones alone. */
  lemma {:induction false} UnpackedLeafAt(before: seq<string>, names: seq<string>, data: Files, leaves: Leaves, i: nat)
    requires forall i :: 0 <= i < |names| ==> names[i] in data
    requires NamesApart(before + names) && i < |before + names|
    requires i < |before| ==> Split(before[i], '/') in leaves
    ensures Split((before + names)[i], '/') in UnpackedLeaves(names, data, leaves)
    ensures UnpackedLeaves(names, data, leaves)[Split((before + names)[i], '/')]
      == if i < |before| then leaves[Split(before[i], '/')] else Leaf("", |data[names[i - |before|]]|, true)
    decreases |names|
  {
    if names != [] {
      var all := before + names;
      var front := names[..|names| - 1];
      assert forall j :: 0 <= j < |before + front| ==> (before + front)[j] == all[j];
      if i < |all| - 1 {
        UnpackedLeafAt(before, front, data, leaves, i);
        assert Split(all[i], '/') != Split(all[|all| - 1], '/');
      }
    }
  }

  // ----- from the tree to the entries Open finds -----

  /** Leaves Open can restore: steady names, sizes that are written, offsets that parse. */
  ghost predicate Restorable(leaves: Leaves)
  {
    forall k :: k in leaves ==>
      && ValidParts(k) && Steady(k)
      && leaves[k].size > 0
      && (leaves[k].unpacked || (ParseInt(leaves[k].offset).Some? && ParseInt(leaves[k].offset).value >= 0))
  }

  lemma TidyAtRoot(root: WriteNode, leaves: Leaves, q: seq<string>)
    requires Holds(root, leaves) && Restorable(leaves) && q != []
    ensures TidyAt([], root, q)
  {
    assert Look(root, q) == Expect(leaves, q);
    assert [] + q == q;
    if Look(root, q).Folder? {
      var k :| k in leaves && StrictPrefix(q, k);
      assert forall i :: 0 <= i < |q| ==> q[i] == k[i];
      ChildTowards(root, leaves, q, k);
    }
  }

  lemma ChildTowards(root: WriteNode, leaves: Leaves, q: seq<string>, k: seq<string>)
    requires Holds(root, leaves) && k in leaves && StrictPrefix(q, k)
    ensures HasChild(root, q)
  {
    var child := q + [k[|q|]];
    assert child <= k;
    assert Look(root, child) == Expect(leaves, child);
    assert !Look(root, q + [k[|q|]]).Missing?;
  }

  lemma TidyBranch(root: WriteNode, leaves: Leaves, name: string)
    requires Holds(root, leaves) && Restorable(leaves) && root.Dir? && name in root.files
    ensures Tidy([name], root.files[name])
  {
    var child := root.files[name];
    forall q
      ensures TidyAt([name], child, q)
    {
      var r := [name] + q;
      assert r[1..] == q;
      TidyAtRoot(root, leaves, r);
      assert [] + r == r;
      if Look(child, q).Folder? {
        var n :| !Look(root, r + [n]).Missing?;
        assert (r + [n])[1..] == q + [n];
      }
    }
  }

  /** `e` describes a file or a folder of these leaves. */
  ghost predicate Described(leaves: Leaves, e: Entry)
  {
    exists q :: q != [] && !Expect(leaves, q).Missing? && e == EntryOf(q, Expect(leaves, q))
  }

  lemma RootEntry(root: WriteNode, leaves: Leaves, e: Entry)
    requires Holds(root, leaves) && root.Dir?
    ensures Described(leaves, e) <==> exists name :: name in root.files && Yields([name], root.files[name], e)
  {
    if Described(leaves, e) {
      var q :| q != [] && !Expect(leaves, q).Missing? && e == EntryOf(q, Expect(leaves, q));
      assert Look(root, q) == Expect(leaves, q);
      assert [q[0]] + q[1..] == q;
      assert Yields([q[0]], root.files[q[0]], e);
    }
    if name :| name in root.files && Yields([name], root.files[name], e) {
      var q :| !Look(root.files[name], q).Missing? && e == EntryOf([name] + q, Look(root.files[name], q));
      var r := [name] + q;
      assert r[1..] == q && Look(root, r) == Expect(leaves, r);
    }
  }

  lemma BranchFlat(root: WriteNode, leaves: Leaves, name: string)
    requires Holds(root, leaves) && Restorable(leaves) && root.Dir? && name in root.files
    ensures FlattensTo(name, [name], root.files[name])
  {
    TidyBranch(root, leaves, name);
    FlatOfTidy([name], root.files[name]);
    assert Join([name], '/') == name;
  }

  lemma RootFlatAt(root: WriteNode, leaves: Leaves, e: Entry)
    requires Holds(root, leaves) && Restorable(leaves) && root.Dir? && root.files != map[]
    ensures JsonView(root).DirEntry?
    ensures e in FlatRoot(JsonView(root).files) <==> Described(leaves, e)
  {
    var files := map name | name in root.files :: JsonView(root.files[name]);
    assert JsonView(root) == DirEntry(files);
    RootEntry(root, leaves, e);
    forall name | name in root.files
      ensures e in Flat(name, files[name]) <==> Yields([name], root.files[name], e)
    {
      BranchFlat(root, leaves, name);
    }
    assert e in FlatRoot(files) <==> exists name :: name in files && e in Flat(name, files[name]);
  }

  /** Opening the tree succeeds, and its entries are the files and their folders. */
  lemma RootFlat(root: WriteNode, leaves: Leaves)
    requires Holds(root, leaves) && Restorable(leaves) && root.Dir? && root.files != map[]
    ensures JsonView(root).DirEntry? && !RootFails(JsonView(root).files)
    ensures forall e :: e in FlatRoot(JsonView(root).files) <==> Described(leaves, e)
  {
    var files := map name | name in root.files :: JsonView(root.files[name]);
    assert JsonView(root) == DirEntry(files);
    forall name | name in files
      ensures !Fails(name, files[name])
    {
      BranchFlat(root, leaves, name);
    }
    forall e
      ensures e in FlatRoot(files) <==> Described(leaves, e)
    {
      RootFlatAt(root, leaves, e);
    }
  }

  lemma DescribedIsNormal(leaves: Leaves, q: seq<string>)
    requires Restorable(leaves) && q != [] && !Expect(leaves, q).Missing?
    ensures ValidParts(q) && Steady(q)
    ensures NormalizeEntry(EntryOf(q, Expect(leaves, q))) == Some(EntryOf(q, Expect(leaves, q)))
    ensures NormalizeInnerPath(Join(q, '/')) == Join(q, '/')
  {
    if q !in leaves {
      var k :| k in leaves && StrictPrefix(q, k);
      assert forall i :: 0 <= i < |q| ==> q[i] == k[i];
    }
    NormalizeJoin(q);
    JoinEnds(q);
    SplitJoin(q, '/');
    assert PlainName(q[0]) && !EndsInSpace(q[|q| - 1]);
    CanonicalName(Join(q, '/'));
  }

  lemma DescribedPath(leaves: Leaves, e: Entry) returns (q: seq<string>)
    requires Restorable(leaves) && Described(leaves, e)
    ensures q != [] && !Expect(leaves, q).Missing? && e == EntryOf(q, Expect(leaves, q))
    ensures e.path == Join(q, '/') && Split(e.path, '/') == q && NormalizeEntry(e) == Some(e)
  {
    q :| q != [] && !Expect(leaves, q).Missing? && e == EntryOf(q, Expect(leaves, q));
    DescribedIsNormal(leaves, q);
    SplitJoin(q, '/');
  }

  lemma SourceOf(entries: map<string, Entry>, flat: set<Entry>, k: string) returns (e: Entry)
    requires IsIndex(entries, flat) && k in entries
    ensures e in flat && NormalizeEntry(e) == Some(entries[k]) && entries[k].path == k
  {
    e :| e in flat && NormalizeEntry(e) == Some(entries[k]) && entries[k].path == k;
  }

  lemma IndexedKey(entries: map<string, Entry>, flat: set<Entry>, leaves: Leaves, k: string) returns (q: seq<string>)
    requires Restorable(leaves) && IsIndex(entries, flat) && k in entries
    requires forall e :: e in flat ==> Described(leaves, e)
    ensures q != [] && !Expect(leaves, q).Missing? && k == Join(q, '/') && Split(k, '/') == q
    ensures entries[k] == EntryOf(q, Expect(leaves, q))
  {
    var e := SourceOf(entries, flat, k);
    q := DescribedPath(leaves, e);
  }

  lemma IndexedPath(entries: map<string, Entry>, flat: set<Entry>, leaves: Leaves, q: seq<string>)
    requires Restorable(leaves) && IsIndex(entries, flat)
    requires forall e :: e in flat <==> Described(leaves, e)
    requires q != [] && !Expect(leaves, q).Missing?
    ensures Join(q, '/') in entries && entries[Join(q, '/')] == EntryOf(q, Expect(leaves, q))
  {
    DescribedIsNormal(leaves, q);
    var e := EntryOf(q, Expect(leaves, q));
    assert Described(leaves, e);
    assert e in flat && Keyed(entries, e) && e.path == Join(q, '/');
    var p := IndexedKey(entries, flat, leaves, e.path);
    SplitJoin(q, '/');
  }

  // ----- what Open should find -----

  ghost predicate IsAncestor(dir: string, names: set<string>)
  {
    exists n :: n in names && dir + "/" <= n
  }

  predicate Covers(e: Entry, pos: int)
  {
    e.offset <= pos < e.offset + e.size
  }

  ghost predicate Covered(entries: map<string, Entry>, packed: Files, pos: int)
  {
    exists k :: k in packed && k in entries && Covers(entries[k], pos)
  }

  /** The packed extents lie inside the content and cover each position once. */
  ghost predicate Tiles(entries: map<string, Entry>, packed: Files, total: int)
    requires forall k :: k in packed ==> k in entries
  {
    && (forall k :: k in packed ==> 0 <= entries[k].offset && entries[k].offset + entries[k].size <= total)
    && (forall pos :: 0 <= pos < total ==> Covered(entries, packed, pos))
    && (forall pos, j, k :: j in packed && k in packed && Covers(entries[j], pos) && Covers(entries[k], pos) ==> j == k)
  }

  ghost predicate SizesOk(a: Archive)
  {
    a.contentBase >= 0 && forall k :: k in a.entries ==> a.entries[k].size >= 0
  }

  /** Every written file is listed with its size and reads back byte for byte. */
  ghost predicate FilesRestored(a: Archive, file: seq<Byte>, disk: Files, packed: Files, unpacked: Files)
    requires SizesOk(a)
  {
    && (forall k :: k in packed ==>
          (k in a.entries
           && a.entries[k] == Entry(k, a.entries[k].offset, |packed[k]|, 0, false, false)
           && ReadFile(a, file, disk, k) == Ok(packed[k])))
    && (forall k :: k in unpacked ==>
          (k in a.entries
           && a.entries[k] == Entry(k, 0, |unpacked[k]|, 0, false, true)
           && ReadFile(a, file, disk, k) == Ok(unpacked[k])))
  }

  /** The other entries are the folders of the files. */
  ghost predicate FoldersRestored(entries: map<string, Entry>, names: set<string>)
  {
    && (forall k :: k in entries ==> k in names || IsAncestor(k, names))
    && (forall k :: IsAncestor(k, names) ==> k in entries && entries[k] == Entry(k, 0, 0, 0, true, false))
  }

  /** The archive holds exactly the written files and their folders, every file
      reads back byte for byte, and the packed ones tile the content. */
  ghost predicate Restored(a: Archive, file: seq<Byte>, disk: Files, packed: Files, unpacked: Files)
  {
    && SizesOk(a) && FilesRestored(a, file, disk, packed, unpacked)
    && FoldersRestored(a.entries, packed.Keys + unpacked.Keys)
    && Tiles(a.entries, packed, |file| - a.contentBase)
  }

  /** A tree Write may hand to the JSON layer for these files. */
  ghost predicate WrittenTree(packed: Files, unpacked: Files, tree: WriteNode)
  {
    exists names, others ::
      && Lists(names, packed.Keys) && Lists(others, unpacked.Keys)
      && Packed(names, packed).Ok?
      && WithUnpacked(others, unpacked, Packed(names, packed).value.root) == Ok(tree)
  }

  /** The JSON layer carries this tree, and its frame fits 32 bits. */
  ghost predicate Carries(codec: Codec, tree: WriteNode)
  {
    && codec.decode(codec.encode(tree)) == Some(JsonView(tree))
    && 4 + Align4(4 + |codec.encode(tree)|) < WORD
  }

  /** At least one file, none empty, and no component ending in white space. */
  ghost predicate Sound(packed: Files, unpacked: Files)
  {
    && packed.Keys + unpacked.Keys != {}
    && (forall k :: k in packed ==> packed[k] != [] && Steady(Split(k, '/')))
    && (forall k :: k in unpacked ==> unpacked[k] != [] && Steady(Split(k, '/')))
  }

  // ----- the pieces of the theorem -----

  lemma HeaderReadsBack(tree: WriteNode, content: seq<Byte>, codec: Codec)
    requires Carries(codec, tree)
    ensures
      var file := Assemble(tree, content, codec);
      var base := 8 + |WritePickleString(codec.encode(tree))|;
      ReadHeader(file, codec) == Ok((base, JsonView(tree))) && |file| == base + |content| && file[base..] == content
  {
    var header := WritePickleString(codec.encode(tree));
    var file := Assemble(tree, content, codec);
    SizeRoundTrip(|header|);
    StringRoundTrip(codec.encode(tree));
    assert |header| == 4 + Align4(4 + |codec.encode(tree)|);
    assert file[..8] == WritePickleUint32(|header|);
    assert file[8..8 + |header|] == header;
  }

  lemma ListedNamesApart(names: seq<string>, others: seq<string>, packed: Files, unpacked: Files)
    requires WellNamed(packed, unpacked) && Lists(names, packed.Keys) && Lists(others, unpacked.Keys)
    ensures NamesApart(names + others)
  {
    var all := names + others;
    forall i | 0 <= i < |all|
      ensures Canonical(all[i])
    {
      assert i < |names| ==> names[i] in names;
      assert i >= |names| ==> others[i - |names|] in others;
    }
    forall i, j | 0 <= i < |all| && 0 <= j < |all| && i != j
      ensures !(Split(all[i], '/') <= Split(all[j], '/'))
    {
      assert i < |names| ==> names[i] in names;
      assert j < |names| ==> names[j] in names;
      assert i >= |names| ==> others[i - |names|] in others;
      assert j >= |names| ==> others[j - |names|] in others;
      DistinctListed(names, others, packed, unpacked, i, j);
      var n, m := all[i], all[j];
      assert n in packed.Keys + unpacked.Keys && m in packed.Keys + unpacked.Keys;
      assert !(n + "/" <= m);
      AncestorParts(n, m);
      if Split(all[i], '/') == Split(all[j], '/') {
        SplitInjective(all[i], all[j]);
      }
    }
  }

  lemma DistinctListed(names: seq<string>, others: seq<string>, packed: Files, unpacked: Files, i: nat, j: nat)
    requires packed.Keys !! unpacked.Keys && Lists(names, packed.Keys) && Lists(others, unpacked.Keys)
    requires i < |names + others| && j < |names + others| && i != j
    ensures (names + others)[i] != (names + others)[j]
  {
    var a, b := (names + others)[i], (names + others)[j];
    BeforeTotal(a, b);
    assert i < |names| ==> a in names;
    assert j < |names| ==> b in names;
    assert i >= |names| ==> others[i - |names|] in others;
    assert j >= |names| ==> others[j - |names|] in others;
  }

  /** Canonical names are their own places beside the archive. */
  lemma {:induction false} BesideAt(names: seq<string>, data: Files, k: string)
    requires forall i :: 0 <= i < |names| ==> names[i] in data
    requires forall i :: 0 <= i < |names| ==> Canonical(names[i])
    ensures k in Beside(names, data) <==> k in names
    ensures k in Beside(names, data) ==> Beside(names, data)[k] == data[k]
  {
    if names != [] {
      var front, last := names[..|names| - 1], names[|names| - 1];
      BesideAt(front, data, k);
      BesideLast(names, data);
      MemberSnoc(front, last, names, k);
    }
  }

  lemma BesideLast(names: seq<string>, data: Files)
    requires names != [] && (forall i :: 0 <= i < |names| ==> names[i] in data) && Canonical(names[|names| - 1])
    ensures
      var last := names[|names| - 1];
      Beside(names, data) == Beside(names[..|names| - 1], data)[last := data[last]]
  {
    CanonicalName(names[|names| - 1]);
  }

  lemma BesideIsIdentity(names: seq<string>, data: Files)
    requires forall i :: 0 <= i < |names| ==> names[i] in data && Canonical(names[i])
    ensures forall k :: k in Beside(names, data) <==> k in names
    ensures forall k :: k in Beside(names, data) ==> Beside(names, data)[k] == data[k]
  {
    forall k ensures k in Beside(names, data) <==> k in names
      ensures k in Beside(names, data) ==> Beside(names, data)[k] == data[k]
    {
      BesideAt(names, data, k);
    }
  }

  lemma MemberSnoc(front: seq<string>, last: string, names: seq<string>, k: string)
    requires names == front + [last]
    ensures k in names <==> k in front || k == last
  {
  }

  // ----- when the condition holds -----

  ghost predicate PackedLeavesOk(names: seq<string>, packed: Files, leaves: Leaves)
    requires forall i :: 0 <= i < |names| ==> names[i] in packed
  {
    forall i :: 0 <= i < |names| ==>
      (Split(names[i], '/') in leaves && leaves[Split(names[i], '/')] == Leaf(Itoa(Start(names, packed, i)), |packed[names[i]]|, false))
  }

  ghost predicate UnpackedLeavesOk(others: seq<string>, unpacked: Files, leaves: Leaves)
    requires forall i :: 0 <= i < |others| ==> others[i] in unpacked
  {
    forall i :: 0 <= i < |others| ==>
      (Split(others[i], '/') in leaves && leaves[Split(others[i], '/')] == Leaf("", |unpacked[others[i]]|, true))
  }

  /** Everything Write leaves behind for well-named files. */
  ghost predicate Left(names: seq<string>, others: seq<string>, packed: Files, unpacked: Files, tree: WriteNode, leaves: Leaves)
  {
    && Lists(names, packed.Keys) && Lists(others, unpacked.Keys) && NamesApart(names + others)
    && (forall i :: 0 <= i < |names| ==> names[i] in packed)
    && (forall i :: 0 <= i < |others| ==> others[i] in unpacked)
    && Holds(tree, leaves) && KeysFrom(leaves, names + others)
    && PackedLeavesOk(names, packed, leaves) && UnpackedLeavesOk(others, unpacked, leaves)
  }

  lemma WriteLeaves(names: seq<string>, others: seq<string>, packed: Files, unpacked: Files)
    returns (tree: WriteNode, leaves: Leaves)
    requires WellNamed(packed, unpacked) && Lists(names, packed.Keys) && Lists(others, unpacked.Keys)
    requires forall i :: 0 <= i < |names| ==> names[i] in packed
    requires forall i :: 0 <= i < |others| ==> others[i] in unpacked
    ensures Packed(names, packed).Ok? && Packed(names, packed).value.content == Concat(names, packed)
    ensures WithUnpacked(others, unpacked, Packed(names, packed).value.root) == Ok(tree)
    ensures Left(names, others, packed, unpacked, tree, leaves)
  {
    var all := names + others;
    ListedNamesApart(names, others, packed, unpacked);
    assert NamesApart(names) by { assert forall i :: 0 <= i < |names| ==> names[i] == all[i]; }
    PackedHolds(names, packed);
    var first := PackedLeaves(names, packed);
    UnpackedHolds(names, others, unpacked, Packed(names, packed).value.root, first);
    tree := WithUnpacked(others, unpacked, Packed(names, packed).value.root).value;
    leaves := UnpackedLeaves(others, unpacked, first);
    PackedLeavesAreThere(names, others, packed, unpacked);
    UnpackedLeavesAreThere(names, others, unpacked, first);
  }

  lemma PackedLeavesAreThere(names: seq<string>, others: seq<string>, packed: Files, unpacked: Files)
    requires NamesApart(names + others) && NamesApart(names)
    requires forall i :: 0 <= i < |names| ==> names[i] in packed
    requires forall i :: 0 <= i < |others| ==> others[i] in unpacked
    ensures PackedLeavesOk(names, packed, UnpackedLeaves(others, unpacked, PackedLeaves(names, packed)))
  {
    var all, first := names + others, PackedLeaves(names, packed);
    var leaves := UnpackedLeaves(others, unpacked, first);
    forall i | 0 <= i < |names|
      ensures Split(names[i], '/') in leaves
      ensures leaves[Split(names[i], '/')] == Leaf(Itoa(Start(names, packed, i)), |packed[names[i]]|, false)
    {
      PackedLeafAt(names, packed, i);
      UnpackedLeafAt(names, others, unpacked, first, i);
      assert all[i] == names[i];
    }
  }

  lemma UnpackedLeafIsThere(names: seq<string>, others: seq<string>, unpacked: Files, first: Leaves, i: nat)
    requires NamesApart(names + others) && i < |others|
    requires forall i :: 0 <= i < |others| ==> others[i] in unpacked
    ensures
      var leaves, p := UnpackedLeaves(others, unpacked, first), Split(others[i], '/');
      p in leaves && leaves[p] == Leaf("", |unpacked[others[i]]|, true)
  {
    UnpackedLeafAt(names, others, unpacked, first, |names| + i);
    assert (names + others)[|names| + i] == others[i];
  }

  lemma UnpackedLeavesAreThere(names: seq<string>, others: seq<string>, unpacked: Files, first: Leaves)
    requires NamesApart(names + others)
    requires forall i :: 0 <= i < |others| ==> others[i] in unpacked
    ensures UnpackedLeavesOk(others, unpacked, UnpackedLeaves(others, unpacked, first))
  {
    forall i | 0 <= i < |others|
      ensures
        var leaves, p := UnpackedLeaves(others, unpacked, first), Split(others[i], '/');
        p in leaves && leaves[p] == Leaf("", |unpacked[others[i]]|, true)
    {
      UnpackedLeafIsThere(names, others, unpacked, first, i);
    }
  }

  lemma AmongNames(names: seq<string>, others: seq<string>, packed: Files, unpacked: Files, k: string) returns (i: nat)
    requires Lists(names, packed.Keys) && Lists(others, unpacked.Keys) && k in packed.Keys + unpacked.Keys
    ensures i < |names + others| && (names + others)[i] == k
    ensures k in packed ==> i < |names|
  {
    if k in packed {
      i :| 0 <= i < |names| && names[i] == k;
    } else {
      assert k in others;
      var j :| 0 <= j < |others| && others[j] == k;
      i := |names| + j;
    }
  }

  lemma SoundLeaf(names: seq<string>, others: seq<string>, packed: Files, unpacked: Files, tree: WriteNode, leaves: Leaves, i: nat)
    requires Left(names, others, packed, unpacked, tree, leaves) && Sound(packed, unpacked)
    requires |Concat(names, packed)| <= MAX_INT64 && i < |names + others|
    ensures
      var k := Split((names + others)[i], '/');
      && k in leaves && ValidParts(k) && Steady(k) && leaves[k].size > 0
      && (leaves[k].unpacked || (ParseInt(leaves[k].offset).Some? && ParseInt(leaves[k].offset).value >= 0))
  {
    assert Canonical((names + others)[i]);
    if i < |names| {
      ContentAt(names, packed, i);
      ParseIntItoa(Start(names, packed, i));
    } else {
      assert (names + others)[i] == others[i - |names|];
    }
  }

  lemma SoundIsRestorable(names: seq<string>, others: seq<string>, packed: Files, unpacked: Files, tree: WriteNode, leaves: Leaves)
    requires Left(names, others, packed, unpacked, tree, leaves) && Sound(packed, unpacked)
    requires |Concat(names, packed)| <= MAX_INT64
    ensures Restorable(leaves)
  {
    forall k | k in leaves
      ensures ValidParts(k) && Steady(k) && leaves[k].size > 0
      ensures leaves[k].unpacked || (ParseInt(leaves[k].offset).Some? && ParseInt(leaves[k].offset).value >= 0)
    {
      var i :| 0 <= i < |names + others| && Split((names + others)[i], '/') == k;
      SoundLeaf(names, others, packed, unpacked, tree, leaves, i);
    }
  }

  lemma SomeFileInRoot(names: seq<string>, others: seq<string>, packed: Files, unpacked: Files, tree: WriteNode, leaves: Leaves)
    requires Left(names, others, packed, unpacked, tree, leaves) && packed.Keys + unpacked.Keys != {}
    ensures tree.Dir? && tree.files != map[]
  {
    var k :| k in packed.Keys + unpacked.Keys;
    var i := AmongNames(names, others, packed, unpacked, k);
    assert Canonical(k);
    var q := Split(k, '/');
    assert q in leaves && q != [];
    assert Look(tree, q) == Expect(leaves, q);
  }

  lemma KeysOfNames(names: seq<string>, others: seq<string>, packed: Files, unpacked: Files, tree: WriteNode, leaves: Leaves,
                    entries: map<string, Entry>, flat: set<Entry>, k: string)
    requires Left(names, others, packed, unpacked, tree, leaves) && Restorable(leaves)
    requires IsIndex(entries, flat) && forall e :: e in flat <==> Described(leaves, e)
    requires k in packed.Keys + unpacked.Keys
    ensures Split(k, '/') in leaves && k in entries && entries[k] == EntryOf(Split(k, '/'), leaves[Split(k, '/')])
  {
    JoinSplit(k, '/');
    var i := AmongNames(names, others, packed, unpacked, k);
    var q := Split(k, '/');
    assert q in leaves;
    IndexedPath(entries, flat, leaves, q);
  }

  lemma FolderKind(names: seq<string>, leaves: Leaves, k: string, i: nat)
    requires NamesApart(names) && KeysFrom(leaves, names) && i < |names| && k + "/" <= names[i]
    ensures Expect(leaves, Split(k, '/')) == Folder
  {
    var q, r := Split(k, '/'), Split(names[i], '/');
    AncestorParts(k, names[i]);
    assert r in leaves && StrictPrefix(q, r);
    forall j | 0 <= j < |names|
      ensures Split(names[j], '/') != q
    {
      assert j != i ==> !(Split(names[j], '/') <= r);
    }
  }

  lemma KeysOfFolders(names: seq<string>, others: seq<string>, packed: Files, unpacked: Files, tree: WriteNode, leaves: Leaves,
                      entries: map<string, Entry>, flat: set<Entry>, k: string)
    requires Left(names, others, packed, unpacked, tree, leaves) && Restorable(leaves)
    requires IsIndex(entries, flat) && forall e :: e in flat <==> Described(leaves, e)
    requires IsAncestor(k, packed.Keys + unpacked.Keys)
    ensures k in entries && entries[k] == Entry(k, 0, 0, 0, true, false)
  {
    var n :| n in packed.Keys + unpacked.Keys && k + "/" <= n;
    var i := AmongNames(names, others, packed, unpacked, n);
    FolderKind(names + others, leaves, k, i);
    JoinSplit(k, '/');
    IndexedPath(entries, flat, leaves, Split(k, '/'));
  }

  lemma LeafIsAName(names: seq<string>, others: seq<string>, packed: Files, unpacked: Files, k: string, i: nat)
    requires Lists(names, packed.Keys) && Lists(others, unpacked.Keys)
    requires i < |names + others| && Split((names + others)[i], '/') == Split(k, '/')
    ensures k in packed || k in unpacked
  {
    SplitInjective((names + others)[i], k);
    assert i < |names| ==> names[i] == k;
    assert i >= |names| ==> others[i - |names|] == k;
  }

  lemma FolderIsAbove(names: seq<string>, others: seq<string>, packed: Files, unpacked: Files, k: string, i: nat)
    requires Lists(names, packed.Keys) && Lists(others, unpacked.Keys)
    requires i < |names + others| && StrictPrefix(Split(k, '/'), Split((names + others)[i], '/'))
    ensures IsAncestor(k, packed.Keys + unpacked.Keys)
  {
    AncestorParts(k, (names + others)[i]);
    assert i < |names| ==> names[i] in packed;
    assert i >= |names| ==> others[i - |names|] in unpacked;
  }

  lemma NoOtherKeys(names: seq<string>, others: seq<string>, packed: Files, unpacked: Files, leaves: Leaves,
                    entries: map<string, Entry>, flat: set<Entry>, k: string)
    requires Lists(names, packed.Keys) && Lists(others, unpacked.Keys) && KeysFrom(leaves, names + others)
    requires Restorable(leaves) && IsIndex(entries, flat) && forall e :: e in flat <==> Described(leaves, e)
    requires k in entries
    ensures k in packed || k in unpacked || IsAncestor(k, packed.Keys + unpacked.Keys)
  {
    var p := IndexedKey(entries, flat, leaves, k);
    if p in leaves {
      var i := NameOfLeaf(names + others, leaves, p);
      LeafIsAName(names, others, packed, unpacked, k, i);
    } else {
      var r :| r in leaves && StrictPrefix(p, r);
      var i := NameOfLeaf(names + others, leaves, r);
      FolderIsAbove(names, others, packed, unpacked, k, i);
    }
  }

  lemma NameOfLeaf(names: seq<string>, leaves: Leaves, p: seq<string>) returns (i: nat)
    requires KeysFrom(leaves, names) && p in leaves
    ensures i < |names| && Split(names[i], '/') == p
  {
    i :| 0 <= i < |names| && Split(names[i], '/') == p;
  }

  lemma PackedReadsBack(a: Archive, file: seq<Byte>, disk: Files, names: seq<string>, packed: Files, i: nat)
    requires forall i :: 0 <= i < |names| ==> names[i] in packed
    requires i < |names| && Canonical(names[i]) && names[i] in a.entries
    requires forall k :: k in a.entries ==> a.entries[k].size >= 0 && a.contentBase >= 0
    requires a.entries[names[i]] == Entry(names[i], Start(names, packed, i), |packed[names[i]]|, 0, false, false)
    requires a.contentBase <= |file| <= MAX_INT64 && file[a.contentBase..] == Concat(names, packed)
    ensures ReadFile(a, file, disk, names[i]) == Ok(packed[names[i]])
  {
    CanonicalName(names[i]);
    ContentAt(names, packed, i);
    var data := packed[names[i]];
    SliceReadsBack(file, a.contentBase, Concat(names, packed), Start(names, packed, i), data);
    ReadAtIs(file, a.contentBase + Start(names, packed, i), data);
  }

  lemma ReadAtIs(file: seq<Byte>, start: nat, data: seq<Byte>)
    requires forall j :: 0 <= j < |data| ==> start + j < |file| && file[start + j] == data[j]
    ensures ReadAt(file, start, |data|) == data
  {
    var read := ReadAt(file, start, |data|);
    assert |read| == |data|;
    forall j | 0 <= j < |data| ensures read[j] == data[j] { assert file[start + j] == data[j]; }
  }

  /** Reading byte by byte from the content base on. */
  lemma SliceReadsBack(file: seq<Byte>, base: nat, content: seq<Byte>, start: nat, data: seq<Byte>)
    requires base <= |file| && file[base..] == content
    requires start + |data| <= |content| && content[start..start + |data|] == data
    ensures forall j :: 0 <= j < |data| ==> base + start + j < |file| && file[base + start + j] == data[j]
  {
  }

  lemma ExtentsTile(entries: map<string, Entry>, names: seq<string>, packed: Files)
    requires Lists(names, packed.Keys) && forall i :: 0 <= i < |names| ==> names[i] in packed && names[i] in entries
    requires forall k :: k in packed ==> k in entries
    requires forall i :: 0 <= i < |names| ==> entries[names[i]].offset == Start(names, packed, i) && entries[names[i]].size == |packed[names[i]]|
    ensures Tiles(entries, packed, |Concat(names, packed)|)
  {
    forall k | k in packed
      ensures 0 <= entries[k].offset && entries[k].offset + entries[k].size <= |Concat(names, packed)|
    {
      assert k in names;
      var i :| 0 <= i < |names| && names[i] == k;
      ContentAt(names, packed, i);
    }
    forall pos | 0 <= pos < |Concat(names, packed)|
      ensures Covered(entries, packed, pos)
    {
      var i := SomeExtent(names, packed, pos);
      assert Covers(entries[names[i]], pos);
    }
    forall pos, j, k | j in packed && k in packed && Covers(entries[j], pos) && Covers(entries[k], pos)
      ensures j == k
    {
      assert j in names && k in names;
      var m :| 0 <= m < |names| && names[m] == j;
      var n :| 0 <= n < |names| && names[n] == k;
      if m < n { StartsInOrder(names, packed, m, n); }
      if n < m { StartsInOrder(names, packed, n, m); }
    }
  }

  ghost predicate FilesIndexed(entries: map<string, Entry>, names: seq<string>, others: seq<string>, packed: Files, unpacked: Files)
    requires forall i :: 0 <= i < |names| ==> names[i] in packed
    requires forall i :: 0 <= i < |others| ==> others[i] in unpacked
  {
    && (forall i :: 0 <= i < |names| ==>
          (names[i] in entries
           && entries[names[i]] == Entry(names[i], Start(names, packed, i), |packed[names[i]]|, 0, false, false)))
    && (forall i :: 0 <= i < |others| ==>
          (others[i] in entries && entries[others[i]] == Entry(others[i], 0, |unpacked[others[i]]|, 0, false, true)))
  }

  lemma EntryOfPacked(names: seq<string>, others: seq<string>, packed: Files, unpacked: Files, tree: WriteNode, leaves: Leaves,
                      entries: map<string, Entry>, flat: set<Entry>, i: nat)
    requires Left(names, others, packed, unpacked, tree, leaves) && Restorable(leaves) && |Concat(names, packed)| <= MAX_INT64
    requires IsIndex(entries, flat) && forall e :: e in flat <==> Described(leaves, e)
    requires i < |names|
    ensures names[i] in entries && entries[names[i]] == Entry(names[i], Start(names, packed, i), |packed[names[i]]|, 0, false, false)
  {
    KeysOfNames(names, others, packed, unpacked, tree, leaves, entries, flat, names[i]);
    ContentAt(names, packed, i);
    ParseIntItoa(Start(names, packed, i));
    JoinSplit(names[i], '/');
  }

  lemma EntriesOfFiles(names: seq<string>, others: seq<string>, packed: Files, unpacked: Files, tree: WriteNode, leaves: Leaves,
                       entries: map<string, Entry>, flat: set<Entry>)
    requires Left(names, others, packed, unpacked, tree, leaves) && Restorable(leaves) && |Concat(names, packed)| <= MAX_INT64
    requires IsIndex(entries, flat) && forall e :: e in flat <==> Described(leaves, e)
    ensures FilesIndexed(entries, names, others, packed, unpacked)
  {
    forall i | 0 <= i < |names|
      ensures names[i] in entries
      ensures entries[names[i]] == Entry(names[i], Start(names, packed, i), |packed[names[i]]|, 0, false, false)
    {
      EntryOfPacked(names, others, packed, unpacked, tree, leaves, entries, flat, i);
    }
    forall i | 0 <= i < |others|
      ensures others[i] in entries
      ensures entries[others[i]] == Entry(others[i], 0, |unpacked[others[i]]|, 0, false, true)
    {
      KeysOfNames(names, others, packed, unpacked, tree, leaves, entries, flat, others[i]);
      JoinSplit(others[i], '/');
    }
  }

  lemma EntriesOfFolders(names: seq<string>, others: seq<string>, packed: Files, unpacked: Files, tree: WriteNode, leaves: Leaves,
                         entries: map<string, Entry>, flat: set<Entry>)
    requires Left(names, others, packed, unpacked, tree, leaves) && Restorable(leaves)
    requires IsIndex(entries, flat) && forall e :: e in flat <==> Described(leaves, e)
    ensures FoldersRestored(entries, packed.Keys + unpacked.Keys)
  {
    var keys := packed.Keys + unpacked.Keys;
    forall k | k in entries
      ensures k in keys || IsAncestor(k, keys)
    {
      NoOtherKeys(names, others, packed, unpacked, leaves, entries, flat, k);
    }
    forall k | IsAncestor(k, keys)
      ensures k in entries && entries[k] == Entry(k, 0, 0, 0, true, false)
    {
      KeysOfFolders(names, others, packed, unpacked, tree, leaves, entries, flat, k);
    }
  }

  lemma IndexedSizes(entries: map<string, Entry>, names: seq<string>, others: seq<string>, packed: Files, unpacked: Files, k: string)
    requires Lists(names, packed.Keys) && Lists(others, unpacked.Keys)
    requires forall i :: 0 <= i < |names| ==> names[i] in packed
    requires forall i :: 0 <= i < |others| ==> others[i] in unpacked
    requires FilesIndexed(entries, names, others, packed, unpacked)
    requires FoldersRestored(entries, packed.Keys + unpacked.Keys) && k in entries
    ensures entries[k].size >= 0
  {
  }

  lemma RestoredFiles(names: seq<string>, others: seq<string>, packed: Files, unpacked: Files,
                      file: seq<Byte>, disk: Files, a: Archive)
    requires Lists(names, packed.Keys) && Lists(others, unpacked.Keys) && WellNamed(packed, unpacked)
    requires forall i :: 0 <= i < |names| ==> names[i] in packed
    requires forall i :: 0 <= i < |others| ==> others[i] in unpacked
    requires FilesIndexed(a.entries, names, others, packed, unpacked) && SizesOk(a)
    requires disk == Beside(others, unpacked)
    requires 0 <= a.contentBase <= |file| <= MAX_INT64 && file[a.contentBase..] == Concat(names, packed)
    ensures FilesRestored(a, file, disk, packed, unpacked)
  {
    forall k | k in packed
      ensures k in a.entries && a.entries[k] == Entry(k, a.entries[k].offset, |packed[k]|, 0, false, false)
      ensures ReadFile(a, file, disk, k) == Ok(packed[k])
    {
      assert k in names && Canonical(k);
      var i :| 0 <= i < |names| && names[i] == k;
      PackedReadsBack(a, file, disk, names, packed, i);
    }
    assert forall i :: 0 <= i < |others| ==> others[i] in others;
    BesideIsIdentity(others, unpacked);
    forall k | k in unpacked
      ensures k in a.entries && a.entries[k] == Entry(k, 0, |unpacked[k]|, 0, false, true)
      ensures ReadFile(a, file, disk, k) == Ok(unpacked[k])
    {
      assert k in others && Canonical(k);
      var i :| 0 <= i < |others| && others[i] == k;
      CanonicalName(k);
    }
  }

  lemma SoundIsOpenable(names: seq<string>, others: seq<string>, packed: Files, unpacked: Files, tree: WriteNode, leaves: Leaves,
                        codec: Codec)
    requires Left(names, others, packed, unpacked, tree, leaves) && Sound(packed, unpacked) && Carries(codec, tree)
    requires |Concat(names, packed)| <= MAX_INT64
    ensures Restorable(leaves) && JsonView(tree).DirEntry?
    ensures forall e :: e in FlatRoot(JsonView(tree).files) <==> Described(leaves, e)
    ensures Openable(Assemble(tree, Concat(names, packed), codec), codec)
  {
    HeaderReadsBack(tree, Concat(names, packed), codec);
    SoundIsRestorable(names, others, packed, unpacked, tree, leaves);
    SomeFileInRoot(names, others, packed, unpacked, tree, leaves);
    RootFlat(tree, leaves);
    forall e | e in FlatRoot(JsonView(tree).files)
      ensures NormalizeEntry(e).Some?
    {
      var q := DescribedPath(leaves, e);
    }
  }

  lemma SoundIsRestored(names: seq<string>, others: seq<string>, packed: Files, unpacked: Files, tree: WriteNode, leaves: Leaves,
                        codec: Codec, disk: Files, a: Archive)
    requires Left(names, others, packed, unpacked, tree, leaves) && Sound(packed, unpacked) && Carries(codec, tree)
    requires WellNamed(packed, unpacked) && disk == Beside(others, unpacked)
    requires |Assemble(tree, Concat(names, packed), codec)| <= MAX_INT64
    requires Openable(Assemble(tree, Concat(names, packed), codec), codec)
    requires IsArchiveOf(a, Assemble(tree, Concat(names, packed), codec), codec)
    ensures Restored(a, Assemble(tree, Concat(names, packed), codec), disk, packed, unpacked)
  {
    HeaderReadsBack(tree, Concat(names, packed), codec);
    SoundIsOpenable(names, others, packed, unpacked, tree, leaves, codec);
    var flat := FlatRoot(JsonView(tree).files);
    EntriesOfFiles(names, others, packed, unpacked, tree, leaves, a.entries, flat);
    EntriesOfFolders(names, others, packed, unpacked, tree, leaves, a.entries, flat);
    forall k | k in a.entries
      ensures a.entries[k].size >= 0
    {
      IndexedSizes(a.entries, names, others, packed, unpacked, k);
    }
    RestoredFiles(names, others, packed, unpacked, Assemble(tree, Concat(names, packed), codec), disk, a);
    forall k | k in packed
      ensures k in a.entries
    {
      assert k in names;
    }
    ExtentsTile(a.entries, names, packed);
  }

  // ----- when the condition fails -----

  lemma NoFileNoHeader(tree: WriteNode, leaves: Leaves)
    requires Holds(tree, leaves) && leaves == map[]
    ensures JsonView(tree).FileEntry?
  {
    assert Look(tree, []) == Expect(leaves, []);
    forall name
      ensures name !in tree.files
    {
      LookChild(tree, name);
      assert Look(tree, [name]) == Expect(leaves, [name]);
    }
  }

  lemma LookChild(node: WriteNode, name: string)
    requires node.Dir?
    ensures Look(node, [name]) == if name in node.files then KindOf(node.files[name]) else Missing
  {
  }

  lemma EmptyFileFailsRoot(tree: WriteNode, leaves: Leaves, q: seq<string>)
    requires Holds(tree, leaves) && q in leaves && q != [] && leaves[q].size == 0
    ensures JsonView(tree).DirEntry? ==> RootFails(JsonView(tree).files)
  {
    assert Look(tree, q) == Expect(leaves, q);
    EmptyFileFails(q[0], tree.files[q[0]], q[1..]);
    var files := map name | name in tree.files :: JsonView(tree.files[name]);
    assert JsonView(tree) == DirEntry(files) && q[0] in files;
  }

  lemma SteadyKeys(tree: WriteNode, entries: map<string, Entry>, k: string)
    requires Slashless(tree) && JsonView(tree).DirEntry? && IsIndex(entries, FlatRoot(JsonView(tree).files)) && k in entries
    ensures Steady(Split(k, '/'))
  {
    var files := map name | name in tree.files :: JsonView(tree.files[name]);
    assert JsonView(tree) == DirEntry(files);
    var e := SourceOf(entries, FlatRoot(files), k);
    var name :| name in files && e in Flat(name, files[name]);
    SlashlessChild(tree, name);
    EntryPathSteady("", name);
    FlatIsSteady(name, tree.files[name], e);
    NormalizeSteady(e.path);
  }

  lemma LeavesAreSlashless(names: seq<string>, tree: WriteNode, leaves: Leaves)
    requires Holds(tree, leaves) && KeysFrom(leaves, names) && NamesApart(names)
    ensures Slashless(tree)
  {
  }

  /** Every openable file has an archive. */
  lemma SomeArchive(file: seq<Byte>, codec: Codec) returns (a: Archive)
    requires Openable(file, codec)
    ensures IsArchiveOf(a, file, codec)
  {
    var (base, root) := ReadHeader(file, codec).value;
    var entries := SomeIndex(FlatRoot(root.files));
    a := Archive(base, entries);
  }

  lemma {:induction false} SomeIndex(flat: set<Entry>) returns (entries: map<string, Entry>)
    requires forall e :: e in flat ==> NormalizeEntry(e).Some?
    ensures IsIndex(entries, flat)
    decreases flat
  {
    if flat == {} {
      entries := map[];
    } else {
      var e :| e in flat;
      var rest := SomeIndex(flat - {e});
      IndexOneMore(rest, flat - {e}, e);
      assert flat - {e} + {e} == flat;
      entries := rest[NormalizeEntry(e).value.path := NormalizeEntry(e).value];
    }
  }

  lemma NothingWrittenFails(names: seq<string>, others: seq<string>, packed: Files, unpacked: Files, tree: WriteNode, leaves: Leaves)
    requires Left(names, others, packed, unpacked, tree, leaves) && packed.Keys + unpacked.Keys == {}
    ensures JsonView(tree).FileEntry?
  {
    EmptyListing(names, packed.Keys);
    EmptyListing(others, unpacked.Keys);
    assert leaves == map[];
    NoFileNoHeader(tree, leaves);
  }

  lemma EmptyFileIsRefused(names: seq<string>, others: seq<string>, packed: Files, unpacked: Files, tree: WriteNode, leaves: Leaves, k: string)
    requires Left(names, others, packed, unpacked, tree, leaves)
    requires (k in packed && packed[k] == []) || (k in unpacked && unpacked[k] == [])
    ensures JsonView(tree).DirEntry? ==> RootFails(JsonView(tree).files)
  {
    if k in packed && packed[k] == [] {
      assert k in names;
    } else {
      assert k in others;
    }
    EmptyFileFailsRoot(tree, leaves, Split(k, '/'));
  }

  lemma UnsteadyIsMissing(names: seq<string>, tree: WriteNode, leaves: Leaves, entries: map<string, Entry>, k: string)
    requires Holds(tree, leaves) && KeysFrom(leaves, names) && NamesApart(names)
    requires JsonView(tree).DirEntry? && IsIndex(entries, FlatRoot(JsonView(tree).files))
    requires !Steady(Split(k, '/'))
    ensures k !in entries
  {
    LeavesAreSlashless(names, tree, leaves);
    if k in entries {
      SteadyKeys(tree, entries, k);
    }
  }

  lemma MissingIsNotRestored(a: Archive, file: seq<Byte>, disk: Files, packed: Files, unpacked: Files, k: string)
    requires k in packed.Keys + unpacked.Keys && k !in a.entries
    ensures !Restored(a, file, disk, packed, unpacked)
  {
  }

  /** One of the three reasons: nothing written, an empty file, an unsteady name. */
  lemma UnsoundReason(packed: Files, unpacked: Files) returns (k: string)
    requires !Sound(packed, unpacked) && packed.Keys + unpacked.Keys != {}
    ensures k in packed.Keys + unpacked.Keys
    ensures (k in packed && packed[k] == []) || (k in unpacked && unpacked[k] == []) || !Steady(Split(k, '/'))
  {
    k :| k in packed.Keys + unpacked.Keys &&
      ((k in packed && packed[k] == []) || (k in unpacked && unpacked[k] == []) || !Steady(Split(k, '/')));
  }

  lemma UnsoundIsLost(names: seq<string>, others: seq<string>, packed: Files, unpacked: Files, tree: WriteNode, leaves: Leaves,
                      codec: Codec, disk: Files) returns (a: Archive)
    requires Left(names, others, packed, unpacked, tree, leaves) && !Sound(packed, unpacked) && Carries(codec, tree)
    requires Openable(Assemble(tree, Concat(names, packed), codec), codec)
    ensures IsArchiveOf(a, Assemble(tree, Concat(names, packed), codec), codec)
    ensures !Restored(a, Assemble(tree, Concat(names, packed), codec), disk, packed, unpacked)
  {
    HeaderReadsBack(tree, Concat(names, packed), codec);
    a := SomeArchive(Assemble(tree, Concat(names, packed), codec), codec);
    if packed.Keys + unpacked.Keys == {} {
      NothingWrittenFails(names, others, packed, unpacked, tree, leaves);
    } else {
      var k := UnsoundReason(packed, unpacked);
      if (k in packed && packed[k] == []) || (k in unpacked && unpacked[k] == []) {
        EmptyFileIsRefused(names, others, packed, unpacked, tree, leaves, k);
      } else {
        UnsteadyIsMissing(names + others, tree, leaves, a.entries, k);
        MissingIsNotRestored(a, Assemble(tree, Concat(names, packed), codec), disk, packed, unpacked, k);
      }
    }
  }

  // ----- the theorem -----

  /** For well-named files Write succeeds, and opening its output restores every
      file, folder and byte, in every map order, exactly when there is a file, no
      file is empty, and no component ends in white space. */
  lemma WellNamedIsRestored(packed: Files, unpacked: Files, codec: Codec, r: Result<seq<Byte>, Error>, disk: Files)
    requires WellNamed(packed, unpacked) && Writes(packed, unpacked, codec, r, disk)
    requires forall tree :: WrittenTree(packed, unpacked, tree) ==> Carries(codec, tree)
    requires r.Ok? ==> |r.value| <= MAX_INT64
    ensures r.Ok?
    ensures Sound(packed, unpacked) <==>
      (Openable(r.value, codec) &&
       forall a :: IsArchiveOf(a, r.value, codec) ==> Restored(a, r.value, disk, packed, unpacked))
  {
    var names, others :|
      && Lists(names, packed.Keys) && Lists(others, unpacked.Keys)
      && r == WriteResult(names, others, packed, unpacked, codec)
      && (r.Ok? ==> disk == Beside(others, unpacked));
    assert forall i :: 0 <= i < |names| ==> names[i] in names;
    assert forall i :: 0 <= i < |others| ==> others[i] in others;
    var tree, leaves := WriteLeaves(names, others, packed, unpacked);
    assert WrittenTree(packed, unpacked, tree);
    if Sound(packed, unpacked) {
      SoundIsOpenable(names, others, packed, unpacked, tree, leaves, codec);
      forall a | IsArchiveOf(a, r.value, codec)
        ensures Restored(a, r.value, disk, packed, unpacked)
      {
        SoundIsRestored(names, others, packed, unpacked, tree, leaves, codec, disk, a);
      }
    } else if Openable(r.value, codec) {
      var a := UnsoundIsLost(names, others, packed, unpacked, tree, leaves, codec, disk);
    }
  }

  /** The premise of the theorem about the JSON layer can be met for any files. */
  lemma SomeCodecCarries(packed: Files, unpacked: Files) returns (codec: Codec)
    ensures forall tree :: WrittenTree(packed, unpacked, tree) ==> Carries(codec, tree)
  {
    if tree :| WrittenTree(packed, unpacked, tree) {
      codec := Codec(node => [], text => Some(JsonView(tree)));
      forall other | WrittenTree(packed, unpacked, other) ensures other == tree {
        OneTreeIsWritten(packed, unpacked, tree, other);
      }
    } else {
      codec := Codec(node => [], text => None);
    }
  }

  lemma OneTreeIsWritten(packed: Files, unpacked: Files, a: WriteNode, b: WriteNode)
    requires WrittenTree(packed, unpacked, a) && WrittenTree(packed, unpacked, b)
    ensures a == b
  {
    var m, o := ListingOf(packed, unpacked, a);
    var n, p := ListingOf(packed, unpacked, b);
    ListingIsUnique(m, n, packed.Keys);
    ListingIsUnique(o, p, unpacked.Keys);
  }

  lemma ListingOf(packed: Files, unpacked: Files, tree: WriteNode) returns (names: seq<string>, others: seq<string>)
    requires WrittenTree(packed, unpacked, tree)
    ensures Lists(names, packed.Keys) && Lists(others, unpacked.Keys) && Packed(names, packed).Ok?
    ensures WithUnpacked(others, unpacked, Packed(names, packed).value.root) == Ok(tree)
  {
    names, others :| Lists(names, packed.Keys) && Lists(others, unpacked.Keys) && Packed(names, packed).Ok?
                     && WithUnpacked(others, unpacked, Packed(names, packed).value.root) == Ok(tree);
  }
}
