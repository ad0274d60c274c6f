/** Which names Write accepts, and the round trip for all of them
    (internal/asar/archive.go:60-156, 357-416). */
module AsarNames {
  import opened Wrappers
  import opened Text
  import opened AsarPickle
  import opened AsarPaths
  import opened AsarHeader
  import opened Asar
  import opened AsarRoundTrip

  // ----- what an insertion that succeeds tells -----

  lemma {:induction false} InsertAccepts(node: WriteNode, parts: seq<string>, file: WriteNode)
    requires |parts| >= 1 && Insert(node, parts, file).Ok?
    ensures (forall i :: 0 <= i < |parts| ==> PlainName(parts[i])) && AsarHeader.Open(node, parts)
    decreases |parts|
  {
    if |parts| > 1 {
      var child := if parts[0] in node.files then node.files[parts[0]] else Dir(map[]);
      InsertAccepts(child, parts[1..], file);
      forall i | 0 <= i < |parts| ensures PlainName(parts[i]) { assert i > 0 ==> parts[i] == parts[1..][i - 1]; }
    }
    forall q | StrictPrefix(q, parts) ensures !Look(node, q).Leaf? {
      if q != [] {
        assert q[0] == parts[0] && StrictPrefix(q[1..], parts[1..]);
      }
    }
  }

  lemma InsertKeepsSlashless(node: WriteNode, parts: seq<string>, file: WriteNode)
    requires |parts| >= 1 && file.File? && Slashless(node) && Insert(node, parts, file).Ok?
    ensures Slashless(Insert(node, parts, file).value)
  {
    InsertAccepts(node, parts, file);
    forall q, i | !Look(Insert(node, parts, file).value, q).Missing? && 0 <= i < |q| ensures '/' !in q[i] {
      LookInsert(node, parts, file, q);
      if q == parts || StrictPrefix(q, parts) { assert PlainName(parts[i]) && q[i] == parts[i]; }
    }
  }

  /** Write takes a name when its normal form has plain components. */
  predicate Acceptable(name: string)
  {
    var parts := Split(NormalizeInnerPath(name), '/');
    forall i :: 0 <= i < |parts| ==> PlainName(parts[i])
  }

  lemma AddAccepts(root: WriteNode, name: string, file: WriteNode)
    requires AddFile(root, name, file).Ok? && file.File?
    ensures Acceptable(name)
    ensures Slashless(root) ==> Slashless(AddFile(root, name, file).value)
  {
    var parts := Split(NormalizeInnerPath(name), '/');
    InsertAccepts(root, parts, file);
    if Slashless(root) { InsertKeepsSlashless(root, parts, file); }
  }

  predicate AllAcceptable(names: seq<string>)
  {
    forall i :: 0 <= i < |names| ==> Acceptable(names[i])
  }

  lemma AcceptSnoc(names: seq<string>)
    requires names != [] && AllAcceptable(names[..|names| - 1]) && Acceptable(names[|names| - 1])
    ensures AllAcceptable(names)
  {
    forall i | 0 <= i < |names| - 1 ensures Acceptable(names[i]) { assert names[i] == names[..|names| - 1][i]; }
  }

  lemma EmptyIsSlashless()
    ensures Slashless(Dir(map[]))
  {
    assert forall q: seq<string> :: q != [] ==> Look(Dir(map[]), q).Missing?;
  }

  lemma {:induction false} PackedAccepts(names: seq<string>, data: Files)
    requires (forall i :: 0 <= i < |names| ==> names[i] in data) && Packed(names, data).Ok?
    ensures Slashless(Packed(names, data).value.root) && AllAcceptable(names)
    ensures Packed(names, data).value.content == Concat(names, data)
  {
    if names == [] {
      EmptyIsSlashless();
    } else {
      var front, name := names[..|names| - 1], names[|names| - 1];
      PackedAccepts(front, data);
      var b := Packed(front, data).value;
      AddAccepts(b.root, name, File(Itoa(|b.content|), |data[name]|, false));
      AcceptSnoc(names);
    }
  }

  lemma {:induction false} UnpackedAccepts(names: seq<string>, data: Files, root: WriteNode)
    requires (forall i :: 0 <= i < |names| ==> names[i] in data) && WithUnpacked(names, data, root).Ok? && Slashless(root)
    ensures Slashless(WithUnpacked(names, data, root).value) && AllAcceptable(names)
  {
    if names != [] {
      var front, name := names[..|names| - 1], names[|names| - 1];
      UnpackedAccepts(front, data, root);
      AddAccepts(WithUnpacked(front, data, root).value, name, File("", |data[name]|, true));
      AcceptSnoc(names);
    }
  }

  // ----- the paths Open can find -----

  /** Every entry of a written tree that flattens without error has a good path. */
  lemma {:induction false} FlatIsGood(path: string, node: WriteNode, e: Entry)
    requires Slashless(node) && GoodPath(NormalizeInnerPath(path))
    requires !Fails(path, JsonView(node)) && e in Flat(path, JsonView(node))
    ensures GoodPath(e.path)
    decreases node
  {
    var here := NormalizeInnerPath(path);
    if node.Dir? && node.files != map[] && e.path != here {
      var files := map name | name in node.files :: JsonView(node.files[name]);
      assert JsonView(node) == DirEntry(files);
      var name :| name in files && e in Flat(JoinPath(here, name), files[name]);
      SlashlessChild(node, name);
      EntryPathGood(here, name);
      assert !Fails(JoinPath(here, name), files[name]);
      FlatIsGood(JoinPath(here, name), node.files[name], e);
    }
  }

  /** A key of an opened archive is a path that normalizing leaves alone. */
  lemma KeyIsGood(tree: WriteNode, entries: map<string, Entry>, k: string)
    requires Slashless(tree) && JsonView(tree).DirEntry? && !RootFails(JsonView(tree).files)
    requires IsIndex(entries, FlatRoot(JsonView(tree).files)) && k in entries
    ensures GoodPath(k) && Steady(Split(k, '/')) && NormalizeInnerPath(k) == k
  {
    var files := map name | name in tree.files :: JsonView(tree.files[name]);
    assert JsonView(tree) == DirEntry(files);
    var e := SourceOf(entries, FlatRoot(files), k);
    var name :| name in files && e in Flat(name, files[name]);
    SlashlessChild(tree, name);
    RootPathGood(name);
    assert !Fails(name, files[name]);
    FlatIsGood(name, tree.files[name], e);
    EntryPathSteady("", name);
    FlatIsSteady(name, tree.files[name], e);
    GoodIsNormal(e.path);
  }

  /** A name that Write accepted and Open lists is canonical. */
  lemma ListedIsCanonical(k: string)
    requires Acceptable(k) && GoodPath(k) && Steady(Split(k, '/')) && NormalizeInnerPath(k) == k
    ensures Canonical(k)
  {
    FirstCharIsNoSlash(k);
    FirstPiece(k);
  }

  /** The tree that Write hands to the JSON layer, whatever the names. */
  lemma WriteAccepts(names: seq<string>, others: seq<string>, packed: Files, unpacked: Files, codec: Codec) returns (tree: WriteNode)
    requires Lists(names, packed.Keys) && Lists(others, unpacked.Keys)
    requires (forall i :: 0 <= i < |names| ==> names[i] in packed) && (forall i :: 0 <= i < |others| ==> others[i] in unpacked)
    requires WriteResult(names, others, packed, unpacked, codec).Ok?
    ensures WriteResult(names, others, packed, unpacked, codec) == Ok(Assemble(tree, Concat(names, packed), codec))
    ensures Slashless(tree) && WrittenTree(packed, unpacked, tree)
    ensures forall k :: k in packed.Keys + unpacked.Keys ==> Acceptable(k)
  {
    PackedAccepts(names, packed);
    UnpackedAccepts(others, unpacked, Packed(names, packed).value.root);
    tree := WithUnpacked(others, unpacked, Packed(names, packed).value.root).value;
    forall k | k in packed.Keys + unpacked.Keys ensures Acceptable(k) {
      assert k in names || k in others;
    }
  }

  /** An archive that restores everything had well-named files. */
  lemma RestoredIsWellNamed(a: Archive, tree: WriteNode, file: seq<Byte>, disk: Files, packed: Files, unpacked: Files)
    requires Slashless(tree) && JsonView(tree).DirEntry? && !RootFails(JsonView(tree).files)
    requires IsIndex(a.entries, FlatRoot(JsonView(tree).files))
    requires forall k :: k in packed.Keys + unpacked.Keys ==> Acceptable(k)
    requires Restored(a, file, disk, packed, unpacked)
    ensures WellNamed(packed, unpacked)
  {
    var names := packed.Keys + unpacked.Keys;
    forall k | k in names ensures Canonical(k) && !a.entries[k].dir {
      KeyIsGood(tree, a.entries, k);
      ListedIsCanonical(k);
    }
    forall n, m | n in names && m in names ensures !(n + "/" <= m) { NoFolder(a.entries, names, n, m); }
  }

  lemma NoFolder(entries: map<string, Entry>, names: set<string>, n: string, m: string)
    requires FoldersRestored(entries, names) && n in entries && !entries[n].dir && m in names
    ensures !(n + "/" <= m)
  {
    assert n + "/" <= m ==> IsAncestor(n, names);
  }

  // ----- the theorem -----

  /** For all files, whatever their names: when Write succeeds, opening its output
      restores every file, folder and byte, in every map order, if and only if the files
      are well named, there is one, none is empty and no component ends in white space.
      On well-named files Write succeeds. */
  lemma OpenRestoresWrite(packed: Files, unpacked: Files, codec: Codec, r: Result<seq<Byte>, Error>, disk: Files)
    requires Writes(packed, unpacked, codec, r, disk)
    requires forall tree :: WrittenTree(packed, unpacked, tree) ==> Carries(codec, tree)
    requires r.Ok? ==> |r.value| <= MAX_INT64
    ensures WellNamed(packed, unpacked) ==> r.Ok?
    ensures r.Ok? ==>
      (WellNamed(packed, unpacked) && Sound(packed, unpacked) <==>
        (Openable(r.value, codec) &&
         forall a :: IsArchiveOf(a, r.value, codec) ==> Restored(a, r.value, disk, packed, unpacked)))
  {
    if WellNamed(packed, unpacked) {
      WellNamedIsRestored(packed, unpacked, codec, r, disk);
    } else if r.Ok? && Openable(r.value, codec) {
      var a := IllNamedIsLost(packed, unpacked, codec, r.value, disk);
    }
  }

  lemma IllNamedIsLost(packed: Files, unpacked: Files, codec: Codec, file: seq<Byte>, disk: Files) returns (a: Archive)
    requires Writes(packed, unpacked, codec, Ok(file), disk) && !WellNamed(packed, unpacked)
    requires forall tree :: WrittenTree(packed, unpacked, tree) ==> Carries(codec, tree)
    requires Openable(file, codec)
    ensures IsArchiveOf(a, file, codec) && !Restored(a, file, disk, packed, unpacked)
  {
    var tree, content := TreeOfWrite(packed, unpacked, codec, file, disk);
    HeaderReadsBack(tree, content, codec);
    a := SomeArchive(file, codec);
    if Restored(a, file, disk, packed, unpacked) {
      RestoredIsWellNamed(a, tree, file, disk, packed, unpacked);
    }
  }

  lemma TreeOfWrite(packed: Files, unpacked: Files, codec: Codec, file: seq<Byte>, disk: Files)
    returns (tree: WriteNode, content: seq<Byte>)
    requires Writes(packed, unpacked, codec, Ok(file), disk)
    ensures file == Assemble(tree, content, codec) && Slashless(tree) && WrittenTree(packed, unpacked, tree)
    ensures forall k :: k in packed.Keys + unpacked.Keys ==> Acceptable(k)
  {
    var names, others :|
      && Lists(names, packed.Keys) && Lists(others, unpacked.Keys)
      && Ok(file) == WriteResult(names, others, packed, unpacked, codec)
      && disk == Beside(others, unpacked);
    assert forall i :: 0 <= i < |names| ==> names[i] in names;
    assert forall i :: 0 <= i < |others| ==> others[i] in others;
    tree := WriteAccepts(names, others, packed, unpacked, codec);
    content := Concat(names, packed);
  }

  // ----- which canonical names Write accepts -----

  predicate HasLeafAt(root: WriteNode, name: string, q: seq<string>)
  {
    q <= Split(name, '/') && Look(root, q).Leaf?
  }

  /** The file, or a file that replaced a folder above it, is in the tree. */
  ghost predicate HasLeafAbove(root: WriteNode, name: string)
  {
    exists q :: HasLeafAt(root, name, q)
  }

  predicate IsNamed(names: seq<string>, q: seq<string>)
  {
    exists i :: 0 <= i < |names| && Split(names[i], '/') == q
  }

  /** The files of the tree are files of these names, and every name ends at one. */
  ghost predicate Tracks(root: WriteNode, names: seq<string>)
  {
    && root.Dir?
    && (forall q :: Look(root, q).Leaf? ==> IsNamed(names, q))
    && (forall i :: 0 <= i < |names| ==> HasLeafAbove(root, names[i]))
  }

  predicate BelowSome(names: seq<string>, name: string)
  {
    exists i :: 0 <= i < |names| && names[i] + "/" <= name
  }

  lemma FileOnTheWayFails(root: WriteNode, q: seq<string>, name: string, file: WriteNode)
    requires Canonical(name) && StrictPrefix(q, Split(name, '/')) && Look(root, q).Leaf?
    ensures AddFile(root, name, file) == Err(NilMapWrite)
  {
    CanonicalName(name);
    assert q == Split(name, '/')[..|q|];
    InsertThroughFilePanics(root, Split(name, '/'), |q|, file);
  }

  lemma BelowFileFails(root: WriteNode, names: seq<string>, name: string, file: WriteNode)
    requires Tracks(root, names) && Canonical(name) && BelowSome(names, name)
    ensures AddFile(root, name, file) == Err(NilMapWrite)
  {
    var i :| 0 <= i < |names| && names[i] + "/" <= name;
    assert HasLeafAbove(root, names[i]);
    var q :| HasLeafAt(root, names[i], q);
    AncestorParts(names[i], name);
    PrefixOfStrict(q, Split(names[i], '/'), Split(name, '/'));
    FileOnTheWayFails(root, q, name, file);
  }

  lemma PrefixOfStrict(a: seq<string>, b: seq<string>, c: seq<string>)
    requires a <= b && StrictPrefix(b, c)
    ensures StrictPrefix(a, c)
  {
    assert |b| < |c|;
  }

  lemma ClearIsOpen(root: WriteNode, names: seq<string>, name: string)
    requires Tracks(root, names) && !BelowSome(names, name)
    ensures AsarHeader.Open(root, Split(name, '/'))
  {
    forall q | StrictPrefix(q, Split(name, '/')) ensures !Look(root, q).Leaf? {
      if Look(root, q).Leaf? {
        var i :| 0 <= i < |names| && Split(names[i], '/') == q;
        AncestorParts(names[i], name);
      }
    }
  }

  /** Adding a canonical name succeeds exactly when no name before is a folder of it. */
  lemma TrackStep(root: WriteNode, names: seq<string>, name: string, file: WriteNode)
    requires Tracks(root, names) && Canonical(name) && file.File?
    ensures AddFile(root, name, file).Ok? <==> !BelowSome(names, name)
    ensures AddFile(root, name, file).Err? ==> AddFile(root, name, file).error == NilMapWrite
    ensures AddFile(root, name, file).Ok? ==> Tracks(AddFile(root, name, file).value, names + [name])
  {
    if BelowSome(names, name) {
      BelowFileFails(root, names, name, file);
    } else {
      CanonicalName(name);
      ClearIsOpen(root, names, name);
      LookInsert(root, Split(name, '/'), file, []);
      TracksMore(root, names, name, file);
    }
  }

  lemma TracksMore(root: WriteNode, names: seq<string>, name: string, file: WriteNode)
    requires Tracks(root, names) && Canonical(name) && file.File? && AsarHeader.Open(root, Split(name, '/'))
    requires AddFile(root, name, file).Ok?
    ensures Tracks(AddFile(root, name, file).value, names + [name])
  {
    var grown, parts, more := AddFile(root, name, file).value, Split(name, '/'), names + [name];
    CanonicalName(name);
    forall q | Look(grown, q).Leaf? ensures IsNamed(more, q) {
      LookInsert(root, parts, file, q);
      NamedSnoc(names, name, q);
    }
    forall i | 0 <= i < |more| ensures HasLeafAbove(grown, more[i]) {
      LookInsert(root, parts, file, parts);
      if i < |names| {
        var q :| HasLeafAt(root, names[i], q);
        LookInsert(root, parts, file, q);
        assert HasLeafAt(grown, names[i], q) || HasLeafAt(grown, names[i], parts);
      } else {
        assert HasLeafAt(grown, name, parts);
      }
    }
  }

  lemma NamedSnoc(names: seq<string>, name: string, q: seq<string>)
    ensures IsNamed(names + [name], q) <==> IsNamed(names, q) || Split(name, '/') == q
  {
    var more := names + [name];
    assert more[|names|] == name;
    if i :| 0 <= i < |names| && Split(names[i], '/') == q { assert more[i] == names[i]; }
  }

  /** No name of the run has a folder of it before it. */
  ghost predicate ClearRun(before: seq<string>, names: seq<string>)
  {
    names == [] || (ClearRun(before, names[..|names| - 1]) && !BelowSome(before + names[..|names| - 1], names[|names| - 1]))
  }

  lemma {:induction false} PackedTracks(names: seq<string>, data: Files)
    requires forall i :: 0 <= i < |names| ==> names[i] in data && Canonical(names[i])
    ensures Packed(names, data).Ok? <==> ClearRun([], names)
    ensures Packed(names, data).Err? ==> Packed(names, data).error == NilMapWrite
    ensures Packed(names, data).Ok? ==> Tracks(Packed(names, data).value.root, names)
  {
    if names == [] {
      assert forall q :: !Look(Dir(map[]), q).Leaf?;
    } else {
      var front, name := names[..|names| - 1], names[|names| - 1];
      PackedTracks(front, data);
      assert [] + front == front && front + [name] == names;
      if Packed(front, data).Ok? {
        var b := Packed(front, data).value;
        TrackStep(b.root, front, name, File(Itoa(|b.content|), |data[name]|, false));
      }
    }
  }

  lemma {:induction false} UnpackedTracks(before: seq<string>, names: seq<string>, data: Files, root: WriteNode)
    requires Tracks(root, before) && forall i :: 0 <= i < |names| ==> names[i] in data && Canonical(names[i])
    ensures WithUnpacked(names, data, root).Ok? <==> ClearRun(before, names)
    ensures WithUnpacked(names, data, root).Err? ==> WithUnpacked(names, data, root).error == NilMapWrite
    ensures WithUnpacked(names, data, root).Ok? ==> Tracks(WithUnpacked(names, data, root).value, before + names)
  {
    if names == [] {
      assert before + names == before;
    } else {
      var front, name := names[..|names| - 1], names[|names| - 1];
      UnpackedTracks(before, front, data, root);
      assert before + front + [name] == before + names;
      if WithUnpacked(front, data, root).Ok? {
        TrackStep(WithUnpacked(front, data, root).value, before + front, name, File("", |data[name]|, true));
      }
    }
  }

  lemma {:induction false} PrefixIsBefore(a: string, b: string)
    requires a <= b && a != b
    ensures Before(a, b)
  {
    if a != "" {
      assert a[1..] <= b[1..] && ([a[0]] + a[1..] == a) && ([b[0]] + b[1..] == b);
      PrefixIsBefore(a[1..], b[1..]);
    }
  }

  lemma BelowConcat(a: seq<string>, b: seq<string>, name: string)
    ensures BelowSome(a + b, name) <==> BelowSome(a, name) || BelowSome(b, name)
  {
    if i :| 0 <= i < |a| && a[i] + "/" <= name { assert (a + b)[i] == a[i]; }
    if i :| 0 <= i < |b| && b[i] + "/" <= name { assert (a + b)[|a| + i] == b[i]; }
  }

  /** In sorted order a folder of a name comes before it. */
  lemma FolderComesFirst(names: seq<string>, k: nat)
    requires Increasing(names) && k < |names|
    ensures BelowSome(names[..k], names[k]) <==> BelowSome(names, names[k])
  {
    if i :| 0 <= i < |names| && names[i] + "/" <= names[k] {
      assert names[i] <= names[k] && names[i] != names[k];
      PrefixIsBefore(names[i], names[k]);
      BeforeTotal(names[i], names[k]);
      assert i < k && names[..k][i] == names[i];
    }
    if i :| 0 <= i < k && names[..k][i] + "/" <= names[k] { assert names[i] == names[..k][i]; }
  }

  lemma {:induction false} ClearRunIs(before: seq<string>, names: seq<string>, n: nat)
    requires Increasing(names) && n <= |names|
    ensures ClearRun(before, names[..n]) <==> forall k :: 0 <= k < n ==> !BelowSome(before + names, names[k])
    decreases n
  {
    if n > 0 {
      ClearRunIs(before, names, n - 1);
      assert names[..n][..n - 1] == names[..n - 1];
      FolderComesFirst(names, n - 1);
      BelowConcat(before, names, names[n - 1]);
      BelowConcat(before, names[..n - 1], names[n - 1]);
    }
  }

  /** n is a folder of m, and m is written after n. */
  predicate Clash(packed: Files, unpacked: Files, n: string, m: string)
  {
    n + "/" <= m && ((n in packed && m in packed) || (m in unpacked && (n in packed || n in unpacked)))
  }

  ghost predicate Clashes(packed: Files, unpacked: Files)
  {
    exists n, m :: Clash(packed, unpacked, n, m)
  }

  predicate Below(names: seq<string>, n: string, m: string)
  {
    n in names && n + "/" <= m
  }

  lemma BelowOne(names: seq<string>, m: string)
    ensures BelowSome(names, m) <==> exists n :: Below(names, n, m)
  {
    if i :| 0 <= i < |names| && names[i] + "/" <= m { assert Below(names, names[i], m); }
    if n :| Below(names, n, m) { var i :| 0 <= i < |names| && names[i] == n; }
  }

  /** The run over a sorted list is clear when nothing before or in it is a folder of a
      name in it. */
  lemma RunIsClear(before: seq<string>, names: seq<string>)
    requires Increasing(names)
    ensures ClearRun(before, names) <==> forall n, m :: m in names ==> !Below(before + names, n, m)
  {
    ClearRunIs(before, names, |names|);
    assert names[..|names|] == names;
    forall k | 0 <= k < |names| ensures names[k] in names { BelowOne(before + names, names[k]); }
    forall k | 0 <= k < |names|
      ensures BelowSome(before + names, names[k]) <==> exists n :: Below(before + names, n, names[k])
    {
      BelowOne(before + names, names[k]);
    }
    if n, m :| m in names && Below(before + names, n, m) {
      var k :| 0 <= k < |names| && names[k] == m;
    }
  }

  lemma RunsAreClear(names: seq<string>, others: seq<string>, packed: Files, unpacked: Files)
    requires Lists(names, packed.Keys) && Lists(others, unpacked.Keys)
    ensures ClearRun([], names) && ClearRun(names, others) <==> !Clashes(packed, unpacked)
  {
    RunIsClear([], names);
    RunIsClear(names, others);
    assert [] + names == names;
    forall n, m | Clash(packed, unpacked, n, m)
      ensures (m in names && Below(names, n, m)) || (m in others && Below(names + others, n, m)) {}
    forall n, m | m in names && Below(names, n, m) ensures Clash(packed, unpacked, n, m) {}
    forall n, m | m in others && Below(names + others, n, m) ensures Clash(packed, unpacked, n, m) {}
  }

  /** For canonical names Write succeeds if and only if no packed name is a folder of a
      packed one, and no name at all is a folder of an unpacked one. Otherwise it writes
      to a nil map, which panics. An unpacked name may be a folder of a packed one: its
      file replaces the folder, and what was in it is lost. */
  lemma WritePanicsExactly(packed: Files, unpacked: Files, codec: Codec, r: Result<seq<Byte>, Error>, disk: Files)
    requires Writes(packed, unpacked, codec, r, disk)
    requires forall n :: n in packed.Keys + unpacked.Keys ==> Canonical(n)
    ensures r.Ok? <==> !Clashes(packed, unpacked)
    ensures r.Err? ==> r.error == NilMapWrite
  {
    var names, others :|
      && Lists(names, packed.Keys) && Lists(others, unpacked.Keys)
      && r == WriteResult(names, others, packed, unpacked, codec)
      && (r.Ok? ==> disk == Beside(others, unpacked));
    forall i | 0 <= i < |names| ensures names[i] in packed && Canonical(names[i]) { assert names[i] in names; }
    forall i | 0 <= i < |others| ensures others[i] in unpacked && Canonical(others[i]) { assert others[i] in others; }
    PackedTracks(names, packed);
    if Packed(names, packed).Ok? { UnpackedTracks(names, others, unpacked, Packed(names, packed).value.root); }
    RunsAreClear(names, others, packed, unpacked);
  }

  lemma NamesOfExample()
    ensures Canonical("a") && Canonical("a/b") && "a" + "/" <= "a/b" && !("a/b" + "/" <= "a/b") && |"a/b" + "/"| > |"a"|
  {
    SplitPiece("a", '/');
    SplitPiece("b", '/');
    SplitAfterPiece("a", "b", '/');
    assert "a" + ['/'] + "b" == "a/b";
  }

  lemma ExampleDoesNotClash(packed: Files, unpacked: Files)
    requires packed.Keys == {"a/b"} && unpacked.Keys == {"a"}
    ensures !Clashes(packed, unpacked)
  {
    forall n, m ensures !Clash(packed, unpacked, n, m) {
      assert m in unpacked.Keys ==> |m| == 1;
      assert m in packed.Keys ==> |m| == 3;
      assert n in unpacked.Keys ==> |n| == 1;
      assert n in packed.Keys ==> |n| == 3;
      assert |n + "/"| == |n| + 1;
    }
  }

  /** A packed file below an unpacked one is lost, though Write may succeed. */
  lemma BelowUnpackedIsLost(codec: Codec, r: Result<seq<Byte>, Error>, disk: Files, packed: Files, unpacked: Files, n: string, m: string)
    requires n in unpacked && m in packed && n + "/" <= m && Writes(packed, unpacked, codec, r, disk)
    requires forall tree :: WrittenTree(packed, unpacked, tree) ==> Carries(codec, tree)
    requires r.Ok? && |r.value| <= MAX_INT64
    ensures !(Openable(r.value, codec) && forall a :: IsArchiveOf(a, r.value, codec) ==> Restored(a, r.value, disk, packed, unpacked))
  {
    var names := packed.Keys + unpacked.Keys;
    assert n in names && m in names && n + "/" <= m;
    assert !WellNamed(packed, unpacked);
    OpenRestoresWrite(packed, unpacked, codec, r, disk);
  }

  lemma ExampleIsCanonical(packed: Files, unpacked: Files)
    requires packed.Keys == {"a/b"} && unpacked.Keys == {"a"}
    ensures forall n :: n in packed.Keys + unpacked.Keys ==> Canonical(n)
    ensures "a" in unpacked && "a/b" in packed && "a" + "/" <= "a/b"
  {
    NamesOfExample();
  }

  /** So it does with packed a/b and unpacked a: no error, and no a/b. */
  lemma FolderReplacedByFile(codec: Codec, r: Result<seq<Byte>, Error>, disk: Files, packed: Files, unpacked: Files)
    requires packed.Keys == {"a/b"} && unpacked.Keys == {"a"} && Writes(packed, unpacked, codec, r, disk)
    requires forall tree :: WrittenTree(packed, unpacked, tree) ==> Carries(codec, tree)
    requires r.Ok? ==> |r.value| <= MAX_INT64
    ensures r.Ok?
    ensures !(Openable(r.value, codec) && forall a :: IsArchiveOf(a, r.value, codec) ==> Restored(a, r.value, disk, packed, unpacked))
  {
    ExampleIsCanonical(packed, unpacked);
    ExampleDoesNotClash(packed, unpacked);
    WritePanicsExactly(packed, unpacked, codec, r, disk);
    BelowUnpackedIsLost(codec, r, disk, packed, unpacked, "a", "a/b");
  }
}
