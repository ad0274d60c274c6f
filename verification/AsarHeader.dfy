/** The directory tree inside an ASAR header: inserting files into it, and
    flattening it back into entries (internal/asar/archive.go:325-416). */
module AsarHeader {
  import opened Wrappers
  import opened Text
  import opened AsarPickle
  import opened AsarPaths

  /** headerWriteNode: a directory has a non-nil Files map, a file a nil one. */
  datatype WriteNode = Dir(files: map<string, WriteNode>) | File(offset: string, size: nat, unpacked: bool)

  /** headerEntry after decoding, told apart by Files being nil or not. */
  datatype HeaderEntry =
    | DirEntry(files: map<string, HeaderEntry>)
    | FileEntry(offset: string, size: Option<int>, mode: Option<nat>, unpacked: bool)

  datatype Entry = Entry(path: string, offset: int, size: int, mode: nat, dir: bool, unpacked: bool)

  // ----- building the tree -----

  /** The walk of addHeaderWriteFile. A path that runs through a file writes to a
      nil map, which panics in Go; that outcome is NilMapWrite. */
  function Insert(node: WriteNode, parts: seq<string>, file: WriteNode): Result<WriteNode, Error>
    requires |parts| >= 1
    decreases |parts|
  {
    if !PlainName(parts[0]) then Err(InvalidPath)
    else if node.File? then Err(NilMapWrite)
    else if |parts| == 1 then Ok(Dir(node.files[parts[0] := file]))
    else
      var child := if parts[0] in node.files then node.files[parts[0]] else Dir(map[]);
      match Insert(child, parts[1..], file)
      case Err(e) => Err(e)
      case Ok(c) => Ok(Dir(node.files[parts[0] := c]))
  }

  function AddFile(root: WriteNode, name: string, file: WriteNode): Result<WriteNode, Error>
  {
    var normalized := NormalizeInnerPath(name);
    if normalized == "" || "../" <= normalized then Err(InvalidPath)
    else Insert(root, Split(normalized, '/'), file)
  }

  // ----- reading the tree at a path -----

  datatype Kind = Missing | Folder | Leaf(offset: string, size: nat, unpacked: bool)

  function KindOf(node: WriteNode): Kind
  {
    match node
    case Dir(_) => Folder
    case File(offset, size, unpacked) => Leaf(offset, size, unpacked)
  }

  function Look(node: WriteNode, path: seq<string>): Kind
    decreases |path|
  {
    if path == [] then KindOf(node)
    else if node.Dir? && path[0] in node.files then Look(node.files[path[0]], path[1..])
    else Missing
  }

  predicate StrictPrefix(a: seq<string>, b: seq<string>)
  {
    a <= b && a != b
  }

  /** No strict prefix of the path is a file. */
  ghost predicate Open(node: WriteNode, parts: seq<string>)
  {
    forall q :: StrictPrefix(q, parts) ==> !Look(node, q).Leaf?
  }

  /** What one insertion does to every path: the path itself becomes the file, the
      paths above it are folders, the paths below it vanish, all others stay. */
  lemma {:induction false} LookInsert(node: WriteNode, parts: seq<string>, file: WriteNode, q: seq<string>)
    requires |parts| >= 1 && (forall i :: 0 <= i < |parts| ==> PlainName(parts[i]))
    requires file.File? && Open(node, parts)
    ensures Insert(node, parts, file).Ok?
    ensures
      Look(Insert(node, parts, file).value, q)
      == if q == parts then KindOf(file)
         else if StrictPrefix(q, parts) then Folder
         else if StrictPrefix(parts, q) then Missing
         else Look(node, q)
    decreases |parts|
  {
    assert StrictPrefix([], parts) && !Look(node, []).Leaf?;
    if |parts| == 1 {
      if q != [] && q[0] == parts[0] {
        assert q == [parts[0]] + q[1..];
        assert parts == [parts[0]];
        if q != parts {
          assert parts <= q && q[1..] != [];
        }
      }
    } else {
      var child := if parts[0] in node.files then node.files[parts[0]] else Dir(map[]);
      forall r | StrictPrefix(r, parts[1..])
        ensures !Look(child, r).Leaf?
      {
        var s := [parts[0]] + r;
        assert s[1..] == r && StrictPrefix(s, parts);
        assert !Look(node, s).Leaf?;
      }
      var tail := if q == [] then [] else q[1..];
      LookInsert(child, parts[1..], file, tail);
      if q != [] && q[0] == parts[0] {
        assert q == [parts[0]] + q[1..] && parts == [parts[0]] + parts[1..];
        assert StrictPrefix(q, parts) <==> StrictPrefix(q[1..], parts[1..]);
        assert StrictPrefix(parts, q) <==> StrictPrefix(parts[1..], q[1..]);
      }
    }
  }

  /** A file met on the way, with plain components up to the next one, panics. */
  lemma {:induction false} InsertThroughFilePanics(node: WriteNode, parts: seq<string>, n: nat, file: WriteNode)
    requires n < |parts| && Look(node, parts[..n]).Leaf?
    requires forall i :: 0 <= i < |parts| ==> PlainName(parts[i])
    ensures Insert(node, parts, file) == Err(NilMapWrite)
    decreases |parts|
  {
    if n > 0 {
      assert parts[..n][1..] == parts[1..][..n - 1];
      InsertThroughFilePanics(node.files[parts[0]], parts[1..], n - 1, file);
    }
  }

  // ----- what the JSON layer keeps of a written tree -----

  /** Encoding drops empty fields (`omitempty`): an empty folder loses its Files
      and a file of size zero loses its Size. Mode is never written. */
  function JsonView(node: WriteNode): HeaderEntry
  {
    match node
    case Dir(files) =>
      if files == map[] then FileEntry("", None, None, false)
      else DirEntry(map name | name in files :: JsonView(files[name]))
    case File(offset, size, unpacked) =>
      FileEntry(offset, if size == 0 then None else Some(size), None, unpacked)
  }

  // ----- flattening the decoded tree -----

  predicate BadChildName(name: string)
  {
    '/' in name || '\\' in name || name == "." || name == ".."
  }

  function FileOffset(entry: HeaderEntry): Option<int>
    requires entry.FileEntry?
  {
    if entry.unpacked then Some(0)
    else match ParseInt(entry.offset)
      case None => None
      case Some(offset) => if offset < 0 then None else Some(offset)
  }

  /** appendHeaderEntry reports an error on this subtree, wherever it starts. */
  ghost predicate Fails(path: string, entry: HeaderEntry)
    decreases entry
  {
    var here := NormalizeInnerPath(path);
    here == "" ||
    match entry
    case DirEntry(files) =>
      exists name :: name in files && (BadChildName(name) || Fails(JoinPath(here, name), files[name]))
    case FileEntry(_, size, _, _) => size.None? || FileOffset(entry).None?
  }

  /** The entries appendHeaderEntry appends for this subtree. */
  ghost function Flat(path: string, entry: HeaderEntry): set<Entry>
    decreases entry
  {
    var here := NormalizeInnerPath(path);
    match entry
    case DirEntry(files) =>
      {Entry(here, 0, 0, 0, true, false)} +
      set name, e | name in files && e in Flat(JoinPath(here, name), files[name]) :: e
    case FileEntry(_, size, mode, unpacked) =>
      if size.None? || FileOffset(entry).None? then {}
      else {Entry(here, FileOffset(entry).value, size.value, if mode.Some? then mode.value else 0, false, unpacked)}
  }

  /** appendHeaderEntry: depth first, the children in any order. */
  method AppendHeaderEntry(entries: seq<Entry>, path: string, entry: HeaderEntry) returns (ok: bool, out: seq<Entry>)
    ensures ok <==> !Fails(path, entry)
    ensures ok ==> forall e :: e in out <==> e in entries || e in Flat(path, entry)
    decreases entry
  {
    var here := NormalizeInnerPath(path);
    if here == "" { return false, entries; }
    match entry
    case DirEntry(files) =>
      out := entries + [Entry(here, 0, 0, 0, true, false)];
      var rest := files.Keys;
      while rest != {}
        invariant rest <= files.Keys
        invariant forall name :: name in files && name !in rest ==>
          !BadChildName(name) && !Fails(JoinPath(here, name), files[name])
        invariant forall e :: e in out <==>
          (e in entries || e == Entry(here, 0, 0, 0, true, false) ||
           exists name :: name in files && name !in rest && e in Flat(JoinPath(here, name), files[name]))
        decreases rest
      {
        var name :| name in rest;
        if BadChildName(name) { return false, out; }
        ghost var before := out;
        ok, out := AppendHeaderEntry(out, JoinPath(here, name), files[name]);
        if !ok { return; }
        rest := rest - {name};
      }
      ok := true;
    case FileEntry(offset, size, mode, unpacked) =>
      if size.None? || FileOffset(entry).None? { return false, entries; }
      out := entries + [Entry(here, FileOffset(entry).value, size.value, if mode.Some? then mode.value else 0, false, unpacked)];
      ok := true;
  }

  // ----- flattening a written tree -----

  function EntryOf(path: seq<string>, kind: Kind): Entry
    requires !kind.Missing?
  {
    match kind
    case Folder => Entry(Join(path, '/'), 0, 0, 0, true, false)
    case Leaf(offset, size, unpacked) =>
      var parsed := ParseInt(offset);
      Entry(Join(path, '/'), if unpacked || parsed.None? then 0 else parsed.value, size, 0, false, unpacked)
  }

  ghost predicate HasChild(node: WriteNode, q: seq<string>)
  {
    exists name :: !Look(node, q + [name]).Missing?
  }

  /** Everything below is a non-empty file with a readable offset or a non-empty
      folder, under steady names. */
  ghost predicate TidyAt(prefix: seq<string>, node: WriteNode, q: seq<string>)
  {
    match Look(node, q)
    case Missing => true
    case Folder => ValidParts(prefix + q) && Steady(prefix + q) && HasChild(node, q)
    case Leaf(offset, size, unpacked) =>
      && ValidParts(prefix + q) && Steady(prefix + q)
      && size > 0 && (unpacked || (ParseInt(offset).Some? && ParseInt(offset).value >= 0))
  }

  ghost predicate Tidy(prefix: seq<string>, node: WriteNode)
  {
    forall q :: TidyAt(prefix, node, q)
  }

  lemma TidyChild(prefix: seq<string>, node: WriteNode, name: string)
    requires Tidy(prefix, node) && node.Dir? && name in node.files
    ensures Tidy(prefix + [name], node.files[name])
    ensures ValidParts(prefix + [name]) && Steady(prefix + [name])
  {
    var child := node.files[name];
    forall q
      ensures TidyAt(prefix + [name], child, q)
    {
      var r := [name] + q;
      assert r[1..] == q && prefix + [name] + q == prefix + r;
      assert TidyAt(prefix, node, r);
      if Look(child, q).Folder? {
        var n :| !Look(node, r + [n]).Missing?;
        assert (r + [n])[1..] == q + [n];
      }
    }
    assert TidyAt(prefix + [name], child, []);
    assert prefix + [name] + [] == prefix + [name];
  }

  /** `e` describes some path of the tree. */
  ghost predicate Yields(prefix: seq<string>, node: WriteNode, e: Entry)
  {
    exists q :: !Look(node, q).Missing? && e == EntryOf(prefix + q, Look(node, q))
  }

  lemma YieldsOfFolder(prefix: seq<string>, node: WriteNode, e: Entry)
    requires node.Dir?
    ensures Yields(prefix, node, e) <==>
      (e == EntryOf(prefix, Folder) || exists name :: name in node.files && Yields(prefix + [name], node.files[name], e))
  {
    assert prefix + [] == prefix && Look(node, []) == Folder;
    if Yields(prefix, node, e) && e != EntryOf(prefix, Folder) {
      var q :| !Look(node, q).Missing? && e == EntryOf(prefix + q, Look(node, q));
      assert q != [];
      assert prefix + [q[0]] + q[1..] == prefix + q;
      assert Yields(prefix + [q[0]], node.files[q[0]], e);
    }
    if name :| name in node.files && Yields(prefix + [name], node.files[name], e) {
      var q :| !Look(node.files[name], q).Missing? && e == EntryOf(prefix + [name] + q, Look(node.files[name], q));
      var r := [name] + q;
      assert r[1..] == q && prefix + r == prefix + [name] + q;
      assert Look(node, r) == Look(node.files[name], q);
    }
  }

  ghost predicate FlattensTo(path: string, prefix: seq<string>, node: WriteNode)
  {
    !Fails(path, JsonView(node)) &&
    forall e :: e in Flat(path, JsonView(node)) <==> Yields(prefix, node, e)
  }

  /** Opening a tidy tree succeeds and yields exactly one entry per path in it. */
  lemma {:induction false} FlatOfTidy(prefix: seq<string>, node: WriteNode)
    requires |prefix| >= 1 && Tidy(prefix, node)
    ensures FlattensTo(Join(prefix, '/'), prefix, node)
    decreases node
  {
    var path := Join(prefix, '/');
    assert TidyAt(prefix, node, []);
    assert prefix + [] == prefix;
    NormalizeJoin(prefix);
    JoinEnds(prefix);
    if node.File? {
      assert Look(node, []) == KindOf(node);
    } else {
      var first :| !Look(node, [] + [first]).Missing?;
      assert first in node.files;
      forall name | name in node.files
        ensures !BadChildName(name) && FlattensTo(JoinPath(path, name), prefix + [name], node.files[name])
      {
        TidyChild(prefix, node, name);
        assert PlainName((prefix + [name])[|prefix|]);
        JoinPathSnoc(prefix, name);
        FlatOfTidy(prefix + [name], node.files[name]);
      }
      FolderDoesNotFail(path, node);
      forall e
        ensures e in Flat(path, JsonView(node)) <==> Yields(prefix, node, e)
      {
        FlatOfFolderAt(path, prefix, node, e);
      }
    }
  }

  lemma FlatOfDirEntry(path: string, files: map<string, HeaderEntry>, e: Entry)
    requires NormalizeInnerPath(path) == path
    ensures e in Flat(path, DirEntry(files)) <==>
      (e == Entry(path, 0, 0, 0, true, false) || exists name :: name in files && e in Flat(JoinPath(path, name), files[name]))
  {
  }

  lemma FlatOfFolderAt(path: string, prefix: seq<string>, node: WriteNode, e: Entry)
    requires node.Dir? && node.files != map[] && path == Join(prefix, '/') && NormalizeInnerPath(path) == path
    requires forall name :: name in node.files ==>
      (e in Flat(JoinPath(path, name), JsonView(node.files[name])) <==> Yields(prefix + [name], node.files[name], e))
    ensures e in Flat(path, JsonView(node)) <==> Yields(prefix, node, e)
  {
    YieldsOfFolder(prefix, node, e);
    var files := map name | name in node.files :: JsonView(node.files[name]);
    assert JsonView(node) == DirEntry(files);
    FlatOfDirEntry(path, files, e);
  }

  lemma FolderDoesNotFail(path: string, node: WriteNode)
    requires node.Dir? && node.files != map[] && path != "" && NormalizeInnerPath(path) == path
    requires forall name :: name in node.files ==>
      !BadChildName(name) && !Fails(JoinPath(path, name), JsonView(node.files[name]))
    ensures !Fails(path, JsonView(node))
  {
  }

  // ----- what a written tree loses on the way back -----

  /** A file of size zero makes opening fail, from whatever folder it hangs. */
  lemma {:induction false} EmptyFileFails(path: string, node: WriteNode, q: seq<string>)
    requires Look(node, q).Leaf? && Look(node, q).size == 0
    ensures Fails(path, JsonView(node))
    decreases |q|
  {
    if q != [] {
      EmptyFileFails(JoinPath(NormalizeInnerPath(path), q[0]), node.files[q[0]], q[1..]);
      var files := map name | name in node.files :: JsonView(node.files[name]);
      assert JsonView(node) == DirEntry(files) && q[0] in files;
    }
  }

  ghost predicate Slashless(node: WriteNode)
  {
    forall q, i :: !Look(node, q).Missing? && 0 <= i < |q| ==> '/' !in q[i]
  }

  /** No entry of a written tree has a component ending in white space. */
  lemma {:induction false} FlatIsSteady(path: string, node: WriteNode, e: Entry)
    requires Slashless(node) && Steady(Split(NormalizeInnerPath(path), '/'))
    requires e in Flat(path, JsonView(node))
    ensures Steady(Split(e.path, '/'))
    decreases node
  {
    var here := NormalizeInnerPath(path);
    if node.Dir? && node.files != map[] && e.path != here {
      var files := map name | name in node.files :: JsonView(node.files[name]);
      assert JsonView(node) == DirEntry(files);
      var name :| name in files && e in Flat(JoinPath(here, name), files[name]);
      SlashlessChild(node, name);
      EntryPathSteady(here, name);
      FlatIsSteady(JoinPath(here, name), node.files[name], e);
    }
  }

  lemma SlashlessChild(node: WriteNode, name: string)
    requires Slashless(node) && node.Dir? && name in node.files
    ensures '/' !in name && Slashless(node.files[name])
  {
    assert !Look(node, [name]).Missing? && '/' !in [name][0];
    forall q, i | !Look(node.files[name], q).Missing? && 0 <= i < |q|
      ensures '/' !in q[i]
    {
      var r := [name] + q;
      assert r[1..] == q && !Look(node, r).Missing? && '/' !in r[i + 1];
    }
  }
}
