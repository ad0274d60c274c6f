/** Which spellings of a path reach an entry (internal/asar/archive.go:178-184, 213-246,
    262-270): blanks around, one slash in front, and pieces that lead nowhere. */
module AsarSpellings {
  import opened Wrappers
  import opened Text
  import opened AsarPickle
  import opened AsarPaths
  import opened AsarHeader
  import opened Asar
  import opened AsarRoundTrip

  // ----- pieces that lead nowhere -----

  /** q is p without an empty piece or "." at i, or without a name at i and the ".."
      behind it. */
  predicate ErasesAt(p: seq<string>, q: seq<string>, i: nat)
  {
    || (i < |p| && (p[i] == "" || p[i] == ".") && q == p[..i] + p[i + 1..])
    || (i + 1 < |p| && p[i] != "" && p[i] != "." && p[i] != ".." && p[i + 1] == ".." && q == p[..i] + p[i + 2..])
  }

  ghost predicate Erases(p: seq<string>, q: seq<string>)
  {
    exists i :: ErasesAt(p, q, i)
  }

  ghost predicate Reduces(p: seq<string>, q: seq<string>, n: nat)
  {
    if n == 0 then p == q else exists r :: Erases(p, r) && Reduces(r, q, n - 1)
  }

  lemma ErasingKeeps(p: seq<string>, q: seq<string>, i: nat)
    requires ErasesAt(p, q, i)
    ensures CleanParts(p, [], false) == CleanParts(q, [], false)
  {
    var stack := CleanParts(p[..i], [], false);
    assert p == p[..i] + p[i..];
    CleanPartsConcat(p[..i], p[i..], [], false);
    assert p[i..][1..] == p[i + 1..];
    if p[i] == "" || p[i] == "." {
      CleanPartsConcat(p[..i], p[i + 1..], [], false);
    } else {
      CleanPartsConcat(p[..i], p[i + 2..], [], false);
      assert p[i + 1..][1..] == p[i + 2..];
      assert (stack + [p[i]])[..|stack|] == stack;
    }
  }

  lemma {:induction false} ReducingKeeps(p: seq<string>, q: seq<string>, n: nat)
    requires Reduces(p, q, n)
    ensures CleanParts(p, [], false) == CleanParts(q, [], false)
  {
    if n > 0 {
      var r :| Erases(p, r) && Reduces(r, q, n - 1);
      var i :| ErasesAt(p, r, i);
      ErasingKeeps(p, r, i);
      ReducingKeeps(r, q, n - 1);
    }
  }

  ghost predicate ComesDownTo(p: seq<string>, q: seq<string>)
  {
    exists n :: Reduces(p, q, n)
  }

  lemma StartsEqual(p: seq<string>)
    ensures ComesDownTo(p, p)
  {
    assert Reduces(p, p, 0);
  }

  lemma ComesDownBefore(p: seq<string>, r: seq<string>, q: seq<string>)
    requires (p == r || Erases(p, r)) && ComesDownTo(r, q)
    ensures ComesDownTo(p, q)
  {
    var n: nat :| Reduces(r, q, n);
    if p != r { assert Reduces(p, q, n + 1); }
  }

  /** The stack after one more piece. */
  function Stacked(stack: seq<string>, piece: string): seq<string>
  {
    if piece == "" || piece == "." then stack
    else if piece == ".." && stack != [] && stack[|stack| - 1] != ".." then stack[..|stack| - 1]
    else stack + [piece]
  }

  lemma StackedKeeps(stack: seq<string>, piece: string)
    requires KeptParts(stack) && '/' !in piece
    ensures KeptParts(Stacked(stack, piece))
  {
  }

  lemma SkippedIsErased(stack: seq<string>, piece: string, rest: seq<string>)
    requires piece == "" || piece == "."
    ensures Erases(stack + ([piece] + rest), stack + rest)
  {
    var all := stack + ([piece] + rest);
    assert all[..|stack|] == stack && all[|stack| + 1..] == rest;
    assert ErasesAt(all, stack + rest, |stack|);
  }

  lemma BackIsErased(front: seq<string>, name: string, rest: seq<string>)
    requires name != "" && name != "." && name != ".."
    ensures Erases(front + ([name, ".."] + rest), front + rest)
  {
    var all := front + ([name, ".."] + rest);
    assert all[..|front|] == front && all[|front| + 2..] == rest;
    assert ErasesAt(all, front + rest, |front|);
  }

  /** One piece of cleaning erases it, or erases it together with the one before, or
      leaves the pieces as they are. */
  lemma StackingErases(stack: seq<string>, piece: string, rest: seq<string>)
    requires KeptParts(stack)
    ensures
      var all, next := stack + ([piece] + rest), Stacked(stack, piece) + rest;
      next == all || Erases(all, next)
  {
    if piece == "" || piece == "." {
      SkippedIsErased(stack, piece, rest);
    } else if piece == ".." && stack != [] && stack[|stack| - 1] != ".." {
      var front, name := stack[..|stack| - 1], stack[|stack| - 1];
      assert stack + ([piece] + rest) == front + ([name, ".."] + rest);
      BackIsErased(front, name, rest);
    } else {
      assert stack + [piece] + rest == stack + ([piece] + rest);
    }
  }

  /** Cleaning does nothing but erase. */
  lemma {:induction false} CleaningErases(parts: seq<string>, stack: seq<string>)
    requires KeptParts(stack) && forall i :: 0 <= i < |parts| ==> '/' !in parts[i]
    ensures ComesDownTo(stack + parts, CleanParts(parts, stack, false))
    decreases |parts|
  {
    if parts == [] {
      assert stack + parts == stack;
      StartsEqual(stack);
    } else {
      var next, rest := Stacked(stack, parts[0]), parts[1..];
      StackedKeeps(stack, parts[0]);
      CleaningErases(rest, next);
      StackingErases(stack, parts[0], rest);
      CleanStacked(parts, stack);
      assert parts == [parts[0]] + rest;
      ComesDownBefore(stack + parts, next + rest, CleanParts(rest, next, false));
    }
  }

  lemma CleanStacked(parts: seq<string>, stack: seq<string>)
    requires parts != []
    ensures CleanParts(parts, stack, false) == CleanParts(parts[1..], Stacked(stack, parts[0]), false)
  {
  }

  // ----- spellings -----

  /** s is w, perhaps a slash, r and v: blanks outside, and inside pieces that come down
      to those of k. */
  ghost predicate SpelledBy(s: string, k: string, w: string, slash: bool, r: string, v: string)
  {
    && Blank(w) && Blank(v) && s == w + (if slash then "/" else "") + r + v
    && r != "" && r[0] != '/' && (slash || !IsSpace(r[0])) && !IsSpace(r[|r| - 1])
    && ComesDownTo(Split(r, '/'), Split(k, '/'))
  }

  ghost predicate Spells(s: string, k: string)
  {
    exists w, slash, r, v :: SpelledBy(s, k, w, slash, r, v)
  }

  /** What is left to clean once a spelling is trimmed and rid of its slash. */
  lemma SpellingTrims(s: string, k: string, w: string, slash: bool, r: string, v: string)
    requires SpelledBy(s, k, w, slash, r, v)
    ensures TrimPrefix(TrimSpace(s), "/") == r
  {
    var t := (if slash then "/" else "") + r;
    assert s == w + t + v;
    TrimBlanks(w, t, v);
  }

  lemma CleanRelative(r: string, k: string)
    requires !("/" <= r) && KeptParts(Split(k, '/')) && CleanParts(Split(r, '/'), [], false) == Split(k, '/')
    ensures Clean(r) == k && k != "" && k != "."
  {
    JoinSplit(k, '/');
    if k == "." { SplitPiece(".", '/'); }
    if k == "" { SplitPiece("", '/'); }
  }

  /** A path normalizes to k if and only if it spells k. */
  lemma NormalizesExactly(s: string, k: string)
    requires KeptParts(Split(k, '/'))
    ensures NormalizeInnerPath(s) == k <==> Spells(s, k)
  {
    if Spells(s, k) {
      var w, slash, r, v :| SpelledBy(s, k, w, slash, r, v);
      var n :| Reduces(Split(r, '/'), Split(k, '/'), n);
      SpellingTrims(s, k, w, slash, r, v);
      ReducingKeeps(Split(r, '/'), Split(k, '/'), n);
      CleanPartsOfKept(Split(k, '/'), []);
      assert [] + Split(k, '/') == Split(k, '/');
      CleanRelative(r, k);
    }
    if NormalizeInnerPath(s) == k { NormalizedIsSpelled(s, k); }
  }

  lemma NormalizedIsSpelled(s: string, k: string)
    requires KeptParts(Split(k, '/')) && NormalizeInnerPath(s) == k
    ensures Spells(s, k)
  {
    var w := LeftBlanks(s);
    var v := RightBlanks(TrimLeft(s));
    TrimSpaceIsTrimmed(s);
    var t := TrimSpace(s);
    var r := TrimPrefix(t, "/");
    CleanedIsReduced(r, k);
    SlashAndRest(t);
    Respelled(s, k, w, t, v);
  }

  lemma SlashAndRest(t: string)
    ensures t == (if "/" <= t then "/" else "") + TrimPrefix(t, "/")
  {
  }

  lemma Respelled(s: string, k: string, w: string, t: string, v: string)
    requires Blank(w) && Blank(v) && s == w + (t + v) && Trimmed(t)
    requires TrimPrefix(t, "/") != "" && TrimPrefix(t, "/")[0] != '/'
    requires ComesDownTo(Split(TrimPrefix(t, "/"), '/'), Split(k, '/'))
    ensures Spells(s, k)
  {
    var slash, r := "/" <= t, TrimPrefix(t, "/");
    SlashAndRest(t);
    assert w + (t + v) == w + (if slash then "/" else "") + r + v;
    assert SpelledBy(s, k, w, slash, r, v);
  }

  lemma CleanedIsReduced(r: string, k: string)
    requires KeptParts(Split(k, '/')) && (if Clean(r) == "." then "" else Clean(r)) == k
    ensures r != "" && r[0] != '/'
    ensures ComesDownTo(Split(r, '/'), Split(k, '/'))
  {
    SplitPiece("", '/');
    assert k != "" && !("/" <= k);
    if r == "" {
      CleanOfNothing();
      assert false;
    }
    var kept := CleanParts(Split(r, '/'), [], false);
    CleaningErases(Split(r, '/'), []);
    assert [] + Split(r, '/') == Split(r, '/');
    CleanPartsNoSlash(Split(r, '/'), [], false);
    SplitJoin(kept, '/');
  }

  lemma CleanOfNothing()
    ensures Clean("") == "."
  {
    SplitPiece("", '/');
    assert CleanParts([""], [], false) == [];
  }

  // ----- spellings of a name -----

  lemma KeptOfCanonical(k: string)
    requires Canonical(k)
    ensures KeptParts(Split(k, '/'))
  {
  }

  lemma EndsOfCanonical(k: string)
    requires Canonical(k)
    ensures k != "" && k[0] != '/' && !IsSpace(k[0]) && !IsSpace(k[|k| - 1])
  {
    var parts := Split(k, '/');
    JoinSplit(k, '/');
    JoinEnds(parts);
    assert PlainName(parts[0]) && PlainName(parts[|parts| - 1]);
  }

  /** Blanks around it and a slash in front of it spell a name. */
  lemma BlanksAndSlashSpell(k: string, w: string, slash: bool, v: string)
    requires Canonical(k) && Blank(w) && Blank(v)
    ensures Spells(w + (if slash then "/" else "") + k + v, k)
  {
    EndsOfCanonical(k);
    StartsEqual(Split(k, '/'));
    assert SpelledBy(w + (if slash then "/" else "") + k + v, k, w, slash, k, v);
  }

  /** The path r, whose pieces come down to those of k, spells k. */
  lemma DetourSpells(k: string, r: string)
    requires r != "" && r[0] != '/' && !IsSpace(r[0]) && !IsSpace(r[|r| - 1]) && ComesDownTo(Split(r, '/'), Split(k, '/'))
    ensures Spells(r, k)
  {
    assert r == "" + "" + r + "";
    assert SpelledBy(r, k, "", false, r, "");
  }

  lemma DotComesDown(parts: seq<string>)
    ensures ComesDownTo(["."] + parts, parts)
  {
    SkippedIsErased([], ".", parts);
    assert [] + (["."] + parts) == ["."] + parts && [] + parts == parts;
    StartsEqual(parts);
    ComesDownBefore(["."] + parts, parts, parts);
  }

  lemma BackComesDown(d: string, parts: seq<string>)
    requires PlainName(d)
    ensures ComesDownTo([d] + ([".."] + parts), parts)
  {
    var all := [d] + ([".."] + parts);
    assert all[0] == d && all[1] == ".." && all[..0] + all[2..] == parts;
    assert ErasesAt(all, parts, 0);
    StartsEqual(parts);
    ComesDownBefore(all, parts, parts);
  }

  /** A "." in front leads nowhere. */
  lemma DotSpells(k: string)
    requires Canonical(k)
    ensures Spells("." + ['/'] + k, k)
  {
    EndsOfCanonical(k);
    SplitAfterPiece(".", k, '/');
    DotComesDown(Split(k, '/'));
    DetourSpells(k, "." + ['/'] + k);
  }

  /** Nor does a folder that is left at once. */
  lemma BackSpells(k: string, d: string)
    requires Canonical(k) && PlainName(d) && !IsSpace(d[0])
    ensures Spells(d + ['/'] + (".." + ['/'] + k), k)
  {
    EndsOfCanonical(k);
    var back := ".." + ['/'] + k;
    SplitAfterPiece("..", k, '/');
    SplitAfterPiece(d, back, '/');
    BackComesDown(d, Split(k, '/'));
    EndsOfJoined(d, back);
    DetourSpells(k, d + ['/'] + back);
  }

  lemma EndsOfJoined(a: string, b: string)
    requires a != "" && b != ""
    ensures var s := a + ['/'] + b; s[0] == a[0] && s[|s| - 1] == b[|b| - 1]
  {
  }

  // ----- asking an archive -----

  lemma KeysAreKept(a: Archive, file: seq<Byte>, disk: Files, packed: Files, unpacked: Files, k: string)
    requires WellNamed(packed, unpacked) && Restored(a, file, disk, packed, unpacked) && k in a.entries
    ensures KeptParts(Split(k, '/'))
  {
    var names := packed.Keys + unpacked.Keys;
    if k in names {
      KeptOfCanonical(k);
    } else {
      var n :| n in names && k + "/" <= n;
      KeptOfCanonical(n);
      AncestorParts(k, n);
    }
  }

  /** In an archive that holds what was written, a path finds an entry if and only if it
      spells one, and then that entry. */
  lemma StatFindsExactly(a: Archive, file: seq<Byte>, disk: Files, packed: Files, unpacked: Files, s: string)
    requires WellNamed(packed, unpacked) && Restored(a, file, disk, packed, unpacked)
    ensures forall k :: k in a.entries && Spells(s, k) ==> Stat(a, s) == Ok(a.entries[k])
    ensures (forall k :: k in a.entries ==> !Spells(s, k)) ==> Stat(a, s) == Err(EntryNotFound)
  {
    forall k | k in a.entries ensures NormalizeInnerPath(s) == k <==> Spells(s, k) {
      KeysAreKept(a, file, disk, packed, unpacked, k);
      NormalizesExactly(s, k);
    }
  }

  lemma SameKeySameBytes(a: Archive, file: seq<Byte>, disk: Files, s: string, k: string)
    requires SizesOk(a) && NormalizeInnerPath(s) == NormalizeInnerPath(k)
    ensures Stat(a, s) == Stat(a, k) && ReadFile(a, file, disk, s) == ReadFile(a, file, disk, k)
  {
  }

  lemma CanonicalNormalizes(s: string, k: string)
    requires Canonical(k) && Spells(s, k)
    ensures NormalizeInnerPath(s) == NormalizeInnerPath(k)
  {
    KeptOfCanonical(k);
    CanonicalName(k);
    NormalizesExactly(s, k);
  }

  /** Every file reads back byte for byte under every spelling of its name. */
  lemma ReadsUnderEverySpelling(a: Archive, file: seq<Byte>, disk: Files, packed: Files, unpacked: Files, s: string, k: string)
    requires WellNamed(packed, unpacked) && Restored(a, file, disk, packed, unpacked)
    requires k in packed.Keys + unpacked.Keys && Spells(s, k)
    ensures ReadFile(a, file, disk, s) == Ok(if k in packed then packed[k] else unpacked[k])
  {
    CanonicalNormalizes(s, k);
    SameKeySameBytes(a, file, disk, s, k);
    assert k in packed || k in unpacked;
  }

  // ----- writing under another spelling -----

  /** A spelling inserts the file where its name does. */
  lemma AddsUnderEverySpelling(root: WriteNode, s: string, k: string, file: WriteNode)
    requires Canonical(k) && Spells(s, k)
    ensures AddFile(root, s, file) == AddFile(root, k, file)
  {
    CanonicalNormalizes(s, k);
  }

  function Slashed(k: string): string
  {
    "/" + k
  }

  function SlashedNames(names: seq<string>): (r: seq<string>)
    ensures |r| == |names| && forall i :: 0 <= i < |r| ==> r[i] == Slashed(names[i])
  {
    if names == [] then [] else SlashedNames(names[..|names| - 1]) + [Slashed(names[|names| - 1])]
  }

  function SlashedFiles(files: Files): Files
  {
    map s | s in set k | k in files :: Slashed(k) :: files[s[1..]]
  }

  lemma SlashedNormalizes(k: string)
    requires Canonical(k)
    ensures NormalizeInnerPath(Slashed(k)) == NormalizeInnerPath(k)
  {
    BlanksAndSlashSpell(k, "", true, "");
    assert "" + "/" + k + "" == Slashed(k);
    CanonicalNormalizes(Slashed(k), k);
  }

  lemma SlashedIsSame(root: WriteNode, k: string, file: WriteNode)
    requires Canonical(k)
    ensures NormalizeInnerPath(Slashed(k)) == NormalizeInnerPath(k)
    ensures AddFile(root, Slashed(k), file) == AddFile(root, k, file)
  {
    SlashedNormalizes(k);
  }

  lemma SlashedAt(files: Files, k: string)
    requires k in files
    ensures Slashed(k) in SlashedFiles(files) && SlashedFiles(files)[Slashed(k)] == files[k]
  {
    assert Slashed(k)[1..] == k;
  }

  lemma SlashedAreListed(names: seq<string>, files: Files)
    requires Lists(names, files.Keys)
    ensures Lists(SlashedNames(names), SlashedFiles(files).Keys)
    ensures forall i :: 0 <= i < |names| ==> Slashed(names[i]) in SlashedFiles(files)
  {
    var slashed := SlashedNames(names);
    forall i, j | 0 <= i < j < |slashed| ensures Before(slashed[i], slashed[j]) {
      assert slashed[i][1..] == names[i] && slashed[j][1..] == names[j];
    }
    forall i | 0 <= i < |names| ensures Slashed(names[i]) in SlashedFiles(files) {
      assert names[i] in names;
      SlashedAt(files, names[i]);
    }
    forall s | s in SlashedFiles(files) ensures s in slashed {
      var k :| k in files && Slashed(k) == s;
      assert k in names;
      var i :| 0 <= i < |names| && names[i] == k;
      assert slashed[i] == s;
    }
  }

  lemma {:induction false} SlashedPacks(names: seq<string>, files: Files)
    requires forall i :: 0 <= i < |names| ==> names[i] in files && Canonical(names[i])
    requires forall i :: 0 <= i < |names| ==> SlashedNames(names)[i] in SlashedFiles(files)
    ensures Packed(SlashedNames(names), SlashedFiles(files)) == Packed(names, files)
  {
    if names != [] {
      var front, last := names[..|names| - 1], names[|names| - 1];
      assert SlashedNames(names)[..|names| - 1] == SlashedNames(front);
      SlashedPacks(front, files);
      SlashedAt(files, last);
      var b := Packed(front, files);
      if b.Ok? { SlashedIsSame(b.value.root, last, File(Itoa(|b.value.content|), |files[last]|, false)); }
    }
  }

  lemma {:induction false} SlashedUnpacks(names: seq<string>, files: Files, root: WriteNode)
    requires forall i :: 0 <= i < |names| ==> names[i] in files && Canonical(names[i])
    requires forall i :: 0 <= i < |names| ==> SlashedNames(names)[i] in SlashedFiles(files)
    ensures WithUnpacked(SlashedNames(names), SlashedFiles(files), root) == WithUnpacked(names, files, root)
    ensures Beside(SlashedNames(names), SlashedFiles(files)) == Beside(names, files)
  {
    if names != [] {
      var front, last := names[..|names| - 1], names[|names| - 1];
      assert SlashedNames(names)[..|names| - 1] == SlashedNames(front);
      SlashedUnpacks(front, files, root);
      SlashedAt(files, last);
      var r := WithUnpacked(front, files, root);
      SlashedIsSame(if r.Ok? then r.value else root, last, File("", |files[last]|, true));
    }
  }

  /** Writing every file under its name with a slash in front gives the same bytes and
      the same files beside them, in every map order. */
  lemma WritesSlashedTheSame(packed: Files, unpacked: Files, codec: Codec, r: Result<seq<Byte>, Error>, disk: Files,
                             slashed: Result<seq<Byte>, Error>, slashedDisk: Files)
    requires forall k :: k in packed.Keys + unpacked.Keys ==> Canonical(k)
    requires Writes(packed, unpacked, codec, r, disk)
    requires Writes(SlashedFiles(packed), SlashedFiles(unpacked), codec, slashed, slashedDisk)
    ensures slashed == r && (r.Ok? ==> slashedDisk == disk)
  {
    var names, others := ListingsOf(packed, unpacked, codec, r, disk);
    var names', others' := ListingsOf(SlashedFiles(packed), SlashedFiles(unpacked), codec, slashed, slashedDisk);
    SlashedAreListed(names, packed);
    SlashedAreListed(others, unpacked);
    ListingIsUnique(names', SlashedNames(names), SlashedFiles(packed).Keys);
    ListingIsUnique(others', SlashedNames(others), SlashedFiles(unpacked).Keys);
    SlashedWrite(names, others, packed, unpacked, codec);
  }

  lemma SlashedWrite(names: seq<string>, others: seq<string>, packed: Files, unpacked: Files, codec: Codec)
    requires forall i :: 0 <= i < |names| ==> names[i] in packed && Canonical(names[i])
    requires forall i :: 0 <= i < |others| ==> others[i] in unpacked && Canonical(others[i])
    requires forall i :: 0 <= i < |names| ==> SlashedNames(names)[i] in SlashedFiles(packed)
    requires forall i :: 0 <= i < |others| ==> SlashedNames(others)[i] in SlashedFiles(unpacked)
    ensures WriteResult(SlashedNames(names), SlashedNames(others), SlashedFiles(packed), SlashedFiles(unpacked), codec)
      == WriteResult(names, others, packed, unpacked, codec)
    ensures Beside(SlashedNames(others), SlashedFiles(unpacked)) == Beside(others, unpacked)
  {
    SlashedPacks(names, packed);
    var b := Packed(names, packed);
    SlashedUnpacks(others, unpacked, if b.Ok? then b.value.root else Dir(map[]));
  }

  lemma ListingsOf(packed: Files, unpacked: Files, codec: Codec, r: Result<seq<Byte>, Error>, disk: Files)
    returns (names: seq<string>, others: seq<string>)
    requires Writes(packed, unpacked, codec, r, disk)
    ensures Lists(names, packed.Keys) && Lists(others, unpacked.Keys)
    ensures forall i :: 0 <= i < |names| ==> names[i] in packed
    ensures forall i :: 0 <= i < |others| ==> others[i] in unpacked
    ensures r == WriteResult(names, others, packed, unpacked, codec) && (r.Ok? ==> disk == Beside(others, unpacked))
  {
    names, others :|
      && Lists(names, packed.Keys) && Lists(others, unpacked.Keys)
      && r == WriteResult(names, others, packed, unpacked, codec)
      && (r.Ok? ==> disk == Beside(others, unpacked));
    forall i | 0 <= i < |names| ensures names[i] in packed { assert names[i] in names; }
    forall i | 0 <= i < |others| ensures others[i] in unpacked { assert others[i] in others; }
  }
}
