/** Path normalisation inside an archive (internal/asar/archive.go:262-270):
    a lexical model of filepath.Clean and of normalizeInnerPath on slash paths. */
module AsarPaths {
  import opened Text

  /** filepath.Clean works through the pieces with a stack of kept ones. */
  function CleanParts(parts: seq<string>, stack: seq<string>, rooted: bool): seq<string>
  {
    if parts == [] then stack
    else if parts[0] == "" || parts[0] == "." then CleanParts(parts[1..], stack, rooted)
    else if parts[0] != ".." then CleanParts(parts[1..], stack + [parts[0]], rooted)
    else if stack != [] && stack[|stack| - 1] != ".." then CleanParts(parts[1..], stack[..|stack| - 1], rooted)
    else CleanParts(parts[1..], if rooted then stack else stack + [".."], rooted)
  }

  function Clean(path: string): string
  {
    var rooted := "/" <= path;
    var kept := Join(CleanParts(Split(path, '/'), [], rooted), '/');
    if rooted then "/" + kept else if kept == "" then "." else kept
  }

  /** filepath.Join of a non-empty directory and a name. */
  function JoinPath(dir: string, name: string): string
  {
    Clean(dir + ['/'] + name)
  }

  function NormalizeInnerPath(path: string): string
  {
    var cleaned := Clean(TrimPrefix(TrimSpace(path), "/"));
    if cleaned == "." then "" else cleaned
  }

  /** A component addHeaderWriteFile accepts (lines 403-405). */
  predicate PlainName(name: string)
  {
    name != "" && name != "." && name != ".." && '/' !in name && '\\' !in name
  }

  predicate EndsInSpace(s: string)
  {
    s != "" && IsSpace(s[|s| - 1])
  }

  /** The components of an inner path: plain, and no white space in front. */
  predicate ValidParts(parts: seq<string>)
  {
    && |parts| >= 1
    && (forall i :: 0 <= i < |parts| ==> PlainName(parts[i]))
    && !IsSpace(parts[0][0])
  }

  /** No component ends in white space. */
  predicate Steady(parts: seq<string>)
  {
    forall i :: 0 <= i < |parts| ==> !EndsInSpace(parts[i])
  }

  // ----- canonical paths are fixed points -----

  lemma {:induction false} JoinEnds(parts: seq<string>)
    requires ValidParts(parts)
    ensures
      var s := Join(parts, '/');
      var last := parts[|parts| - 1];
      s != "" && s[0] == parts[0][0] && s[|s| - 1] == last[|last| - 1]
  {
    if |parts| > 1 {
      JoinSnoc(parts[..|parts| - 1], parts[|parts| - 1], '/');
      assert parts[..|parts| - 1] + [parts[|parts| - 1]] == parts;
    }
  }

  lemma {:induction false} CleanPartsPlain(parts: seq<string>, stack: seq<string>, rooted: bool)
    requires forall i :: 0 <= i < |parts| ==> PlainName(parts[i])
    ensures CleanParts(parts, stack, rooted) == stack + parts
  {
    if parts != [] {
      CleanPartsPlain(parts[1..], stack + [parts[0]], rooted);
      assert stack + [parts[0]] + parts[1..] == stack + parts;
    } else {
      assert stack + parts == stack;
    }
  }

  lemma CleanJoin(parts: seq<string>)
    requires ValidParts(parts)
    ensures Clean(Join(parts, '/')) == Join(parts, '/')
  {
    JoinEnds(parts);
    SplitJoin(parts, '/');
    CleanPartsPlain(parts, [], false);
    assert [] + parts == parts;
    assert parts[0][0] != '/';
  }

  /** Normalising leaves a canonical inner path alone. */
  lemma NormalizeJoin(parts: seq<string>)
    requires ValidParts(parts) && !EndsInSpace(parts[|parts| - 1])
    ensures NormalizeInnerPath(Join(parts, '/')) == Join(parts, '/')
  {
    JoinEnds(parts);
    CleanJoin(parts);
    assert parts[0][0] != '/';
    if Join(parts, '/') == "." {
      SplitJoin(parts, '/');
      SplitPiece(".", '/');
    }
  }

  /** Joining a name to a canonical directory appends one component. */
  lemma JoinPathSnoc(parts: seq<string>, name: string)
    requires ValidParts(parts + [name]) && |parts| >= 1
    ensures JoinPath(Join(parts, '/'), name) == Join(parts + [name], '/')
  {
    JoinSnoc(parts, name, '/');
    CleanJoin(parts + [name]);
  }

  // ----- normalised entry paths never hold a component ending in white space -----

  /** Every component but the last is free of trailing white space. */
  predicate SteadyButLast(parts: seq<string>)
  {
    forall i :: 0 <= i < |parts| - 1 ==> !EndsInSpace(parts[i])
  }

  lemma {:induction false} CleanPartsSteady(parts: seq<string>, stack: seq<string>, rooted: bool)
    requires Steady(stack)
    ensures SteadyButLast(parts) ==> SteadyButLast(CleanParts(parts, stack, rooted))
    ensures Steady(parts) ==> Steady(CleanParts(parts, stack, rooted))
  {
    if parts != [] && SteadyButLast(parts) {
      if parts[0] == "" || parts[0] == "." {
        CleanPartsSteady(parts[1..], stack, rooted);
      } else if parts[0] != ".." {
        if !EndsInSpace(parts[0]) {
          CleanPartsSteady(parts[1..], stack + [parts[0]], rooted);
        } else {
          assert parts[1..] == [];
        }
      } else if stack != [] && stack[|stack| - 1] != ".." {
        CleanPartsSteady(parts[1..], stack[..|stack| - 1], rooted);
      } else {
        CleanPartsSteady(parts[1..], if rooted then stack else stack + [".."], rooted);
      }
    }
  }

  lemma {:induction false} CleanPartsNoSlash(parts: seq<string>, stack: seq<string>, rooted: bool)
    requires forall i :: 0 <= i < |parts| ==> '/' !in parts[i]
    requires forall i :: 0 <= i < |stack| ==> '/' !in stack[i]
    ensures forall i :: 0 <= i < |CleanParts(parts, stack, rooted)| ==> '/' !in CleanParts(parts, stack, rooted)[i]
  {
    if parts != [] {
      if parts[0] == "" || parts[0] == "." {
        CleanPartsNoSlash(parts[1..], stack, rooted);
      } else if parts[0] != ".." {
        CleanPartsNoSlash(parts[1..], stack + [parts[0]], rooted);
      } else if stack != [] && stack[|stack| - 1] != ".." {
        CleanPartsNoSlash(parts[1..], stack[..|stack| - 1], rooted);
      } else {
        CleanPartsNoSlash(parts[1..], if rooted then stack else stack + [".."], rooted);
      }
    }
  }

  /** The pieces of a cleaned path: the kept ones, after an empty one when rooted. */
  lemma SplitClean(path: string)
    ensures
      var rooted := "/" <= path;
      var kept := CleanParts(Split(path, '/'), [], rooted);
      && (kept == [] && !rooted ==> Split(Clean(path), '/') == ["."])
      && (kept == [] && rooted ==> Split(Clean(path), '/') == ["", ""])
      && (kept != [] && !rooted && Join(kept, '/') != "" ==> Split(Clean(path), '/') == kept)
      && (kept != [] && rooted ==> Split(Clean(path), '/') == [""] + kept)
  {
    var rooted := "/" <= path;
    var kept := CleanParts(Split(path, '/'), [], rooted);
    CleanPartsNoSlash(Split(path, '/'), [], rooted);
    SplitPiece("", '/');
    SplitPiece(".", '/');
    if kept != [] { SplitJoin(kept, '/'); }
    SplitAfterPiece("", Join(kept, '/'), '/');
    assert "" + ['/'] + Join(kept, '/') == "/" + Join(kept, '/');
  }

  lemma CleanSteady(path: string)
    ensures SteadyButLast(Split(path, '/')) ==> SteadyButLast(Split(Clean(path), '/'))
    ensures Steady(Split(path, '/')) ==> Steady(Split(Clean(path), '/'))
  {
    CleanPartsSteady(Split(path, '/'), [], "/" <= path);
    SplitClean(path);
    SplitPiece(".", '/');
  }

  /** Dropping a trailing space shortens the last piece only. */
  lemma {:induction false} SplitDropLast(s: string)
    requires s != "" && s[|s| - 1] != '/'
    ensures
      var parts := Split(s, '/');
      var last := parts[|parts| - 1];
      && last != "" && last[|last| - 1] == s[|s| - 1]
      && Split(s[..|s| - 1], '/') == parts[..|parts| - 1] + [last[..|last| - 1]]
  {
    var parts := Split(s, '/');
    JoinSplit(s, '/');
    var front, last := parts[..|parts| - 1], parts[|parts| - 1];
    if front == [] {
      assert parts == [last];
      SplitPiece(s[..|s| - 1], '/');
    } else {
      JoinSnoc(front, last, '/');
      assert front + [last] == parts;
      assert s == Join(front, '/') + ['/'] + last;
      JoinSnoc(front, last[..|last| - 1], '/');
      assert s[..|s| - 1] == Join(front, '/') + ['/'] + last[..|last| - 1];
      assert last == last[..|last| - 1] + [last[|last| - 1]];
      var pieces := front + [last[..|last| - 1]];
      forall i | 0 <= i < |pieces| ensures '/' !in pieces[i] { assert i < |front| ==> pieces[i] == parts[i]; }
      SplitJoin(pieces, '/');
    }
  }

  lemma {:induction false} TrimRightSteady(s: string)
    requires SteadyButLast(Split(s, '/'))
    ensures Steady(Split(TrimRight(s), '/'))
  {
    var parts := Split(s, '/');
    if s == "" {
    } else if s[|s| - 1] == '/' {
      JoinSplit(s, '/');
      if EndsInSpace(parts[|parts| - 1]) {
        LastCharOfLastPiece(s);
      }
    } else {
      SplitDropLast(s);
      if IsSpace(s[|s| - 1]) {
        TrimRightSteady(s[..|s| - 1]);
      }
    }
  }

  lemma LastCharOfLastPiece(s: string)
    requires s != ""
    ensures
      var parts := Split(s, '/');
      var last := parts[|parts| - 1];
      last != "" ==> last[|last| - 1] == s[|s| - 1]
  {
    var parts := Split(s, '/');
    JoinSplit(s, '/');
    if |parts| > 1 {
      JoinSnoc(parts[..|parts| - 1], parts[|parts| - 1], '/');
      assert parts[..|parts| - 1] + [parts[|parts| - 1]] == parts;
    }
  }

  lemma {:induction false} TrimLeftSteady(s: string)
    requires SteadyButLast(Split(s, '/'))
    ensures SteadyButLast(Split(TrimLeft(s), '/'))
  {
    if s != "" && IsSpace(s[0]) {
      var rest := Split(s[1..], '/');
      assert forall i :: 0 <= i < |rest| - 1 ==> EndsInSpace(rest[i]) ==> EndsInSpace(Split(s, '/')[i]);
      TrimLeftSteady(s[1..]);
    }
  }

  /** Whatever the header holds, the path of an entry below a steady directory is
      steady: trailing white space in a component cannot survive Open. */
  lemma EntryPathSteady(dir: string, name: string)
    requires '/' !in name
    ensures Steady(Split(dir, '/')) ==> Steady(Split(NormalizeInnerPath(JoinPath(dir, name)), '/'))
    ensures Steady(Split(NormalizeInnerPath(name), '/'))
  {
    SplitPiece(name, '/');
    NormalizeSteady(name);
    if Steady(Split(dir, '/')) {
      SplitAppend(dir, name);
      CleanSteady(dir + ['/'] + name);
      NormalizeSteady(JoinPath(dir, name));
    }
  }

  lemma SplitAppend(dir: string, name: string)
    requires '/' !in name
    ensures Split(dir + ['/'] + name, '/') == Split(dir, '/') + [name]
  {
    SplitConcat(dir, name, '/');
    SplitPiece(name, '/');
  }

  lemma NormalizeSteady(path: string)
    requires SteadyButLast(Split(path, '/'))
    ensures Steady(Split(NormalizeInnerPath(path), '/'))
  {
    TrimLeftSteady(path);
    TrimRightSteady(TrimLeft(path));
    var trimmed := TrimSpace(path);
    if "/" <= trimmed {
      assert trimmed == "" + ['/'] + trimmed[1..];
      SplitAfterPiece("", trimmed[1..], '/');
      assert forall i :: 0 <= i < |Split(trimmed[1..], '/')| ==> Split(trimmed[1..], '/')[i] == Split(trimmed, '/')[i + 1];
    }
    CleanSteady(TrimPrefix(trimmed, "/"));
    SplitPiece("", '/');
  }

  // ----- paths built while flattening are fixed points of the normalizer -----

  /** What Clean keeps of a relative path: no empty or "." piece, ".." in front only. */
  predicate KeptParts(parts: seq<string>)
  {
    forall i :: 0 <= i < |parts| ==>
      && parts[i] != "" && parts[i] != "." && '/' !in parts[i]
      && (parts[i] == ".." ==> forall j :: 0 <= j < i ==> parts[j] == "..")
  }

  /** A clean relative path that does not start with white space. */
  predicate GoodPath(p: string)
  {
    p != "" && !IsSpace(p[0]) && KeptParts(Split(p, '/'))
  }

  lemma {:induction false} CleanPartsOfKept(parts: seq<string>, stack: seq<string>)
    requires KeptParts(stack + parts)
    ensures CleanParts(parts, stack, false) == stack + parts
  {
    if parts == [] {
      assert stack + parts == stack;
    } else {
      var all := stack + parts;
      assert all[|stack|] == parts[0];
      if parts[0] == ".." && stack != [] { assert all[|stack| - 1] == ".."; }
      assert stack + [parts[0]] + parts[1..] == all;
      CleanPartsOfKept(parts[1..], stack + [parts[0]]);
    }
  }

  /** The stack carries over from one run of pieces to the next. */
  lemma {:induction false} CleanPartsConcat(a: seq<string>, b: seq<string>, stack: seq<string>, rooted: bool)
    ensures CleanParts(a + b, stack, rooted) == CleanParts(b, CleanParts(a, stack, rooted), rooted)
  {
    if a == [] {
      assert a + b == b;
    } else {
      assert (a + b)[1..] == a[1..] + b;
      if a[0] == "" || a[0] == "." {
        CleanPartsConcat(a[1..], b, stack, rooted);
      } else if a[0] != ".." {
        CleanPartsConcat(a[1..], b, stack + [a[0]], rooted);
      } else if stack != [] && stack[|stack| - 1] != ".." {
        CleanPartsConcat(a[1..], b, stack[..|stack| - 1], rooted);
      } else {
        CleanPartsConcat(a[1..], b, if rooted then stack else stack + [".."], rooted);
      }
    }
  }

  /** One more piece is kept, skipped or takes the last one away. */
  lemma StepKeeps(front: seq<string>, piece: string)
    requires KeptParts(front) && '/' !in piece
    ensures
      var k := CleanParts([piece], front, false);
      KeptParts(k) && (k == [] || (front != [] && k[0] == front[0]) || (front == [] && k == [piece]))
  {
    var none := [piece][1..];
    assert none == [];
    if piece == "" || piece == "." {
      assert CleanParts(none, front, false) == front;
    } else if piece != ".." || front == [] || front[|front| - 1] == ".." {
      assert CleanParts(none, front + [piece], false) == front + [piece];
    } else {
      assert CleanParts(none, front[..|front| - 1], false) == front[..|front| - 1];
    }
  }

  lemma FirstPiece(t: string)
    requires t != "" && t[0] != '/'
    ensures Split(t, '/')[0] != "" && Split(t, '/')[0][0] == t[0]
  {
  }

  /** Cleaning a path that is clean up to its last piece. */
  lemma CleanOfStep(t: string, front: seq<string>, piece: string)
    requires t != "" && !IsSpace(t[0]) && t[0] != '/' && Split(t, '/') == front + [piece] && KeptParts(front)
    ensures Clean(t) == "." || GoodPath(Clean(t))
  {
    assert piece == Split(t, '/')[|front|];
    var k := CleanParts([piece], front, false);
    StepKeeps(front, piece);
    CleanPartsConcat(front, [piece], [], false);
    CleanPartsOfKept(front, []);
    assert [] + front == front;
    if k != [] {
      FirstPiece(t);
      assert Split(t, '/')[0] == if front != [] then front[0] else piece;
      SplitJoin(k, '/');
      assert Clean(t) == Join(k, '/') && Join(k, '/')[0] == k[0][0];
    }
  }

  /** Trimming on the right changes the last piece only. */
  lemma {:induction false} TrimRightParts(s: string) returns (piece: string)
    ensures
      var parts := Split(s, '/');
      Split(TrimRight(s), '/') == parts[..|parts| - 1] + [piece]
  {
    var parts := Split(s, '/');
    piece := parts[|parts| - 1];
    if s != "" && IsSpace(s[|s| - 1]) {
      SplitDropLast(s);
      piece := TrimRightParts(s[..|s| - 1]);
    }
  }

  lemma NormalizeGood(y: string)
    requires GoodPath(y)
    ensures NormalizeInnerPath(y) == "" || GoodPath(NormalizeInnerPath(y))
  {
    var parts := Split(y, '/');
    FirstCharIsNoSlash(y);
    TrimRightShape(y);
    KeepsFront(y);
    var piece := TrimRightParts(y);
    CleanOfStep(TrimRight(y), parts[..|parts| - 1], piece);
  }

  lemma FirstCharIsNoSlash(p: string)
    requires GoodPath(p)
    ensures p[0] != '/' && !("/" <= p)
  {
    var first := Split(p, '/')[0];
    assert first != "";
  }

  lemma {:induction false} KeepsFront(s: string)
    requires s != "" && !IsSpace(s[0])
    ensures TrimRight(s) != "" && TrimRight(s)[0] == s[0]
  {
    if IsSpace(s[|s| - 1]) { KeepsFront(s[..|s| - 1]); }
  }

  lemma DotIsNothing()
    ensures NormalizeInnerPath(".") == "" && NormalizeInnerPath("") == ""
  {
    TrimOfTrimmed(".");
    TrimOfTrimmed("");
    SplitPiece(".", '/');
    SplitPiece("", '/');
    assert CleanParts(["."], [], false) == [] && CleanParts([""], [], false) == [];
  }

  /** Below a good directory every path is good, or nothing. */
  lemma EntryPathGood(here: string, name: string)
    requires GoodPath(here) && '/' !in name
    ensures
      var x := NormalizeInnerPath(JoinPath(here, name));
      x == "" || GoodPath(x)
  {
    FirstCharIsNoSlash(here);
    SplitAppend(here, name);
    CleanOfStep(here + ['/'] + name, Split(here, '/'), name);
    DotIsNothing();
    if JoinPath(here, name) != "." { NormalizeGood(JoinPath(here, name)); }
  }

  lemma RootPathGood(name: string)
    requires '/' !in name
    ensures NormalizeInnerPath(name) == "" || GoodPath(NormalizeInnerPath(name))
  {
    var t := TrimSpace(name);
    TrimSpaceIsTrimmed(name);
    DotIsNothing();
    if t == "" {
      TrimOfTrimmed("");
    } else {
      assert t[0] in t && t[0] in name;
      SplitPiece(t, '/');
      CleanOfStep(t, [], t);
    }
  }

  /** Good paths without trailing white space in a component are fixed points. */
  lemma GoodIsNormal(p: string)
    requires GoodPath(p) && Steady(Split(p, '/'))
    ensures NormalizeInnerPath(p) == p
  {
    var parts := Split(p, '/');
    FirstCharIsNoSlash(p);
    LastCharOfLastPiece(p);
    TrimOfTrimmed(p);
    CleanPartsOfKept(parts, []);
    assert [] + parts == parts;
    JoinSplit(p, '/');
    if p == "." { SplitPiece(".", '/'); }
  }
}
