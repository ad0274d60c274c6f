/** Version order and the release check (internal/upstream/releasecheck.go:103-176,
    255-348). */
module Versions {
  import opened Wrappers
  import opened Text

  // ----- parts -----

  /** A part that is empty or not a 64-bit number counts as zero. */
  function PartValue(raw: string): int
  {
    var n := ParseInt(TrimSpace(raw));
    if n.None? then 0 else n.value
  }

  /** The text that is compared: no outer blanks, no leading v, nothing from '-' on. */
  function Core(version: string): string
  {
    Split(TrimPrefix(TrimSpace(version), "v"), '-')[0]
  }

  function Values(raw: seq<string>): (r: seq<int>)
    ensures |r| == |raw| && forall i :: 0 <= i < |raw| ==> r[i] == PartValue(raw[i])
  {
    if raw == [] then [] else [PartValue(raw[0])] + Values(raw[1..])
  }

  function VersionParts(version: string): seq<int>
  {
    Values(Split(Core(version), '.'))
  }

  method ReadPart(raw: string) returns (value: int)
    ensures value == PartValue(raw)
  {
    var part := TrimSpace(raw);
    if part == "" { return 0; }
    var n := ParseInt(part);
    value := if n.None? then 0 else n.value;
  }

  method ReadAll(raw: seq<string>) returns (parts: seq<int>)
    ensures parts == Values(raw)
  {
    ghost var all := Values(raw);
    parts := [];
    for i := 0 to |raw|
      invariant parts == all[..i]
    {
      var value := ReadPart(raw[i]);
      parts := parts + [value];
    }
  }

  method ReadParts(version: string) returns (parts: seq<int>)
    ensures parts == VersionParts(version)
  {
    parts := ReadAll(Split(Split(TrimPrefix(TrimSpace(version), "v"), '-')[0], '.'));
  }

  // ----- the order -----

  /** The i-th part, with zeros after the last. */
  function At(parts: seq<int>, i: nat): int
  {
    if i < |parts| then parts[i] else 0
  }

  /** The parts agree before i. */
  predicate AgreeTo(a: seq<int>, b: seq<int>, i: nat)
  {
    forall j: nat :: j < i ==> At(a, j) == At(b, j)
  }

  ghost predicate Less(a: seq<int>, b: seq<int>)
  {
    exists i: nat :: AgreeTo(a, b, i) && At(a, i) < At(b, i)
  }

  ghost predicate Same(a: seq<int>, b: seq<int>)
  {
    forall i: nat :: At(a, i) == At(b, i)
  }

  ghost function Order(a: seq<int>, b: seq<int>): int
  {
    if Less(a, b) then -1 else if Less(b, a) then 1 else 0
  }

  ghost function Compare(a: string, b: string): int
  {
    Order(VersionParts(a), VersionParts(b))
  }

  lemma LessIsStrict(a: seq<int>, b: seq<int>)
    ensures !(Less(a, b) && Less(b, a)) && !Less(a, a)
    ensures Same(a, b) ==> !Less(a, b)
  {
  }

  lemma {:induction false} FirstDifference(a: seq<int>, b: seq<int>, i: nat)
    requires At(a, i) != At(b, i)
    ensures exists j: nat :: AgreeTo(a, b, j) && At(a, j) != At(b, j)
  {
    if !AgreeTo(a, b, i) {
      var k: nat :| k < i && At(a, k) != At(b, k);
      FirstDifference(a, b, k);
    }
  }

  lemma LessOrSame(a: seq<int>, b: seq<int>)
    ensures Less(a, b) || Less(b, a) || Same(a, b)
  {
    if i: nat :| At(a, i) != At(b, i) {
      FirstDifference(a, b, i);
      var j: nat :| AgreeTo(a, b, j) && At(a, j) != At(b, j);
      assert AgreeTo(b, a, j);
      if At(a, j) < At(b, j) { assert Less(a, b); } else { assert Less(b, a); }
    }
  }

  lemma LessTransitive(a: seq<int>, b: seq<int>, c: seq<int>)
    requires (Less(a, b) || Same(a, b)) && (Less(b, c) || Same(b, c))
    ensures if Same(a, b) && Same(b, c) then Same(a, c) else Less(a, c)
  {
  }

  lemma OrderIs(a: seq<int>, b: seq<int>, i: nat)
    requires AgreeTo(a, b, i)
    ensures At(a, i) < At(b, i) ==> Order(a, b) == -1
    ensures At(a, i) > At(b, i) ==> Order(a, b) == 1
  {
  }

  lemma OrderOfSame(a: seq<int>, b: seq<int>)
    requires Same(a, b)
    ensures Order(a, b) == 0
  {
  }

  /** compareVersions walks the parts side by side. */
  method CompareParts(x: seq<int>, y: seq<int>) returns (r: int)
    ensures r == Order(x, y)
  {
    var n := if |y| > |x| then |y| else |x|;
    for i := 0 to n
      invariant AgreeTo(x, y, i)
    {
      var av, bv := 0, 0;
      if i < |x| { av := x[i]; }
      if i < |y| { bv := y[i]; }
      OrderIs(x, y, i);
      if av < bv { return -1; }
      if av > bv { return 1; }
    }
    PaddedSame(x, y, n);
    OrderOfSame(x, y);
    r := 0;
  }

  lemma PaddedSame(a: seq<int>, b: seq<int>, n: nat)
    requires AgreeTo(a, b, n) && |a| <= n && |b| <= n
    ensures Same(a, b)
  {
  }

  method CompareVersions(a: string, b: string) returns (r: int)
    ensures r == Compare(a, b)
  {
    var x := ReadParts(a);
    var y := ReadParts(b);
    r := CompareParts(x, y);
  }

  /** Zero exactly when the zero-padded parts agree. */
  lemma ZeroMeansSame(a: string, b: string)
    ensures Compare(a, b) == 0 <==> Same(VersionParts(a), VersionParts(b))
  {
    LessOrSame(VersionParts(a), VersionParts(b));
    LessIsStrict(VersionParts(a), VersionParts(b));
    if Same(VersionParts(a), VersionParts(b)) { LessIsStrict(VersionParts(b), VersionParts(a)); }
  }

  lemma Antisymmetric(a: string, b: string)
    ensures Compare(a, b) == -Compare(b, a)
  {
  }

  lemma Transitive(a: string, b: string, c: string)
    requires Compare(a, b) <= 0 && Compare(b, c) <= 0
    ensures Compare(a, c) <= 0
    ensures Compare(a, c) == 0 <==> Compare(a, b) == 0 && Compare(b, c) == 0
  {
    var x, y, z := VersionParts(a), VersionParts(b), VersionParts(c);
    LessOrSame(x, y);
    LessOrSame(y, z);
    ZeroMeansSame(a, b);
    ZeroMeansSame(b, c);
    ZeroMeansSame(a, c);
    LessTransitive(x, y, z);
    LessIsStrict(x, z);
  }

  /** A pre-release compares equal to its release. */
  lemma PreReleaseIsEqual(v: string, tag: string)
    requires Trimmed(v) && Trimmed(tag) && v != "" && tag != "" && '-' !in v
    ensures Compare(v + "-" + tag, v) == 0
  {
    TrimOfTrimmed(v);
    TrimOfTrimmed(v + "-" + tag);
    var bare := TrimPrefix(v, "v");
    SplitPiece(bare, '-');
    SplitAfterPiece(bare, tag, '-');
    assert TrimPrefix(v + "-" + tag, "v") == bare + ['-'] + tag;
    ZeroMeansSame(v + "-" + tag, v);
  }

  // ----- printed versions -----

  function Printed(parts: seq<nat>): (r: seq<string>)
    ensures |r| == |parts| && forall i :: 0 <= i < |r| ==> r[i] == Itoa(parts[i])
  {
    if parts == [] then [] else [Itoa(parts[0])] + Printed(parts[1..])
  }

  /** The numbers with dots between them. */
  function PrintVersion(parts: seq<nat>): string
  {
    Join(Printed(parts), '.')
  }

  lemma {:induction false} DigitsAndDots(pieces: seq<string>)
    requires |pieces| >= 1 && forall i :: 0 <= i < |pieces| ==> |pieces[i]| >= 1 && forall k :: 0 <= k < |pieces[i]| ==> IsDigit(pieces[i][k])
    ensures
      var s := Join(pieces, '.');
      s != "" && IsDigit(s[0]) && IsDigit(s[|s| - 1]) && forall c :: c in s ==> IsDigit(c) || c == '.'
  {
    if |pieces| > 1 { DigitsAndDots(pieces[1..]); }
  }

  lemma PrintedPieces(parts: seq<nat>)
    requires |parts| >= 1
    ensures
      var s := PrintVersion(parts);
      s != "" && IsDigit(s[0]) && Trimmed(s) && '-' !in s && Split(s, '.') == Printed(parts)
  {
    var pieces := Printed(parts);
    DigitsAndDots(pieces);
    assert forall c :: IsDigit(c) ==> !IsSpace(c) && c != '-' && c != '.';
    SplitJoin(pieces, '.');
  }

  lemma {:induction false} ValuesOfPrinted(parts: seq<nat>)
    requires forall i :: 0 <= i < |parts| ==> parts[i] <= MAX_INT64
    ensures Values(Printed(parts)) == parts
  {
    if parts != [] {
      var raw := Itoa(parts[0]);
      assert IsDigit(raw[0]) && IsDigit(raw[|raw| - 1]);
      TrimOfTrimmed(raw);
      ParseIntItoa(parts[0]);
      ValuesOfPrinted(parts[1..]);
      assert Printed(parts)[1..] == Printed(parts[1..]);
    }
  }

  /** Reading a printed version gives its numbers back, whatever blanks stand around it,
      with or without a v in front and a tag behind. */
  lemma ReadUndoesPrint(parts: seq<nat>, w: string, v: bool, tag: string, u: string)
    requires |parts| >= 1 && (forall i :: 0 <= i < |parts| ==> parts[i] <= MAX_INT64)
    requires Blank(w) && Blank(u) && (tag == "" || (tag[0] == '-' && Trimmed(tag)))
    ensures VersionParts(w + (if v then "v" else "") + PrintVersion(parts) + tag + u) == parts
  {
    var s := PrintVersion(parts);
    var core := (if v then "v" else "") + s;
    var t := core + tag;
    PrintedPieces(parts);
    assert w + (if v then "v" else "") + s + tag + u == w + t + u;
    TrimsToPrinted(s, v, tag);
    TrimBlanks(w, t, u);
    if tag == "" {
      assert s + tag == s;
      SplitPiece(s, '-');
    } else {
      assert s + tag == s + ['-'] + tag[1..];
      SplitAfterPiece(s, tag[1..], '-');
    }
    ValuesOfPrinted(parts);
  }

  /** So printed versions compare as their numbers do. */
  lemma ComparesNumbers(a: seq<nat>, b: seq<nat>)
    requires |a| >= 1 && |b| >= 1
    requires (forall i :: 0 <= i < |a| ==> a[i] <= MAX_INT64) && (forall i :: 0 <= i < |b| ==> b[i] <= MAX_INT64)
    ensures Compare(PrintVersion(a), PrintVersion(b)) == Order(a, b)
  {
    ReadsPlain(a);
    ReadsPlain(b);
  }

  lemma ReadsPlain(parts: seq<nat>)
    requires |parts| >= 1 && forall i :: 0 <= i < |parts| ==> parts[i] <= MAX_INT64
    ensures VersionParts(PrintVersion(parts)) == parts
  {
    var s := PrintVersion(parts);
    ReadUndoesPrint(parts, "", false, "", "");
    assert "" + "" + s + "" + "" == s;
  }

  lemma NoNumber(t: string)
    requires forall i :: 0 <= i < |t| ==> !IsDigit(t[i])
    ensures ParseInt(t).None?
  {
    var body := WithoutSign(t);
    if body != "" { assert !IsDigit(body[0]); }
  }

  /** A part without a digit counts as zero. */
  lemma WithoutDigitsIsZero(raw: string)
    requires forall c :: c in raw ==> !IsDigit(c)
    ensures PartValue(raw) == 0
  {
    TrimSpaceIsTrimmed(raw);
    var t := TrimSpace(raw);
    forall i | 0 <= i < |t| ensures !IsDigit(t[i]) { assert t[i] in t && t[i] in raw; }
    NoNumber(t);
  }

  /** Versions that agree before a number compare as that number does; zeros at the end
      make no difference. */
  lemma ComparesAsWritten(a: seq<int>, b: seq<int>, i: nat, zeros: nat)
    requires i < |a| && i < |b| && a[..i] == b[..i] && a[i] < b[i]
    ensures Order(a, b) == -1 && Order(b, a) == 1
    ensures Order(a + seq(zeros, _ => 0), a) == 0
  {
    forall j: nat | j < i ensures At(a, j) == At(b, j) { assert a[..i][j] == b[..i][j]; }
    OrderIs(a, b, i);
    OrderIs(b, a, i);
    OrderOfSame(a + seq(zeros, _ => 0), a);
  }

  /** Printing, perhaps behind a v and before a tag, is read without them. */
  lemma TrimsToPrinted(s: string, v: bool, tag: string)
    requires s != "" && IsDigit(s[0]) && Trimmed(s) && (tag == "" || (tag[0] == '-' && Trimmed(tag)))
    ensures
      var t := (if v then "v" else "") + s + tag;
      t != "" && Trimmed(t) && TrimPrefix(t, "v") == s + tag
  {
    var t := (if v then "v" else "") + s + tag;
    assert t[|t| - 1] == if tag == "" then s[|s| - 1] else tag[|tag| - 1];
    assert t[0] == if v then 'v' else s[0];
  }

  /** A version of these pieces, with or without a v, is stable exactly when they are
      three and each is a number. */
  lemma StableExactly(pieces: seq<string>, v: bool)
    requires |pieces| >= 1 && forall i :: 0 <= i < |pieces| ==> '.' !in pieces[i] && '-' !in pieces[i]
    requires var s := Join(pieces, '.'); s != "" && Trimmed(s) && s[0] != 'v'
    ensures IsStable((if v then "v" else "") + Join(pieces, '.')) <==>
              |pieces| == 3 && forall i :: 0 <= i < 3 ==> ParseInt(pieces[i]).Some?
  {
    var s := Join(pieces, '.');
    TrimsBehindV(s, v);
    SplitJoin(pieces, '.');
    JoinHoldsNone(pieces, '-');
  }

  lemma TrimsBehindV(s: string, v: bool)
    requires s != "" && Trimmed(s) && s[0] != 'v'
    ensures TrimPrefix(TrimSpace((if v then "v" else "") + s), "v") == s
  {
    var t := (if v then "v" else "") + s;
    assert t[0] == (if v then 'v' else s[0]) && t[|t| - 1] == s[|s| - 1];
    TrimOfTrimmed(t);
  }

  lemma {:induction false} JoinHoldsNone(pieces: seq<string>, c: char)
    requires c != '.' && forall i :: 0 <= i < |pieces| ==> c !in pieces[i]
    ensures c !in Join(pieces, '.')
  {
    if |pieces| > 1 { JoinHoldsNone(pieces[1..], c); }
  }

  /** With a tag it is not. */
  lemma TaggedIsNotStable(s: string, tag: string)
    requires Trimmed(s + "-" + tag) && s != ""
    ensures !IsStable(s + "-" + tag)
  {
    var t := s + "-" + tag;
    TrimOfTrimmed(t);
    assert t[|s|] == '-';
    if "v" <= t { assert t[1..][|s| - 1] == '-'; }
  }

  // ----- the latest stable release -----

  /** Three dot-separated numbers after an optional v. */
  predicate IsStable(version: string)
  {
    var v := TrimPrefix(TrimSpace(version), "v");
    && '-' !in v
    && |Split(v, '.')| == 3
    && forall i :: 0 <= i < 3 ==> ParseInt(Split(v, '.')[i]).Some?
  }

  datatype Record = Record(version: string, chrome: string, node: string, v8: string)

  datatype Error = NoStableRelease | EmptyVersion

  predicate BlankText(s: string)
  {
    TrimSpace(s) == ""
  }

  predicate CoreComplete(r: Record)
  {
    !BlankText(r.version) && !BlankText(r.chrome) && !BlankText(r.node)
  }

  /** The first of the greatest stable records. */
  ghost predicate Latest(records: seq<Record>, k: nat)
  {
    && k < |records| && IsStable(records[k].version)
    && (forall i :: 0 <= i < |records| && IsStable(records[i].version) ==> Compare(records[i].version, records[k].version) <= 0)
    && (forall i :: 0 <= i < k && IsStable(records[i].version) ==> Compare(records[i].version, records[k].version) < 0)
  }

  lemma LatestIsUnique(records: seq<Record>, j: nat, k: nat)
    requires Latest(records, j) && Latest(records, k)
    ensures j == k
  {
  }

  /** Adding a stable record: it takes over exactly when it is greater than the best. */
  lemma LatestSnoc(records: seq<Record>, r: Record, k: nat)
    requires Latest(records, k)
    ensures
      var more := records + [r];
      Latest(more, if IsStable(r.version) && Compare(r.version, records[k].version) > 0 then |records| else k)
  {
    var more, best := records + [r], records[k].version;
    Antisymmetric(r.version, best);
    ZeroMeansSame(r.version, r.version);
    if IsStable(r.version) && Compare(r.version, best) > 0 {
      forall i | 0 <= i < |records| && IsStable(records[i].version) ensures Compare(records[i].version, r.version) < 0 {
        Transitive(records[i].version, best, r.version);
      }
    }
  }

  /** The three core versions each hold something other than blanks. */
  lemma CompleteExactly(r: Record)
    ensures CoreComplete(r) <==>
      && (exists i :: 0 <= i < |r.version| && !IsSpace(r.version[i]))
      && (exists i :: 0 <= i < |r.chrome| && !IsSpace(r.chrome[i]))
      && (exists i :: 0 <= i < |r.node| && !IsSpace(r.node[i]))
  {
    BlankTrims(r.version);
    BlankTrims(r.chrome);
    BlankTrims(r.node);
  }

  method ParseLatestStable(records: seq<Record>) returns (r: Result<Record, Error>)
    ensures r == Err(NoStableRelease) <==> forall i :: 0 <= i < |records| ==> !IsStable(records[i].version)
    ensures r.Ok? ==> CoreComplete(r.value) && exists k: nat :: Latest(records, k) && r.value == records[k]
    ensures r == Err(EmptyVersion) ==> exists k: nat :: Latest(records, k) && !CoreComplete(records[k])
  {
    var best: Option<nat> := None;
    for i := 0 to |records|
      invariant best.None? ==> forall j :: 0 <= j < i ==> !IsStable(records[j].version)
      invariant best.Some? ==> Latest(records[..i], best.value)
    {
      assert records[..i + 1] == records[..i] + [records[i]];
      if IsStable(records[i].version) {
        if best.None? {
          ZeroMeansSame(records[i].version, records[i].version);
          best := Some(i);
        } else {
          var order := CompareVersions(records[i].version, records[best.value].version);
          LatestSnoc(records[..i], records[i], best.value);
          if order > 0 { best := Some(i); }
        }
      } else if best.Some? {
        LatestSnoc(records[..i], records[i], best.value);
      }
    }
    assert records[..|records|] == records;
    if best.None? { return Err(NoStableRelease); }
    var latest := records[best.value];
    if BlankText(latest.version) || BlankText(latest.chrome) || BlankText(latest.node) { return Err(EmptyVersion); }
    r := Ok(latest);
  }

  // ----- target against latest -----

  datatype Mismatch = Mismatch(component: string, target: string, latest: string, stale: bool)

  datatype Report = Report(mismatches: seq<Mismatch>, stale: bool)

  function Components(r: Record): seq<string>
  {
    [r.version, r.chrome, r.node, r.v8]
  }

  const NAMES: seq<string> := ["electron", "chromium", "node", "v8"]

  /** The mismatches of the first n components. */
  ghost function Mismatches(target: Record, latest: Record, n: nat): seq<Mismatch>
    requires n <= 4
  {
    if n == 0 then []
    else
      var t, l := Components(target)[n - 1], Components(latest)[n - 1];
      Mismatches(target, latest, n - 1) + if t == l then [] else [Mismatch(NAMES[n - 1], t, l, Compare(t, l) < 0)]
  }

  predicate AnyStale(mismatches: seq<Mismatch>)
  {
    exists i :: 0 <= i < |mismatches| && mismatches[i].stale
  }

  ghost predicate AnyOlder(target: Record, latest: Record, n: nat)
    requires n <= 4
  {
    exists c :: 0 <= c < n && Compare(Components(target)[c], Components(latest)[c]) < 0
  }

  lemma StaleSnoc(mismatches: seq<Mismatch>, m: Mismatch)
    ensures AnyStale(mismatches + [m]) <==> AnyStale(mismatches) || m.stale
  {
    assert (mismatches + [m])[|mismatches|] == m;
    if i :| 0 <= i < |mismatches| && mismatches[i].stale { assert (mismatches + [m])[i].stale; }
  }

  lemma {:induction false} StaleMeansOlder(target: Record, latest: Record, n: nat)
    requires n <= 4
    ensures AnyStale(Mismatches(target, latest, n)) <==> AnyOlder(target, latest, n)
  {
    if n > 0 {
      StaleMeansOlder(target, latest, n - 1);
      var t, l := Components(target)[n - 1], Components(latest)[n - 1];
      ZeroMeansSame(t, t);
      var before := Mismatches(target, latest, n - 1);
      StaleSnoc(before, Mismatch(NAMES[n - 1], t, l, Compare(t, l) < 0));
      OlderSnoc(target, latest, n);
      if t == l { assert Mismatches(target, latest, n) == before; }
    }
  }

  lemma OlderSnoc(target: Record, latest: Record, n: nat)
    requires 1 <= n <= 4
    ensures AnyOlder(target, latest, n) <==>
              AnyOlder(target, latest, n - 1) || Compare(Components(target)[n - 1], Components(latest)[n - 1]) < 0
  {
  }

  method ListMismatches(target: Record, latest: Record) returns (mismatches: seq<Mismatch>)
    ensures mismatches == Mismatches(target, latest, 4)
  {
    mismatches := [];
    for n := 0 to 4
      invariant mismatches == Mismatches(target, latest, n)
    {
      mismatches := AppendIfDifferent(mismatches, NAMES[n], Components(target)[n], Components(latest)[n]);
    }
  }

  method AppendIfDifferent(mismatches: seq<Mismatch>, component: string, target: string, latest: string)
    returns (r: seq<Mismatch>)
    ensures r == mismatches + if target == latest then [] else [Mismatch(component, target, latest, Compare(target, latest) < 0)]
  {
    if target == latest { return mismatches; }
    var order := CompareVersions(target, latest);
    r := mismatches + [Mismatch(component, target, latest, order < 0)];
  }

  /** The report lists exactly the components that differ in text; it is stale exactly
      when some component of the target is older. */
  method CompareReleases(target: Record, latest: Record) returns (r: Option<Report>)
    ensures r.None? <==> !CoreComplete(target) || BlankText(target.v8) || !CoreComplete(latest) || BlankText(latest.v8)
    ensures r.Some? ==> r.value.mismatches == Mismatches(target, latest, 4)
    ensures r.Some? ==>
      (r.value.stale <==> AnyOlder(target, latest, 4))
  {
    if !CoreComplete(target) || BlankText(target.v8) || !CoreComplete(latest) || BlankText(latest.v8) { return None; }
    var mismatches := ListMismatches(target, latest);
    StaleMeansOlder(target, latest, 4);
    var stale := FindStale(mismatches);
    r := Some(Report(mismatches, stale));
  }

  method FindStale(mismatches: seq<Mismatch>) returns (stale: bool)
    ensures stale == AnyStale(mismatches)
  {
    for i := 0 to |mismatches|
      invariant !AnyStale(mismatches[..i])
    {
      if mismatches[i].stale { return true; }
    }
    assert mismatches[..|mismatches|] == mismatches;
    stale := false;
  }
}
