/** The string helpers the modelled packages take from Go's `strings` and
    `strconv`, over ASCII, with the facts about them the proofs need. */
module Text {
  import opened Wrappers

  // ----- strings.Split and strings.Join -----

  /** strings.Split on one separator character: always at least one piece. */
  function Split(s: string, sep: char): (parts: seq<string>)
    ensures |parts| >= 1
    ensures forall i :: 0 <= i < |parts| ==> sep !in parts[i]
  {
    if s == "" then [""]
    else if s[0] == sep then [""] + Split(s[1..], sep)
    else
      var rest := Split(s[1..], sep);
      [[s[0]] + rest[0]] + rest[1..]
  }

  function Join(parts: seq<string>, sep: char): string
  {
    if |parts| == 0 then ""
    else if |parts| == 1 then parts[0]
    else parts[0] + [sep] + Join(parts[1..], sep)
  }

  lemma {:induction false} SplitPiece(a: string, sep: char)
    requires sep !in a
    ensures Split(a, sep) == [a]
  {
    if a != "" {
      SplitPiece(a[1..], sep);
      assert [a[0]] + a[1..] == a;
    }
  }

  lemma {:induction false} SplitAfterPiece(a: string, b: string, sep: char)
    requires sep !in a
    ensures Split(a + [sep] + b, sep) == [a] + Split(b, sep)
  {
    if a == "" {
      assert a + [sep] + b == [sep] + b;
    } else {
      SplitAfterPiece(a[1..], b, sep);
      assert (a + [sep] + b)[1..] == a[1..] + [sep] + b;
      assert [a[0]] + a[1..] == a;
    }
  }

  /** Splitting undoes joining when no piece holds the separator. */
  lemma {:induction false} SplitJoin(parts: seq<string>, sep: char)
    requires |parts| >= 1
    requires forall i :: 0 <= i < |parts| ==> sep !in parts[i]
    ensures Split(Join(parts, sep), sep) == parts
  {
    if |parts| == 1 {
      SplitPiece(parts[0], sep);
    } else {
      SplitAfterPiece(parts[0], Join(parts[1..], sep), sep);
      SplitJoin(parts[1..], sep);
    }
  }

  /** Joining undoes splitting. */
  lemma {:induction false} JoinSplit(s: string, sep: char)
    ensures Join(Split(s, sep), sep) == s
  {
    if s != "" {
      JoinSplit(s[1..], sep);
      var rest := Split(s[1..], sep);
      if s[0] == sep {
        assert ([""] + rest)[1..] == rest;
        assert "" + [sep] + s[1..] == s;
      } else {
        assert ([[s[0]] + rest[0]] + rest[1..])[1..] == rest[1..];
        assert [s[0]] + s[1..] == s;
        if |rest| > 1 {
          assert [s[0]] + rest[0] + [sep] + Join(rest[1..], sep) == [s[0]] + (rest[0] + [sep] + Join(rest[1..], sep));
        }
      }
    }
  }

  lemma {:induction false} JoinConcat(a: seq<string>, b: seq<string>, sep: char)
    requires |a| >= 1 && |b| >= 1
    ensures Join(a + b, sep) == Join(a, sep) + [sep] + Join(b, sep)
  {
    assert (a + b)[1..] == a[1..] + b;
    if |a| == 1 {
      assert a[1..] + b == b;
    } else {
      JoinConcat(a[1..], b, sep);
      assert a[0] + [sep] + (Join(a[1..], sep) + [sep] + Join(b, sep)) == a[0] + [sep] + Join(a[1..], sep) + [sep] + Join(b, sep);
    }
  }

  lemma JoinSnoc(parts: seq<string>, last: string, sep: char)
    requires |parts| >= 1
    ensures Join(parts + [last], sep) == Join(parts, sep) + [sep] + last
  {
    JoinConcat(parts, [last], sep);
  }

  /** Splitting distributes over a separator placed anywhere. */
  lemma SplitConcat(a: string, b: string, sep: char)
    ensures Split(a + [sep] + b, sep) == Split(a, sep) + Split(b, sep)
  {
    JoinSplit(a, sep);
    JoinSplit(b, sep);
    JoinConcat(Split(a, sep), Split(b, sep), sep);
    SplitJoin(Split(a, sep) + Split(b, sep), sep);
  }

  // ----- sort.Strings -----

  /** Byte-wise order on strings. */
  predicate Before(a: string, b: string)
  {
    b != "" && (a == "" || a[0] < b[0] || (a[0] == b[0] && Before(a[1..], b[1..])))
  }

  lemma {:induction false} BeforeTotal(a: string, b: string)
    ensures Before(a, b) || Before(b, a) || a == b
    ensures !(Before(a, b) && Before(b, a)) && !Before(a, a)
  {
    if a != "" && b != "" {
      BeforeTotal(a[1..], b[1..]);
      BeforeTotal(a[1..], a[1..]);
      assert [a[0]] + a[1..] == a && [b[0]] + b[1..] == b;
    } else if a != "" {
      BeforeTotal(a[1..], a[1..]);
    }
  }

  lemma {:induction false} BeforeTransitive(a: string, b: string, c: string)
    requires Before(a, b) && Before(b, c)
    ensures Before(a, c)
  {
    if a != "" && a[0] == b[0] == c[0] {
      BeforeTransitive(a[1..], b[1..], c[1..]);
    }
  }

  ghost predicate Increasing(names: seq<string>)
  {
    forall i, j :: 0 <= i < j < |names| ==> Before(names[i], names[j])
  }

  /** `names` lists `keys` in increasing order, each once. */
  ghost predicate Lists(names: seq<string>, keys: set<string>)
  {
    Increasing(names) && forall k :: k in names <==> k in keys
  }

  lemma EmptyListing(names: seq<string>, keys: set<string>)
    requires Lists(names, keys)
    ensures names == [] <==> keys == {}
  {
    if names != [] {
      assert names[0] in names;
    }
  }

  /** There is only one such listing, so map iteration order cannot show. */
  lemma {:induction false} ListingIsUnique(a: seq<string>, b: seq<string>, keys: set<string>)
    requires Lists(a, keys) && Lists(b, keys)
    ensures a == b
  {
    EmptyListing(a, keys);
    EmptyListing(b, keys);
    if keys != {} {
      assert a[0] in keys && b[0] in keys;
      var i :| 0 <= i < |b| && b[i] == a[0];
      var j :| 0 <= j < |a| && a[j] == b[0];
      BeforeTotal(a[0], b[0]);
      forall k
        ensures k in a[1..] <==> k in keys - {a[0]}
        ensures k in b[1..] <==> k in keys - {a[0]}
      {
        BeforeTotal(a[0], a[0]);
        assert k in a <==> k == a[0] || k in a[1..];
        assert k in b <==> k == b[0] || k in b[1..];
      }
      ListingIsUnique(a[1..], b[1..], keys - {a[0]});
    }
  }

  /** The insertion step of a sort: put a new name at its place. */
  function InsertSorted(names: seq<string>, name: string): (r: seq<string>)
    requires Increasing(names) && name !in names
    ensures Increasing(r)
    ensures forall k :: k in r <==> k in names || k == name
  {
    if names == [] then [name]
    else if Before(name, names[0]) then
      assert forall i :: 0 <= i < |names| ==> Before(name, names[i]) by {
        forall i | 0 < i < |names| ensures Before(name, names[i]) { BeforeTransitive(name, names[0], names[i]); }
      }
      [name] + names
    else
      BeforeTotal(name, names[0]);
      var rest := InsertSorted(names[1..], name);
      assert forall k :: k in rest ==> Before(names[0], k);
      assert forall k :: k in names <==> k == names[0] || k in names[1..];
      [names[0]] + rest
  }

  /** The keys of a map in increasing order, whatever order they are visited in. */
  method SortedKeys<T>(m: map<string, T>) returns (names: seq<string>)
    ensures Lists(names, m.Keys)
  {
    names := [];
    var rest := m.Keys;
    while rest != {}
      invariant rest <= m.Keys
      invariant Lists(names, m.Keys - rest)
      decreases rest
    {
      var k :| k in rest;
      names := InsertSorted(names, k);
      rest := rest - {k};
    }
  }

  // ----- strings.TrimSpace -----

  predicate IsSpace(c: char)
  {
    c == ' ' || c == '\t' || c == '\n' || c == '\r' || c == '\U{0B}' || c == '\U{0C}'
  }

  function TrimLeft(s: string): string
  {
    if s != "" && IsSpace(s[0]) then TrimLeft(s[1..]) else s
  }

  function TrimRight(s: string): string
  {
    if s != "" && IsSpace(s[|s| - 1]) then TrimRight(s[..|s| - 1]) else s
  }

  function TrimSpace(s: string): string
  {
    TrimRight(TrimLeft(s))
  }

  predicate Trimmed(s: string)
  {
    s == "" || (!IsSpace(s[0]) && !IsSpace(s[|s| - 1]))
  }

  lemma {:induction false} TrimRightShape(s: string)
    ensures TrimRight(s) <= s
    ensures TrimRight(s) == "" || !IsSpace(TrimRight(s)[|TrimRight(s)| - 1])
  {
    if s != "" && IsSpace(s[|s| - 1]) {
      TrimRightShape(s[..|s| - 1]);
    }
  }

  lemma {:induction false} TrimLeftShape(s: string)
    ensures exists n :: 0 <= n <= |s| && TrimLeft(s) == s[n..]
    ensures TrimLeft(s) == "" || !IsSpace(TrimLeft(s)[0])
  {
    if s != "" && IsSpace(s[0]) {
      TrimLeftShape(s[1..]);
      var n :| 0 <= n <= |s[1..]| && TrimLeft(s[1..]) == s[1..][n..];
      assert s[1..][n..] == s[n + 1..];
    } else {
      assert s[0..] == s;
    }
  }

  lemma TrimSpaceIsTrimmed(s: string)
    ensures Trimmed(TrimSpace(s))
    ensures |TrimSpace(s)| <= |s|
    ensures forall c :: c in TrimSpace(s) ==> c in s
  {
    TrimLeftShape(s);
    TrimRightShape(TrimLeft(s));
  }

  lemma TrimOfTrimmed(s: string)
    requires Trimmed(s)
    ensures TrimSpace(s) == s
  {
  }

  // ----- blanks around a text -----

  predicate Blank(s: string)
  {
    forall i :: 0 <= i < |s| ==> IsSpace(s[i])
  }

  lemma {:induction false} TrimLeftBlank(w: string, t: string)
    requires Blank(w) && (t == "" || !IsSpace(t[0]))
    ensures TrimLeft(w + t) == t
  {
    if w == "" {
      assert w + t == t;
    } else {
      assert (w + t)[1..] == w[1..] + t;
      TrimLeftBlank(w[1..], t);
    }
  }

  lemma {:induction false} TrimRightBlank(t: string, v: string)
    requires Blank(v) && (t == "" || !IsSpace(t[|t| - 1]))
    ensures TrimRight(t + v) == t
  {
    if v == "" {
      assert t + v == t;
    } else {
      assert (t + v)[..|t + v| - 1] == t + v[..|v| - 1];
      TrimRightBlank(t, v[..|v| - 1]);
    }
  }

  lemma TrimBlanks(w: string, t: string, v: string)
    requires Blank(w) && Blank(v) && t != "" && Trimmed(t)
    ensures TrimSpace(w + t + v) == t
  {
    assert w + t + v == w + (t + v);
    TrimLeftBlank(w, t + v);
    TrimRightBlank(t, v);
  }

  lemma {:induction false} LeftBlanks(s: string) returns (w: string)
    ensures Blank(w) && s == w + TrimLeft(s)
  {
    w := "";
    if s != "" && IsSpace(s[0]) {
      var rest := LeftBlanks(s[1..]);
      w := [s[0]] + rest;
      assert s == [s[0]] + s[1..] && TrimLeft(s) == TrimLeft(s[1..]);
      assert [s[0]] + (rest + TrimLeft(s[1..])) == w + TrimLeft(s[1..]);
    }
  }

  lemma {:induction false} RightBlanks(s: string) returns (v: string)
    ensures Blank(v) && s == TrimRight(s) + v
  {
    if s != "" && IsSpace(s[|s| - 1]) {
      v := RightBlanks(s[..|s| - 1]);
      assert s == s[..|s| - 1] + [s[|s| - 1]];
      v := v + [s[|s| - 1]];
    } else {
      v := "";
    }
  }

  lemma {:induction false} BlankTrims(s: string)
    ensures TrimSpace(s) == "" <==> Blank(s)
  {
    var w := LeftBlanks(s);
    var v := RightBlanks(TrimLeft(s));
    TrimSpaceIsTrimmed(s);
    if TrimSpace(s) == "" {
      assert s == w + v;
    } else {
      assert s == w + TrimSpace(s) + v && s[|w|] == TrimSpace(s)[0];
    }
  }

  // ----- case and prefixes -----

  function LowerChar(c: char): char
  {
    if 'A' <= c <= 'Z' then (c as int + 32) as char else c
  }

  function UpperChar(c: char): char
  {
    if 'a' <= c <= 'z' then (c as int - 32) as char else c
  }

  function ToLower(s: string): (r: string)
    ensures |r| == |s|
    ensures forall i :: 0 <= i < |s| ==> r[i] == LowerChar(s[i])
  {
    if s == "" then "" else [LowerChar(s[0])] + ToLower(s[1..])
  }

  function TrimPrefix(s: string, prefix: string): string
  {
    if prefix <= s then s[|prefix|..] else s
  }

  // ----- strings.Index and strings.Contains -----

  /** The first place where `sub` occurs. */
  function Index(s: string, sub: string): (r: Option<nat>)
    ensures r.Some? ==> r.value + |sub| <= |s|
  {
    if sub <= s then Some(0)
    else if s == "" then None
    else
      var rest := Index(s[1..], sub);
      if rest.None? then None else Some(rest.value + 1)
  }

  predicate Contains(s: string, sub: string)
  {
    Index(s, sub).Some?
  }

  lemma {:induction false} IndexIsFirst(s: string, sub: string, k: nat)
    requires k <= |s|
    ensures Index(s, sub) == Some(k) ==> sub <= s[k..]
    ensures sub <= s[k..] ==> Index(s, sub).Some? && Index(s, sub).value <= k
  {
    if !(sub <= s) && s != "" {
      if k > 0 {
        IndexIsFirst(s[1..], sub, k - 1);
        assert s[1..][k - 1..] == s[k..];
      } else {
        IndexIsFirst(s[1..], sub, 0);
        assert s[0..] == s;
      }
    } else {
      assert s[0..] == s;
    }
  }

  /** A text cut at or before the first occurrence does not contain it. */
  lemma CutBefore(s: string, sub: string, cut: nat)
    requires sub != "" && cut <= |s| && (Index(s, sub).Some? ==> cut <= Index(s, sub).value)
    ensures !Contains(s[..cut], sub)
  {
    if Contains(s[..cut], sub) {
      var k := Index(s[..cut], sub).value;
      IndexIsFirst(s[..cut], sub, k);
      assert s[k..][..|sub|] == s[..cut][k..][..|sub|] == sub;
      IndexIsFirst(s, sub, k);
    }
  }

  // ----- strconv.Itoa, Atoi and ParseInt in base ten on 64-bit integers -----

  const MAX_INT64: int := 0x7FFF_FFFF_FFFF_FFFF
  const MIN_INT64: int := -0x8000_0000_0000_0000

  predicate IsDigit(c: char)
  {
    '0' <= c <= '9'
  }

  function Digit(n: int): (c: char)
    requires 0 <= n < 10
    ensures IsDigit(c)
  {
    ('0' as int + n) as char
  }

  function Itoa(n: nat): (s: string)
    ensures |s| >= 1 && forall i :: 0 <= i < |s| ==> IsDigit(s[i])
  {
    if n < 10 then [Digit(n)] else Itoa(n / 10) + [Digit(n % 10)]
  }

  function DigitsValue(s: string): (v: int)
    requires forall i :: 0 <= i < |s| ==> IsDigit(s[i])
    ensures v >= 0
  {
    if s == "" then 0 else assert IsDigit(s[|s| - 1]); 10 * DigitsValue(s[..|s| - 1]) + (s[|s| - 1] as int - '0' as int)
  }

  predicate AllDigits(s: string)
  {
    forall i :: 0 <= i < |s| ==> IsDigit(s[i])
  }

  function WithoutSign(s: string): string
  {
    if s != "" && (s[0] == '-' || s[0] == '+') then s[1..] else s
  }

  /** strconv.ParseInt(s, 10, 64): an optional sign, then digits, then the range. */
  function ParseInt(s: string): Option<int>
  {
    var body := WithoutSign(s);
    if body == "" || !AllDigits(body) then None
    else
      var v := if "-" <= s then -DigitsValue(body) else DigitsValue(body);
      if MIN_INT64 <= v <= MAX_INT64 then Some(v) else None
  }

  lemma {:induction false} DigitsValueItoa(n: nat)
    ensures DigitsValue(Itoa(n)) == n
  {
    if n >= 10 {
      DigitsValueItoa(n / 10);
      assert Itoa(n)[..|Itoa(n)| - 1] == Itoa(n / 10);
    }
  }

  /** A sign in front is read as one. */
  lemma ParseIntSigned(n: nat, sign: char)
    requires n <= MAX_INT64 && (sign == '-' || sign == '+')
    ensures var r := ParseInt([sign] + Itoa(n)); r.Some? && (if sign == '-' then r.value + n == 0 else r.value == n)
  {
    DigitsValueItoa(n);
    assert WithoutSign([sign] + Itoa(n)) == Itoa(n);
  }

  /** Parsing undoes printing for every offset that fits 64 bits. */
  lemma ParseIntItoa(n: nat)
    requires n <= MAX_INT64
    ensures ParseInt(Itoa(n)) == Some(n)
  {
    DigitsValueItoa(n);
    assert IsDigit(Itoa(n)[0]);
  }
}
