/** The cookie store of a session and its change journal
    (internal/session/session.go:157-290). Parsing a URL is a parameter: what it finds,
    if the text parses. */
module CookieStore {
  import opened Wrappers
  import opened Text

  /** What url.Parse finds: the scheme, Host, Hostname() and the text printed back. */
  datatype Url = Url(scheme: string, host: string, hostname: string, text: string)

  type Parser = string -> Option<Url>

  datatype Cookie = Cookie(url: string, name: string, value: string, domain: string, path: string,
                           secure: bool, httpOnly: bool, expires: int)

  datatype Cause = Explicit | Overwrite

  datatype Change = Change(cookie: Cookie, removed: bool, cause: Cause)

  datatype Error = InvalidCookie | UnsupportedClearOption

  datatype Store = Store(cookies: map<string, Cookie>, changes: seq<Change>)

  datatype ClearOptions = ClearOptions(storages: seq<string>, origins: seq<string>, quotas: seq<string>)

  const NUL: char := '\0'

  function CookieKey(c: Cookie): string
  {
    ToLower(c.domain) + [NUL] + c.path + [NUL] + c.name
  }

  function NormalizeCookie(parse: Parser, c: Cookie): Result<Cookie, Error>
  {
    if TrimSpace(c.name) == "" || ';' in c.name || '\r' in c.name || '\n' in c.name then Err(InvalidCookie)
    else
      var parsed := parse(c.url);
      if parsed.None? || parsed.value.hostname == "" then Err(InvalidCookie)
      else if c.secure && parsed.value.scheme != "https" then Err(InvalidCookie)
      else
        Ok(c.(domain := if c.domain == "" then ToLower(parsed.value.hostname) else ToLower(TrimSpace(c.domain)),
              path := if c.path == "" then "/" else c.path,
              url := parsed.value.text))
  }

  // ----- operations -----

  function Put(s: Store, c: Cookie): Store
  {
    var key := CookieKey(c);
    Store(s.cookies[key := c],
          s.changes + (if key in s.cookies then [Change(s.cookies[key], true, Overwrite)] else []) + [Change(c, false, Explicit)])
  }

  function Remove(s: Store, key: string): Store
  {
    if key !in s.cookies then s
    else Store(s.cookies - {key}, s.changes + [Change(s.cookies[key], true, Explicit)])
  }

  /** Removing the cookies of these keys, one after the other. */
  function RemoveAll(s: Store, keys: seq<string>): Store
  {
    if keys == [] then s else Remove(RemoveAll(s, keys[..|keys| - 1]), keys[|keys| - 1])
  }

  /** The keys in some order, each once: any order a map may be visited in. */
  predicate Visits(order: seq<string>, keys: set<string>)
  {
    && (forall i, j :: 0 <= i < j < |order| ==> order[i] != order[j])
    && (forall k :: k in order ==> k in keys)
    && (forall k :: k in keys ==> k in order)
  }

  /** strings.EqualFold, over ASCII. */
  predicate EqualFold(a: string, b: string)
  {
    ToLower(a) == ToLower(b)
  }

  predicate Deletes(host: string, name: string, c: Cookie)
  {
    c.name == name && EqualFold(TrimPrefix(c.domain, "."), host)
  }

  predicate Clears(hosts: set<string>, c: Cookie)
  {
    hosts == {} || TrimPrefix(ToLower(c.domain), ".") in hosts
  }

  function Matching(s: Store, hit: Cookie -> bool): set<string>
  {
    set k | k in s.cookies && hit(s.cookies[k])
  }

  /** The host a delete addresses, if its arguments are valid. */
  function DeleteHost(parse: Parser, url: string, name: string): Option<string>
  {
    var parsed := parse(url);
    if parsed.None? || parsed.value.hostname == "" || TrimSpace(name) == "" then None
    else Some(ToLower(parsed.value.hostname))
  }

  predicate ValidOrigin(parse: Parser, origin: string)
  {
    var parsed := parse(origin);
    parsed.Some? && parsed.value.scheme != "" && parsed.value.host != ""
  }

  /** The hosts of the origins, if all are valid. */
  function OriginHosts(parse: Parser, origins: seq<string>): Option<set<string>>
  {
    if origins == [] then Some({})
    else if !ValidOrigin(parse, origins[0]) then None
    else
      var rest := OriginHosts(parse, origins[1..]);
      if rest.None? then None else Some({ToLower(parse(origins[0]).value.hostname)} + rest.value)
  }

  function With(found: set<string>, rest: Option<set<string>>): Option<set<string>>
  {
    if rest.None? then None else Some(found + rest.value)
  }

  lemma WithNothing(rest: Option<set<string>>)
    ensures With({}, rest) == rest
  {
    assert rest.Some? ==> {} + rest.value == rest.value;
  }

  predicate WantsCookies(storages: seq<string>)
  {
    storages == [] || exists i :: 0 <= i < |storages| && EqualFold(TrimSpace(storages[i]), "cookies")
  }

  // ----- the journal -----

  /** The cookie map the journal describes, rebuilt from nothing. */
  function Replay(changes: seq<Change>): map<string, Cookie>
  {
    if changes == [] then map[]
    else
      var before, last := Replay(changes[..|changes| - 1]), changes[|changes| - 1];
      if last.removed then before - {CookieKey(last.cookie)} else before[CookieKey(last.cookie) := last.cookie]
  }

  /** Every removal names the cookie that was there at that moment; every setting fills
      a free place; an overwritten cookie is replaced at once, under the same key. */
  predicate Faithful(changes: seq<Change>)
  {
    changes == [] ||
    (var before, last := changes[..|changes| - 1], changes[|changes| - 1];
     var key := CookieKey(last.cookie);
     && Faithful(before)
     && (if last.removed then key in Replay(before) && Replay(before)[key] == last.cookie
         else key !in Replay(before) && last.cause == Explicit)
     && (before != [] && before[|before| - 1].cause == Overwrite
         ==> !last.removed && key == CookieKey(before[|before| - 1].cookie)))
  }

  /** Between calls no overwrite is pending, the journal replays to the cookies, and
      each cookie is stored under its own key. */
  predicate Valid(s: Store)
  {
    && Faithful(s.changes)
    && (s.changes != [] ==> s.changes[|s.changes| - 1].cause == Explicit)
    && Replay(s.changes) == s.cookies
    && forall k :: k in s.cookies ==> CookieKey(s.cookies[k]) == k
  }

  lemma ReplaySnoc(changes: seq<Change>, c: Change)
    ensures Replay(changes + [c]) == if c.removed then Replay(changes) - {CookieKey(c.cookie)}
                                     else Replay(changes)[CookieKey(c.cookie) := c.cookie]
  {
  }

  lemma FaithfulSnoc(changes: seq<Change>, c: Change)
    requires Faithful(changes)
    requires if c.removed then CookieKey(c.cookie) in Replay(changes) && Replay(changes)[CookieKey(c.cookie)] == c.cookie
             else CookieKey(c.cookie) !in Replay(changes) && c.cause == Explicit
    requires changes != [] && changes[|changes| - 1].cause == Overwrite
             ==> !c.removed && CookieKey(c.cookie) == CookieKey(changes[|changes| - 1].cookie)
    ensures Faithful(changes + [c])
  {
  }

  lemma AddKeepsValid(changes: seq<Change>, c: Cookie)
    requires Faithful(changes) && CookieKey(c) !in Replay(changes)
    requires changes != [] && changes[|changes| - 1].cause == Overwrite
             ==> CookieKey(c) == CookieKey(changes[|changes| - 1].cookie)
    requires forall k :: k in Replay(changes) ==> CookieKey(Replay(changes)[k]) == k
    ensures Valid(Store(Replay(changes)[CookieKey(c) := c], changes + [Change(c, false, Explicit)]))
  {
    var added := Change(c, false, Explicit);
    FaithfulSnoc(changes, added);
    ReplaySnoc(changes, added);
    assert (changes + [added])[|changes + [added]| - 1] == added;
  }

  lemma PutKeepsValid(s: Store, c: Cookie)
    requires Valid(s)
    ensures Valid(Put(s, c))
  {
    var key := CookieKey(c);
    if key in s.cookies {
      var gone := Change(s.cookies[key], true, Overwrite);
      FaithfulSnoc(s.changes, gone);
      ReplaySnoc(s.changes, gone);
      AddKeepsValid(s.changes + [gone], c);
      assert (s.cookies - {key})[key := c] == s.cookies[key := c];
    } else {
      AddKeepsValid(s.changes, c);
      assert s.changes + [] + [Change(c, false, Explicit)] == s.changes + [Change(c, false, Explicit)];
    }
  }

  lemma RemoveKeepsValid(s: Store, key: string)
    requires Valid(s)
    ensures Valid(Remove(s, key))
  {
  }

  lemma {:induction false} RemoveAllKeepsValid(s: Store, keys: seq<string>)
    requires Valid(s)
    ensures Valid(RemoveAll(s, keys))
  {
    if keys != [] {
      RemoveAllKeepsValid(s, keys[..|keys| - 1]);
      RemoveKeepsValid(RemoveAll(s, keys[..|keys| - 1]), keys[|keys| - 1]);
    }
  }

  /** Whatever the order, the same cookies are left: those of other keys, untouched. */
  lemma {:induction false} RemoveAllLeaves(s: Store, keys: seq<string>)
    ensures RemoveAll(s, keys).cookies == map k | k in s.cookies && k !in keys :: s.cookies[k]
  {
    if keys == [] {
      assert s.cookies == map k | k in s.cookies && k !in keys :: s.cookies[k];
    } else {
      var front, last := keys[..|keys| - 1], keys[|keys| - 1];
      RemoveAllLeaves(s, front);
      assert keys == front + [last];
      forall k ensures k in keys <==> k in front || k == last {}
    }
  }

  lemma HitsGo(s: Store, hit: Cookie -> bool, order: seq<string>)
    requires Visits(order, Matching(s, hit))
    ensures RemoveAll(s, order).cookies == map k | k in s.cookies && !hit(s.cookies[k]) :: s.cookies[k]
  {
    RemoveAllLeaves(s, order);
    forall k | k in s.cookies ensures k in order <==> hit(s.cookies[k]) {}
  }

  lemma OrderDoesNotMatter(s: Store, a: seq<string>, b: seq<string>, keys: set<string>)
    requires Visits(a, keys) && Visits(b, keys)
    ensures RemoveAll(s, a).cookies == RemoveAll(s, b).cookies
    ensures forall k :: k in s.cookies && k !in keys ==> k in RemoveAll(s, a).cookies && RemoveAll(s, a).cookies[k] == s.cookies[k]
    ensures forall k :: k in keys ==> k !in RemoveAll(s, a).cookies
  {
    RemoveAllLeaves(s, a);
    RemoveAllLeaves(s, b);
  }

  // ----- whole runs -----

  datatype Call =
    | Set(cookie: Cookie)
    | Delete(url: string, name: string, order: seq<string>)
    | Clear(storages: seq<string>, origins: seq<string>, order: seq<string>)

  /** The orders are ones the map iteration may take. */
  ghost predicate Possible(parse: Parser, s: Store, c: Call)
  {
    match c
    case Set(_) => true
    case Delete(url, name, order) =>
      var host := DeleteHost(parse, url, name);
      host.Some? ==> Visits(order, Matching(s, x => Deletes(host.value, name, x)))
    case Clear(storages, origins, order) =>
      var hosts := OriginHosts(parse, origins);
      hosts.Some? ==> Visits(order, Matching(s, x => Clears(hosts.value, x)))
  }

  function Step(parse: Parser, s: Store, c: Call): Store
  {
    match c
    case Set(cookie) =>
      var n := NormalizeCookie(parse, cookie);
      if n.Err? then s else Put(s, n.value)
    case Delete(url, name, order) => if DeleteHost(parse, url, name).None? then s else RemoveAll(s, order)
    case Clear(storages, origins, order) =>
      if OriginHosts(parse, origins).None? || !WantsCookies(storages) then s else RemoveAll(s, order)
  }

  ghost predicate Reaches(parse: Parser, s: Store, calls: seq<Call>, t: Store)
    decreases |calls|
  {
    if calls == [] then s == t
    else Possible(parse, s, calls[0]) && Reaches(parse, Step(parse, s, calls[0]), calls[1..], t)
  }

  /** After any run of set, delete and clear, in any iteration order, the journal
      replayed from nothing is exactly the cookie map. */
  lemma {:induction false} JournalRebuildsCookies(parse: Parser, s: Store, calls: seq<Call>, t: Store)
    requires Valid(s) && Reaches(parse, s, calls, t)
    ensures Valid(t) && Replay(t.changes) == t.cookies
    decreases |calls|
  {
    if calls != [] {
      match calls[0]
      case Set(cookie) =>
        var n := NormalizeCookie(parse, cookie);
        if n.Ok? { PutKeepsValid(s, n.value); }
        JournalRebuildsCookies(parse, Step(parse, s, calls[0]), calls[1..], t);
      case Delete(_, _, order) =>
        RemoveAllKeepsValid(s, order);
        JournalRebuildsCookies(parse, Step(parse, s, calls[0]), calls[1..], t);
      case Clear(_, _, order) =>
        RemoveAllKeepsValid(s, order);
        JournalRebuildsCookies(parse, Step(parse, s, calls[0]), calls[1..], t);
    }
  }

  // ----- keys and normal forms -----

  lemma {:induction false} SplitAtFirst(a: string, x: string, b: string, y: string, sep: char)
    requires sep !in a && sep !in b && a + [sep] + x == b + [sep] + y
    ensures a == b && x == y
  {
    var s := a + [sep] + x;
    assert s[|a|] == sep && s[|b|] == sep;
    assert forall i :: 0 <= i < |a| ==> s[i] == a[i] != sep;
    assert forall i :: 0 <= i < |b| ==> s[i] == b[i] != sep;
    assert a == s[..|a|] && b == s[..|b|] && x == s[|a| + 1..] && y == s[|b| + 1..];
  }

  /** The same domain, up to case, path and name. */
  predicate SamePlace(c: Cookie, d: Cookie)
  {
    ToLower(c.domain) == ToLower(d.domain) && c.path == d.path && c.name == d.name
  }

  predicate FreeOfNul(c: Cookie)
  {
    NUL !in c.domain && NUL !in c.path && NUL !in c.name
  }

  /** Without NUL in domains and paths, a key stands for one domain, path and name. */
  lemma KeyIsInjective(c: Cookie, d: Cookie)
    requires NUL !in c.domain && NUL !in d.domain && NUL !in c.path && NUL !in d.path
    ensures CookieKey(c) == CookieKey(d) <==> SamePlace(c, d)
  {
    LowerKeepsNul(c.domain);
    LowerKeepsNul(d.domain);
    if CookieKey(c) == CookieKey(d) {
      var x, y := c.path + [NUL] + c.name, d.path + [NUL] + d.name;
      assert CookieKey(c) == ToLower(c.domain) + [NUL] + x;
      assert CookieKey(d) == ToLower(d.domain) + [NUL] + y;
      SplitAtFirst(ToLower(c.domain), x, ToLower(d.domain), y, NUL);
      SplitAtFirst(c.path, c.name, d.path, d.name, NUL);
    }
  }

  lemma LowerKeepsNul(s: string)
    ensures NUL in ToLower(s) <==> NUL in s
  {
    forall i | 0 <= i < |s| ensures ToLower(s)[i] == NUL <==> s[i] == NUL {}
  }

  lemma LowerConcat(a: string, b: string)
    ensures ToLower(a + b) == ToLower(a) + ToLower(b)
  {
  }

  /** A key without NUL in its parts holds two, so no other parts give it. */
  lemma FreeKeyIsUnique(c: Cookie, d: Cookie)
    requires FreeOfNul(c) && CookieKey(c) == CookieKey(d)
    ensures SamePlace(c, d)
  {
    KeyNuls(c);
    KeyNuls(d);
    LowerKeepsNul(c.domain);
    LowerKeepsNul(d.domain);
    KeyIsInjective(c, d);
  }

  lemma KeyNuls(c: Cookie)
    ensures multiset(CookieKey(c))[NUL] == 2 + multiset(ToLower(c.domain))[NUL] + multiset(c.path)[NUL] + multiset(c.name)[NUL]
  {
    assert multiset([NUL])[NUL] == 1;
  }

  lemma SplitAtNul(s: string) returns (x: string, y: string)
    requires NUL in s
    ensures s == x + [NUL] + y
  {
    var i :| 0 <= i < |s| && s[i] == NUL;
    x, y := s[..i], s[i + 1..];
  }

  /** Four pieces make three parts in three ways. */
  lemma Regroup(a: string, b: string, c: string, d: string)
    ensures a + [NUL] + b + [NUL] + (c + [NUL] + d) == a + [NUL] + (b + [NUL] + c) + [NUL] + d
    ensures a + [NUL] + b + [NUL] + (c + [NUL] + d) == (a + [NUL] + b) + [NUL] + c + [NUL] + d
  {
  }

  lemma DomainTwin(c: Cookie) returns (d: Cookie)
    requires NUL in c.domain
    ensures CookieKey(d) == CookieKey(c) && !SamePlace(d, c)
  {
    var x, y := SplitAtNul(c.domain);
    LowerConcat(x + [NUL], y);
    LowerConcat(x, [NUL]);
    assert ToLower([NUL]) == [NUL];
    Regroup(ToLower(x), ToLower(y), c.path, c.name);
    d := c.(domain := x, path := ToLower(y), name := c.path + [NUL] + c.name);
    assert |ToLower(d.domain)| < |ToLower(c.domain)|;
  }

  lemma PathTwin(c: Cookie) returns (d: Cookie)
    requires NUL in c.path
    ensures CookieKey(d) == CookieKey(c) && !SamePlace(d, c)
  {
    var x, y := SplitAtNul(c.path);
    Regroup(ToLower(c.domain), x, y, c.name);
    d := c.(path := x, name := y + [NUL] + c.name);
    assert |d.path| < |c.path|;
  }

  lemma NameTwin(c: Cookie) returns (d: Cookie)
    requires NUL in c.name
    ensures CookieKey(d) == CookieKey(c) && !SamePlace(d, c)
  {
    var x, y := SplitAtNul(c.name);
    Regroup(ToLower(c.domain), c.path, x, y);
    d := c.(path := c.path + [NUL] + x, name := y);
    assert |d.name| < |c.name|;
  }

  /** Cutting at a NUL inside a part gives other parts with the same key. */
  lemma NulGivesATwin(c: Cookie) returns (d: Cookie)
    requires !FreeOfNul(c)
    ensures CookieKey(d) == CookieKey(c) && !SamePlace(d, c)
  {
    if NUL in c.domain {
      d := DomainTwin(c);
    } else if NUL in c.path {
      d := PathTwin(c);
    } else {
      d := NameTwin(c);
    }
  }

  /** A key stands for one domain, path and name if and only if there is no NUL in them. */
  lemma KeyStandsForOnePlaceExactly(c: Cookie)
    ensures (forall d :: CookieKey(d) == CookieKey(c) ==> SamePlace(d, c)) <==> FreeOfNul(c)
  {
    if FreeOfNul(c) {
      forall d | CookieKey(d) == CookieKey(c) ensures SamePlace(d, c) { FreeKeyIsUnique(c, d); }
    } else {
      var d := NulGivesATwin(c);
    }
  }

  /** So a cookie free of NUL is overwritten by exactly the cookies of its own place. */
  lemma OverwrittenExactly(s: Store, c: Cookie, d: Cookie)
    requires Valid(s) && FreeOfNul(c)
    ensures
      var before := Put(s, c);
      var after := Put(before, d);
      Change(c, true, Overwrite) in after.changes[|before.changes|..] <==> SamePlace(d, c)
  {
    var before := Put(s, c);
    var after := Put(before, d);
    if CookieKey(c) == CookieKey(d) {
      FreeKeyIsUnique(c, d);
      assert after.changes[|before.changes|..] == [Change(c, true, Overwrite), Change(d, false, Explicit)];
    } else if CookieKey(d) in before.cookies {
      assert CookieKey(before.cookies[CookieKey(d)]) == CookieKey(d);
      assert after.changes[|before.changes|..] == [Change(before.cookies[CookieKey(d)], true, Overwrite), Change(d, false, Explicit)];
    } else {
      assert after.changes[|before.changes|..] == [Change(d, false, Explicit)];
    }
  }

  /** Two cookies that SetCookie accepts, on any URL with a host: the second, under
      another name and path, overwrites the first. */
  lemma NulMakesKeysCollide(parse: Parser, s: Store, url: string) returns (c: Cookie, d: Cookie)
    requires parse(url).Some? && parse(url).value.hostname != ""
    ensures NormalizeCookie(parse, c).Ok? && NormalizeCookie(parse, d).Ok?
    ensures
      var m, n := NormalizeCookie(parse, c).value, NormalizeCookie(parse, d).value;
      && m.name != n.name && m.path != n.path
      && Put(Put(s, m), n) == Step(parse, Step(parse, s, Set(c)), Set(d))
      && Put(Put(s, m), n).changes == Put(s, m).changes + [Change(m, true, Overwrite), Change(n, false, Explicit)]
  {
    c := Cookie(url, ['x', NUL, 'y'], "", "", "/", false, false, 0);
    d := Cookie(url, "y", "", "", ['/', NUL, 'x'], false, false, 0);
    TrimOfTrimmed(c.name);
    TrimOfTrimmed(d.name);
    assert ';' !in c.name && '\r' !in c.name && '\n' !in c.name;
    var m, n := NormalizeCookie(parse, c).value, NormalizeCookie(parse, d).value;
    assert m.path + [NUL] + m.name == n.path + [NUL] + n.name;
    assert CookieKey(m) == ToLower(m.domain) + [NUL] + (m.path + [NUL] + m.name);
    assert CookieKey(n) == ToLower(n.domain) + [NUL] + (n.path + [NUL] + n.name);
    assert Put(s, m).cookies[CookieKey(n)] == m;
  }

  /** Parsing its own output gives the same URL again, and host names hold no outer
      blanks. */
  ghost predicate Stable(parse: Parser)
  {
    forall text :: parse(text).Some? ==> parse(parse(text).value.text) == parse(text) && Trimmed(parse(text).value.hostname)
  }

  /** A normalized cookie normalizes to itself exactly when its domain was not blanks
      only: trimmed to nothing, such a domain would be read as absent the second time. */
  lemma NormalizeTwice(parse: Parser, c: Cookie)
    requires Stable(parse) && NormalizeCookie(parse, c).Ok?
    ensures
      var n := NormalizeCookie(parse, c).value;
      NormalizeCookie(parse, n) == Ok(n) <==> c.domain == "" || TrimSpace(c.domain) != ""
  {
    var n := NormalizeCookie(parse, c).value;
    var host := parse(c.url).value.hostname;
    assert ToLower(host) != "" && parse(n.url) == parse(c.url);
    if c.domain == "" {
      DomainIsNormal(host);
    } else {
      TrimSpaceIsTrimmed(c.domain);
      DomainIsNormal(TrimSpace(c.domain));
      if n.domain == "" { assert NormalizeCookie(parse, n).value.domain == ToLower(host); }
    }
  }

  lemma DomainIsNormal(d: string)
    requires Trimmed(d)
    ensures ToLower(TrimSpace(ToLower(d))) == ToLower(d)
  {
  }

  // ----- what is accepted, and what a call reaches -----

  /** A name can be set: something other than blanks, and no character that would end it
      in a header. */
  ghost predicate ProperName(name: string)
  {
    && (exists i :: 0 <= i < |name| && !IsSpace(name[i]))
    && (forall i :: 0 <= i < |name| ==> name[i] != ';' && name[i] != '\r' && name[i] != '\n')
  }

  /** A cookie is accepted exactly with a proper name and a URL with a host, over https
      when it is secure; it keeps everything but URL, domain and path. */
  lemma AcceptsExactly(parse: Parser, c: Cookie)
    ensures NormalizeCookie(parse, c).Ok? <==>
      && ProperName(c.name) && parse(c.url).Some? && |parse(c.url).value.hostname| > 0
      && (c.secure ==> parse(c.url).value.scheme == "https")
    ensures NormalizeCookie(parse, c).Ok? ==>
      var n := NormalizeCookie(parse, c).value;
      && n == c.(url := parse(c.url).value.text, domain := n.domain, path := n.path)
      && n.path == (if |c.path| == 0 then ['/'] else c.path)
      && (|c.domain| == 0 ==> n.domain == ToLower(parse(c.url).value.hostname))
      && (|c.domain| > 0 ==> exists w, v :: Blank(w) && Blank(v) && ToLower(c.domain) == w + n.domain + v && Trimmed(n.domain))
  {
    BlankTrims(c.name);
    if |c.domain| > 0 { TrimIsBetween(c.domain); }
  }

  lemma LowerOfBlank(w: string)
    requires Blank(w)
    ensures Blank(ToLower(w))
  {
  }

  lemma LowerOfTrimmed(t: string)
    requires Trimmed(t)
    ensures Trimmed(ToLower(t))
  {
  }

  lemma TrimIsBetween(d: string)
    ensures
      var t := ToLower(TrimSpace(d));
      Trimmed(t) && exists w, v :: Blank(w) && Blank(v) && ToLower(d) == w + t + v
  {
    var w := LeftBlanks(d);
    var v := RightBlanks(TrimLeft(d));
    TrimSpaceIsTrimmed(d);
    LowerOfBetween(d, w, TrimSpace(d), v);
    LowerOfBlank(w);
    LowerOfBlank(v);
    LowerOfTrimmed(TrimSpace(d));
  }

  lemma LowerOfBetween(d: string, w: string, t: string, v: string)
    requires d == w + (t + v)
    ensures ToLower(d) == ToLower(w) + ToLower(t) + ToLower(v)
  {
    LowerConcat(w, t + v);
    LowerConcat(t, v);
    Associates(ToLower(w), ToLower(t), ToLower(v));
  }

  lemma Associates(a: string, b: string, c: string)
    ensures a + (b + c) == a + b + c
  {
  }

  /** A delete addresses the host of its URL, whatever the case, and refuses a blank name. */
  lemma DeleteNeeds(parse: Parser, url: string, name: string)
    ensures DeleteHost(parse, url, name).Some? <==>
      parse(url).Some? && |parse(url).value.hostname| > 0 && exists i :: 0 <= i < |name| && !IsSpace(name[i])
    ensures DeleteHost(parse, url, name).Some? ==> DeleteHost(parse, url, name).value == ToLower(parse(url).value.hostname)
  {
    BlankTrims(name);
  }

  /** The domain stands for the host, up to case: the host itself, or a dot and the host. */
  predicate StandsFor(domain: string, host: string)
  {
    ToLower(domain) == ['.'] + ToLower(host) || (ToLower(domain) == ToLower(host) && (|domain| == 0 || domain[0] != '.'))
  }

  lemma WithoutDot(domain: string, host: string)
    ensures EqualFold(TrimPrefix(domain, "."), host) <==> StandsFor(domain, host)
    ensures TrimPrefix(ToLower(domain), ".") == ToLower(TrimPrefix(domain, "."))
  {
    if "." <= domain {
      assert domain == ['.'] + domain[1..];
      LowerConcat(['.'], domain[1..]);
      assert ToLower(['.']) == ['.'];
    } else if |domain| > 0 {
      assert ToLower(domain)[0] == LowerChar(domain[0]);
    }
  }

  /** A delete reaches exactly the cookies of its name whose domain stands for its host. */
  lemma DeletesExactly(host: string, name: string, c: Cookie)
    ensures Deletes(host, name, c) <==> c.name == name && StandsFor(c.domain, host)
  {
    WithoutDot(c.domain, host);
  }

  /** A clear reaches every cookie, or those whose domain stands for a host of an origin. */
  lemma ClearsExactly(parse: Parser, origins: seq<string>, c: Cookie)
    requires OriginHosts(parse, origins).Some?
    ensures Clears(OriginHosts(parse, origins).value, c) <==>
      |origins| == 0 || exists i :: 0 <= i < |origins| && ReachedBy(parse, origins[i], c)
  {
    var hosts := OriginHosts(parse, origins).value;
    HostsAreLower(parse, origins);
    WithoutDot(c.domain, "");
    if Clears(hosts, c) && |origins| > 0 {
      var i :| 0 <= i < |origins| && ToLower(TrimPrefix(c.domain, ".")) == ToLower(parse(origins[i]).value.hostname);
      WithoutDot(c.domain, parse(origins[i]).value.hostname);
      assert ReachedBy(parse, origins[i], c);
    }
    if i :| 0 <= i < |origins| && ReachedBy(parse, origins[i], c) {
      WithoutDot(c.domain, parse(origins[i]).value.hostname);
    }
  }

  predicate ReachedBy(parse: Parser, origin: string, c: Cookie)
  {
    parse(origin).Some? && StandsFor(c.domain, parse(origin).value.hostname)
  }

  lemma {:induction false} HostsAreLower(parse: Parser, origins: seq<string>)
    requires OriginHosts(parse, origins).Some?
    ensures
      var hosts := OriginHosts(parse, origins).value;
      && (hosts == {} <==> |origins| == 0)
      && (forall i :: 0 <= i < |origins| ==> parse(origins[i]).Some? && ToLower(parse(origins[i]).value.hostname) in hosts)
      && (forall h :: h in hosts ==> exists i :: 0 <= i < |origins| && h == ToLower(parse(origins[i]).value.hostname))
  {
    if origins != [] { HostsAreLower(parse, origins[1..]); }
  }

  /** All origins must parse, with a scheme and a host. */
  lemma {:induction false} OriginsNeed(parse: Parser, origins: seq<string>)
    ensures OriginHosts(parse, origins).Some? <==>
      forall i :: 0 <= i < |origins| ==>
        parse(origins[i]).Some? && |parse(origins[i]).value.scheme| > 0 && |parse(origins[i]).value.host| > 0
  {
    if origins != [] { OriginsNeed(parse, origins[1..]); }
  }

  /** Cookies are meant when nothing is named, or "cookies" is, in any case and with blanks
      around. */
  lemma WantsExactly(storages: seq<string>)
    ensures WantsCookies(storages) <==>
      |storages| == 0 || exists i :: 0 <= i < |storages| && SpellsCookies(storages[i])
  {
    forall i | 0 <= i < |storages| ensures EqualFold(TrimSpace(storages[i]), "cookies") <==> SpellsCookies(storages[i]) {
      CookiesExactly(storages[i]);
    }
  }

  ghost predicate SpellsCookies(s: string)
  {
    exists w, word, v :: NamesCookies(s, w, word, v)
  }

  lemma CookiesExactly(s: string)
    ensures EqualFold(TrimSpace(s), "cookies") <==> SpellsCookies(s)
  {
    var w := LeftBlanks(s);
    var v := RightBlanks(TrimLeft(s));
    assert s == w + TrimSpace(s) + v;
    assert ToLower("cookies") == "cookies";
    if EqualFold(TrimSpace(s), "cookies") { assert NamesCookies(s, w, TrimSpace(s), v); }
    if w', word, v' :| NamesCookies(s, w', word, v') {
      CookiesWord(word);
      TrimBlanks(w', word, v');
    }
  }

  predicate NamesCookies(s: string, w: string, word: string, v: string)
  {
    Blank(w) && Blank(v) && s == w + word + v && ToLower(word) == "cookies"
  }

  lemma CookiesWord(word: string)
    requires ToLower(word) == "cookies"
    ensures word != "" && Trimmed(word)
  {
    assert ToLower(word)[0] == LowerChar(word[0]) && ToLower(word)[6] == LowerChar(word[6]);
  }

  /** A cookie set for the host of its URL is reached by a delete there, unless that host
      begins with a dot. */
  lemma OwnDeleteReaches(parse: Parser, c: Cookie)
    requires NormalizeCookie(parse, c).Ok? && c.domain == ""
    ensures
      var host := parse(c.url).value.hostname;
      Deletes(ToLower(host), c.name, NormalizeCookie(parse, c).value) <==> !("." <= host)
  {
    var host := parse(c.url).value.hostname;
    DeletesExactly(ToLower(host), c.name, NormalizeCookie(parse, c).value);
    LowerTwice(host);
    assert ToLower(host)[0] == LowerChar(host[0]);
    assert |['.'] + ToLower(host)| != |ToLower(host)|;
  }

  /** Setting a cookie for its own host and deleting it there leaves no cookie of that
      name and host, nor at that key, and every other cookie as it was. */
  lemma SetThenDelete(parse: Parser, s: Store, c: Cookie, order: seq<string>)
    requires NormalizeCookie(parse, c).Ok? && c.domain == "" && !("." <= parse(c.url).value.hostname)
    requires Possible(parse, Step(parse, s, Set(c)), Delete(c.url, c.name, order))
    ensures
      var n, host := NormalizeCookie(parse, c).value, parse(c.url).value.hostname;
      Step(parse, Step(parse, s, Set(c)), Delete(c.url, c.name, order)).cookies
      == map k | k in s.cookies && k != CookieKey(n) && !(s.cookies[k].name == c.name && StandsFor(s.cookies[k].domain, host)) :: s.cookies[k]
  {
    var n := NormalizeCookie(parse, c).value;
    var host := parse(c.url).value.hostname;
    var put := Put(s, n);
    BlankTrims(c.name);
    RemoveAllLeaves(put, order);
    LowerTwice(host);
    forall k | k in put.cookies
      ensures k in order <==> put.cookies[k].name == c.name && StandsFor(put.cookies[k].domain, host)
    {
      DeletesExactly(ToLower(host), c.name, put.cookies[k]);
    }
    assert CookieKey(n) in order;
  }

  lemma LowerTwice(s: string)
    ensures ToLower(ToLower(s)) == ToLower(s)
  {
  }

  // ----- the object -----

  class Session {
    const parse: Parser
    var cookies: map<string, Cookie>
    var cookieChanges: seq<Change>
    var storageClears: seq<ClearOptions>

    constructor (parse: Parser)
      ensures this.parse == parse && View() == Store(map[], []) && Valid(View()) && storageClears == []
    {
      this.parse := parse;
      cookies, cookieChanges, storageClears := map[], [], [];
    }

    ghost function View(): Store
      reads this
    {
      Store(cookies, cookieChanges)
    }

    method SetCookie(cookie: Cookie) returns (error: Option<Error>)
      requires Valid(View())
      modifies `cookies, `cookieChanges
      ensures Valid(View()) && View() == Step(parse, old(View()), Set(cookie))
      ensures error.None? <==> NormalizeCookie(parse, cookie).Ok?
      ensures error.None? ==> NormalizeCookie(parse, cookie).value in cookies.Values
    {
      var n := NormalizeCookie(parse, cookie);
      if n.Err? { return Some(n.error); }
      PutKeepsValid(View(), n.value);
      var key := CookieKey(n.value);
      if key in cookies { cookieChanges := cookieChanges + [Change(cookies[key], true, Overwrite)]; }
      cookies := cookies[key := n.value];
      cookieChanges := cookieChanges + [Change(n.value, false, Explicit)];
      assert cookies[key] == n.value;
      error := None;
    }

    /** Visits the map in any order, removing what is hit. */
    method RemoveHits(hit: Cookie -> bool) returns (ghost order: seq<string>)
      requires Valid(View())
      modifies `cookies, `cookieChanges
      ensures Visits(order, Matching(old(View()), hit)) && View() == RemoveAll(old(View()), order)
      ensures old(cookieChanges) <= cookieChanges
      ensures Valid(View())
      ensures cookies == map k | k in old(cookies) && !hit(old(cookies)[k]) :: old(cookies)[k]
    {
      var rest := cookies.Keys;
      order := [];
      while rest != {}
        invariant rest <= old(cookies).Keys && rest <= cookies.Keys
        invariant forall k :: k in rest ==> cookies[k] == old(cookies)[k]
        invariant Visits(order, Matching(old(View()), hit) - rest)
        invariant View() == RemoveAll(old(View()), order) && old(cookieChanges) <= cookieChanges
        decreases rest
      {
        var key :| key in rest;
        rest := rest - {key};
        var cookie := cookies[key];
        if hit(cookie) {
          assert (order + [key])[..|order|] == order;
          cookies := cookies - {key};
          cookieChanges := cookieChanges + [Change(cookie, true, Explicit)];
          order := order + [key];
        }
      }
      assert Matching(old(View()), hit) - {} == Matching(old(View()), hit);
      RemoveAllKeepsValid(old(View()), order);
      HitsGo(old(View()), hit, order);
    }

    /** Exactly the cookies of that name and host go; the arguments are checked first. */
    method DeleteCookie(url: string, name: string) returns (error: Option<Error>)
      requires Valid(View())
      modifies `cookies, `cookieChanges
      ensures Valid(View())
      ensures error.None? <==> DeleteHost(parse, url, name).Some?
      ensures error.Some? ==> View() == old(View())
      ensures old(cookieChanges) <= cookieChanges
      ensures error.None? ==>
        cookies == map k | k in old(cookies) && !Deletes(DeleteHost(parse, url, name).value, name, old(cookies)[k]) :: old(cookies)[k]
    {
      var host := DeleteHost(parse, url, name);
      if host.None? { return Some(InvalidCookie); }
      ghost var _ := RemoveHits(x => Deletes(host.value, name, x));
      error := None;
    }

    method HostsOf(origins: seq<string>) returns (hosts: Option<set<string>>)
      ensures hosts == OriginHosts(parse, origins)
    {
      var found: set<string>, i := {}, 0;
      WithNothing(OriginHosts(parse, origins));
      while i < |origins|
        invariant 0 <= i <= |origins|
        invariant OriginHosts(parse, origins) == With(found, OriginHosts(parse, origins[i..]))
      {
        if !ValidOrigin(parse, origins[i]) { return None; }
        var host := ToLower(parse(origins[i]).value.hostname);
        ghost var rest := OriginHosts(parse, origins[i + 1..]);
        assert origins[i..][1..] == origins[i + 1..];
        assert rest.Some? ==> found + ({host} + rest.value) == found + {host} + rest.value;
        found := found + {host};
        i := i + 1;
      }
      assert found + {} == found;
      hosts := Some(found);
    }

    /** Cookies go only when asked for, only those of the origins if any are given. The
        request is recorded without its quotas; an invalid origin changes nothing. */
    method ClearStorageData(options: ClearOptions) returns (error: Option<Error>)
      requires Valid(View())
      modifies this
      ensures Valid(View())
      ensures error.None? <==> OriginHosts(parse, options.origins).Some?
      ensures storageClears == old(storageClears) + if error.None? then [options.(quotas := [])] else []
      ensures error.Some? || !WantsCookies(options.storages) ==> View() == old(View())
      ensures old(cookieChanges) <= cookieChanges
      ensures error.None? && WantsCookies(options.storages) ==>
        cookies == map k | k in old(cookies) && !Clears(OriginHosts(parse, options.origins).value, old(cookies)[k]) :: old(cookies)[k]
    {
      var hosts := HostsOf(options.origins);
      if hosts.None? { return Some(UnsupportedClearOption); }
      if WantsCookies(options.storages) { ghost var _ := RemoveHits(x => Clears(hosts.value, x)); }
      storageClears := storageClears + [options.(quotas := [])];
      error := None;
    }
  }
}
