/** Accelerators and the shortcut registry keyed by their canonical form
    (internal/globalshortcut/accelerator.go:8-88, registry.go:14-141), over ASCII. */
module Accelerators {
  import opened Sequences
  import opened Text
  import opened Wrappers

  /** The canonical modifiers; Name gives the string each one is kept as. */
  datatype Modifier = CommandOrControl | Command | Control | Alt | AltGr | Shift | Super
  {
    function Name(): string
    {
      match this
      case CommandOrControl => "CommandOrControl"
      case Command => "Command"
      case Control => "Control"
      case Alt => "Alt"
      case AltGr => "AltGr"
      case Shift => "Shift"
      case Super => "Super"
    }
  }

  datatype Accelerator = Accelerator(modifiers: seq<Modifier>, key: string)

  datatype Error = Required | Invalid | CallbackRequired

  // ----- parsing and printing -----

  function RemoveSpaces(s: string): string
  {
    if s == "" then "" else (if s[0] == ' ' then "" else [s[0]]) + RemoveSpaces(s[1..])
  }

  function ModifierOf(word: string): Option<Modifier>
  {
    if word == "commandorcontrol" || word == "cmdorctrl" then Some(CommandOrControl)
    else if word == "command" || word == "cmd" then Some(Command)
    else if word == "control" || word == "ctrl" then Some(Control)
    else if word == "alt" || word == "option" then Some(Alt)
    else if word == "altgr" then Some(AltGr)
    else if word == "shift" then Some(Shift)
    else if word == "super" || word == "meta" then Some(Super)
    else None
  }

  function CanonicalModifier(token: string): Option<Modifier>
  {
    ModifierOf(ToLower(RemoveSpaces(token)))
  }

  function CanonicalKey(token: string): string
  {
    if |token| == 1 then [UpperChar(token[0])] else token
  }

  /** The tokens from here on, after these modifiers. A key can only be the last token,
      so no modifier ever follows one. */
  function ParseTokens(parts: seq<string>, modifiers: seq<Modifier>): Result<Accelerator, Error>
    decreases |parts|
  {
    if parts == [] then Err(Invalid)
    else
      var token := TrimSpace(parts[0]);
      var modifier := CanonicalModifier(token);
      if token == "" then Err(Invalid)
      else if modifier.Some? then
        if modifier.value in modifiers then Err(Invalid) else ParseTokens(parts[1..], modifiers + [modifier.value])
      else if |parts| != 1 then Err(Invalid)
      else Ok(Accelerator(modifiers, CanonicalKey(token)))
  }

  function Parse(raw: string): Result<Accelerator, Error>
  {
    if TrimSpace(raw) == "" then Err(Required) else ParseTokens(Split(TrimSpace(raw), '+'), [])
  }

  function NamesOf(modifiers: seq<Modifier>): (r: seq<string>)
    ensures |r| == |modifiers| && forall i :: 0 <= i < |r| ==> r[i] == modifiers[i].Name()
  {
    if modifiers == [] then [] else [modifiers[0].Name()] + NamesOf(modifiers[1..])
  }

  function Print(a: Accelerator): string
  {
    if a.modifiers == [] then a.key else Join(NamesOf(a.modifiers) + [a.key], '+')
  }

  method ParseAccelerator(raw: string) returns (r: Result<Accelerator, Error>)
    ensures r == Parse(raw)
  {
    var trimmed := TrimSpace(raw);
    if trimmed == "" { return Err(Required); }
    var parts := Split(trimmed, '+');
    var modifiers: seq<Modifier>, seen: set<Modifier>, key := [], {}, "";
    var i := 0;
    while i < |parts|
      invariant 0 <= i <= |parts| && (forall m :: m in modifiers <==> m in seen)
      invariant key != "" ==> i == |parts| && Parse(raw) == Ok(Accelerator(modifiers, key))
      invariant key == "" ==> ParseTokens(parts[i..], modifiers) == Parse(raw)
    {
      var token := TrimSpace(parts[i]);
      if token == "" { return Err(Invalid); }
      var modifier := CanonicalModifier(token);
      assert parts[i..][1..] == parts[i + 1..];
      if modifier.Some? {
        if modifier.value in seen { return Err(Invalid); }
        seen := seen + {modifier.value};
        modifiers := modifiers + [modifier.value];
      } else {
        if i != |parts| - 1 { return Err(Invalid); }
        key := CanonicalKey(token);
      }
      i := i + 1;
    }
    if key == "" { return Err(Invalid); }
    r := Ok(Accelerator(modifiers, key));
  }

  // ----- what parsing can produce -----

  /** A key as it is kept: trimmed, without '+', no modifier, a single letter upper case. */
  predicate GoodKey(key: string)
  {
    key != "" && Trimmed(key) && '+' !in key && CanonicalModifier(key).None? && CanonicalKey(key) == key
  }

  ghost predicate WellFormed(a: Accelerator)
  {
    GoodKey(a.key) && Distinct(a.modifiers)
  }

  lemma {:induction false} RemoveShortens(s: string)
    ensures |RemoveSpaces(s)| <= |s|
  {
    if s != "" { RemoveShortens(s[1..]); }
  }

  lemma {:induction false} RemoveNothing(s: string)
    requires ' ' !in s
    ensures RemoveSpaces(s) == s
  {
    if s != "" {
      assert s == [s[0]] + s[1..];
      RemoveNothing(s[1..]);
    }
  }

  lemma KeyIsGood(token: string)
    requires token != "" && Trimmed(token) && '+' !in token && CanonicalModifier(token).None?
    ensures GoodKey(CanonicalKey(token))
  {
    if |token| == 1 {
      var key := CanonicalKey(token);
      RemoveShortens(key);
      assert |ToLower(RemoveSpaces(key))| <= 1;
      assert token[0] == token[|token| - 1] && !IsSpace(token[0]);
    }
  }

  lemma {:induction false} TokensGiveWellFormed(parts: seq<string>, modifiers: seq<Modifier>)
    requires Distinct(modifiers)
    requires forall p :: p in parts ==> '+' !in p
    requires ParseTokens(parts, modifiers).Ok?
    ensures WellFormed(ParseTokens(parts, modifiers).value)
    decreases |parts|
  {
    var token := TrimSpace(parts[0]);
    TrimSpaceIsTrimmed(parts[0]);
    assert parts[0] in parts;
    var modifier := CanonicalModifier(token);
    if modifier.Some? {
      TokensGiveWellFormed(parts[1..], modifiers + [modifier.value]);
    } else {
      KeyIsGood(token);
    }
  }

  lemma CommandOrControlReads()
    ensures ModifierOf(ToLower("CommandOrControl")) == Some(CommandOrControl)
  {
    Folds("CommandOrControl", "commandorcontrol");
  }

  lemma CommandReads()
    ensures ModifierOf(ToLower("Command")) == Some(Command)
  {
  }

  lemma ControlReads()
    ensures ModifierOf(ToLower("Control")) == Some(Control)
  {
  }

  lemma AltReads()
    ensures ModifierOf(ToLower("Alt")) == Some(Alt)
  {
  }

  lemma AltGrReads()
    ensures ModifierOf(ToLower("AltGr")) == Some(AltGr)
  {
  }

  lemma ShiftReads()
    ensures ModifierOf(ToLower("Shift")) == Some(Shift)
  {
  }

  lemma SuperReads()
    ensures ModifierOf(ToLower("Super")) == Some(Super)
  {
  }

  /** The canonical names are read as themselves. */
  lemma ModifierIsItself(m: Modifier)
    ensures CanonicalModifier(m.Name()) == Some(m)
  {
    NameIsPlain(m);
    RemoveNothing(m.Name());
    match m
    case CommandOrControl => CommandOrControlReads();
    case Command => CommandReads();
    case Control => ControlReads();
    case Alt => AltReads();
    case AltGr => AltGrReads();
    case Shift => ShiftReads();
    case Super => SuperReads();
  }

  lemma NameIsPlain(m: Modifier)
    ensures ' ' !in m.Name() && '+' !in m.Name() && Trimmed(m.Name()) && m.Name() != ""
  {
  }

  lemma Folds(name: string, word: string)
    requires |name| == |word| && forall i :: 0 <= i < |name| ==> LowerChar(name[i]) == word[i]
    ensures ToLower(name) == word
  {
  }

  lemma ReadModifier(parts: seq<string>, before: seq<Modifier>, m: Modifier)
    requires parts != [] && parts[0] == m.Name() && m !in before
    ensures ParseTokens(parts, before) == ParseTokens(parts[1..], before + [m])
  {
    ModifierIsItself(m);
    NameIsPlain(m);
    TrimOfTrimmed(parts[0]);
  }

  lemma ReadKey(key: string, before: seq<Modifier>)
    requires GoodKey(key)
    ensures ParseTokens([key], before) == Ok(Accelerator(before, key))
  {
  }

  /** Nothing but blanks is refused as missing, anything else that does not parse as
      invalid. */
  lemma MissingExactly(raw: string)
    ensures Parse(raw) == Err(Required) <==> Blank(raw)
  {
    BlankTrims(raw);
    if TrimSpace(raw) != "" { TokensAreNotMissing(Split(TrimSpace(raw), '+'), []); }
  }

  lemma {:induction false} TokensAreNotMissing(parts: seq<string>, modifiers: seq<Modifier>)
    ensures ParseTokens(parts, modifiers) != Err(Required)
    decreases |parts|
  {
    if parts != [] {
      var modifier := CanonicalModifier(TrimSpace(parts[0]));
      if modifier.Some? { TokensAreNotMissing(parts[1..], modifiers + [modifier.value]); }
    }
  }

  // ----- spellings of modifiers and keys -----

  /** The lower-case words each modifier is written with. */
  function Words(m: Modifier): set<string>
  {
    match m
    case CommandOrControl => {"commandorcontrol", "cmdorctrl"}
    case Command => {"command", "cmd"}
    case Control => {"control", "ctrl"}
    case Alt => {"alt", "option"}
    case AltGr => {"altgr"}
    case Shift => {"shift"}
    case Super => {"super", "meta"}
  }

  /** No word is written for two modifiers. */
  lemma WordsAreApart(m: Modifier, n: Modifier, word: string)
    requires word in Words(m) && word in Words(n)
    ensures m == n
  {
  }

  /** A token is a modifier exactly when it is one of its words, in any case and with
      spaces anywhere. */
  lemma ReadsWordsExactly(token: string, m: Modifier)
    ensures CanonicalModifier(token) == Some(m) <==> ToLower(RemoveSpaces(token)) in Words(m)
  {
    var word := ToLower(RemoveSpaces(token));
    if word in Words(m) && ModifierOf(word).Some? && word in Words(ModifierOf(word).value) {
      WordsAreApart(m, ModifierOf(word).value, word);
    }
  }

  lemma {:induction false} SpacesAndCase(a: string, b: string)
    ensures ToLower(RemoveSpaces(a + " " + b)) == ToLower(RemoveSpaces(a + b))
    ensures RemoveSpaces(ToLower(a)) == ToLower(RemoveSpaces(a))
    decreases |a|
  {
    if a == "" {
      assert ("" + " " + b)[1..] == b && "" + b == b;
    } else {
      assert (a + " " + b)[1..] == a[1..] + " " + b && (a + b)[1..] == a[1..] + b;
      assert ToLower(a)[1..] == ToLower(a[1..]);
      SpacesAndCase(a[1..], b);
    }
  }

  /** A single letter is the same key in either case; a longer key is kept as it is. */
  lemma KeysFoldLetters(key: string, before: seq<Modifier>)
    requires GoodKey(key)
    ensures |key| == 1 ==> ParseTokens([[LowerChar(key[0])]], before) == Ok(Accelerator(before, key))
    ensures |key| > 1 ==> ParseTokens([key], before) == Ok(Accelerator(before, key))
  {
    if |key| == 1 {
      var lower := [LowerChar(key[0])];
      TrimOfTrimmed(lower);
      RemoveShortens(lower);
      assert |ToLower(RemoveSpaces(lower))| <= 1;
      assert UpperChar(LowerChar(key[0])) == UpperChar(key[0]) && [UpperChar(key[0])] == key;
    } else {
      TrimOfTrimmed(key);
    }
  }

  lemma {:induction false} TokensReadBack(all: seq<Modifier>, k: nat, key: string)
    requires Distinct(all) && GoodKey(key) && k <= |all|
    ensures ParseTokens(NamesOf(all[k..]) + [key], all[..k]) == Ok(Accelerator(all, key))
    decreases |all| - k
  {
    var parts := NamesOf(all[k..]) + [key];
    if k == |all| {
      ReadKey(key, all[..k]);
      assert parts == [key] && all[..k] == all;
    } else {
      assert all[k..][1..] == all[k + 1..] && all[..k] + [all[k]] == all[..k + 1];
      assert parts[1..] == NamesOf(all[k + 1..]) + [key];
      ReadModifier(parts, all[..k], all[k]);
      TokensReadBack(all, k + 1, key);
    }
  }

  lemma {:induction false} JoinEnds(parts: seq<string>, sep: char)
    requires parts != [] && forall p :: p in parts ==> p != "" && Trimmed(p)
    ensures Join(parts, sep) != "" && Trimmed(Join(parts, sep))
  {
    assert parts[0] in parts;
    if |parts| > 1 {
      forall p | p in parts[1..] ensures p in parts {}
      JoinEnds(parts[1..], sep);
    }
  }

  /** Parsing what was printed gives the accelerator back. */
  lemma ParseUndoesPrint(a: Accelerator)
    requires WellFormed(a)
    ensures Parse(Print(a)) == Ok(a)
  {
    var pieces := NamesOf(a.modifiers) + [a.key];
    forall i | 0 <= i < |pieces| ensures pieces[i] != "" && Trimmed(pieces[i]) && '+' !in pieces[i] {
      if i < |a.modifiers| { NameIsPlain(a.modifiers[i]); }
    }
    JoinEnds(pieces, '+');
    TrimOfTrimmed(Join(pieces, '+'));
    SplitJoin(pieces, '+');
    assert Print(a) == Join(pieces, '+') by {
      if a.modifiers == [] { assert pieces == [a.key]; }
    }
    assert a.modifiers[0..] == a.modifiers && a.modifiers[..0] == [];
    TokensReadBack(a.modifiers, 0, a.key);
  }

  /** Parsing produces exactly the well-formed accelerators, and reading its own output
      again changes nothing. */
  lemma ParsesToExactly(a: Accelerator)
    ensures WellFormed(a) <==> exists raw :: Parse(raw) == Ok(a)
  {
    if WellFormed(a) { ParseUndoesPrint(a); }
    if raw :| Parse(raw) == Ok(a) { ParsedIsWellFormed(raw); }
  }

  lemma ParsedIsWellFormed(raw: string)
    requires Parse(raw).Ok?
    ensures WellFormed(Parse(raw).value)
  {
    TokensGiveWellFormed(Split(TrimSpace(raw), '+'), []);
  }

  lemma ParseIsStable(raw: string)
    requires Parse(raw).Ok?
    ensures Parse(Print(Parse(raw).value)) == Parse(raw)
  {
    ParsedIsWellFormed(raw);
    ParseUndoesPrint(Parse(raw).value);
  }

  /** Two accelerators print alike only if they are the same. */
  lemma PrintIsInjective(a: Accelerator, b: Accelerator)
    requires WellFormed(a) && WellFormed(b) && Print(a) == Print(b)
    ensures a == b
  {
    ParseUndoesPrint(a);
    ParseUndoesPrint(b);
  }

  // ----- the registry -----

  class Registry {
    var callbacks: map<string, int>
    var suspended: bool

    constructor ()
      ensures callbacks == map[] && !suspended
    {
      callbacks, suspended := map[], false;
    }

    /** The callback registered for an accelerator. */
    ghost function Lookup(a: Accelerator): Option<int>
      reads this
    {
      if Print(a) in callbacks then Some(callbacks[Print(a)]) else None
    }

    /** The accelerator, if it parses and is free, gets the callback; every other
        accelerator keeps what it had, however it is spelled. */
    method Register(raw: string, callback: Option<int>) returns (r: Result<bool, Error>)
      modifies this
      ensures suspended == old(suspended)
      ensures Parse(raw).Err? ==> r == Err(Parse(raw).error)
      ensures Parse(raw).Ok? && callback.None? ==> r == Err(CallbackRequired)
      ensures Parse(raw).Ok? && callback.Some? ==> r == Ok(old(Lookup(Parse(raw).value)).None?)
      ensures forall a :: WellFormed(a) ==>
        (Lookup(a) == if r == Ok(true) && Parse(raw) == Ok(a) then callback else old(Lookup(a)))
    {
      var parsed := ParseAccelerator(raw);
      if parsed.Err? { return Err(parsed.error); }
      if callback.None? { return Err(CallbackRequired); }
      ParsedIsWellFormed(raw);
      var canonical := Print(parsed.value);
      if canonical in callbacks { return Ok(false); }
      callbacks := callbacks[canonical := callback.value];
      forall a | WellFormed(a) && Print(a) == canonical ensures a == parsed.value { PrintIsInjective(a, parsed.value); }
      r := Ok(true);
    }

    method IsRegistered(raw: string) returns (found: bool)
      ensures found <==> Parse(raw).Ok? && Lookup(Parse(raw).value).Some?
    {
      var parsed := ParseAccelerator(raw);
      found := parsed.Ok? && Print(parsed.value) in callbacks;
    }

    method Unregister(raw: string)
      modifies this
      ensures suspended == old(suspended)
      ensures forall a :: WellFormed(a) ==> (Lookup(a) == if Parse(raw) == Ok(a) then None else old(Lookup(a)))
    {
      var parsed := ParseAccelerator(raw);
      if parsed.Err? { return; }
      ParsedIsWellFormed(raw);
      var canonical := Print(parsed.value);
      callbacks := callbacks - {canonical};
      forall a | WellFormed(a) && Print(a) == canonical ensures a == parsed.value { PrintIsInjective(a, parsed.value); }
    }

    method UnregisterAll()
      modifies this
      ensures suspended == old(suspended) && forall a :: Lookup(a).None?
    {
      callbacks := map[];
    }

    method SetSuspended(on: bool)
      modifies this
      ensures suspended == on && callbacks == old(callbacks)
    {
      suspended := on;
    }

    /** Handled when registered; the callback runs only when not suspended. */
    method Trigger(raw: string) returns (handled: bool, ran: Option<int>)
      ensures handled <==> Parse(raw).Ok? && Lookup(Parse(raw).value).Some?
      ensures ran == if handled && !suspended then Lookup(Parse(raw).value) else None
    {
      var parsed := ParseAccelerator(raw);
      if parsed.Err? || Print(parsed.value) !in callbacks { return false, None; }
      handled, ran := true, if suspended then None else Some(callbacks[Print(parsed.value)]);
    }
  }

  /** Two spellings share one registration exactly when their modifier sequence and key
      agree. */
  lemma SpellingsShare(a: string, b: string)
    requires Parse(a).Ok? && Parse(b).Ok?
    ensures Print(Parse(a).value) == Print(Parse(b).value) <==> Parse(a) == Parse(b)
  {
    ParsedIsWellFormed(a);
    ParsedIsWellFormed(b);
    if Print(Parse(a).value) == Print(Parse(b).value) { PrintIsInjective(Parse(a).value, Parse(b).value); }
  }
}
