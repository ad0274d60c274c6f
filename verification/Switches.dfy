/** Merging the default CEF switches into a command line
    (internal/native/cef_linux.go:41-58, 368-424; internal/native/bridge.go:167-174). */
module Switches {
  import opened Wrappers

  const PATH: string := "--browser-subprocess-path"
  const TYPE: string := "--type"

  const FEATURES: string := "--disable-features"
  const FEATURE_LIST: string :=
    "AutofillServerCommunication," + "CertificateTransparency" + "ComponentUpdater," + "MediaRouter,OptimizationHints"

  const DEFAULTS: seq<string> := [
    "--disable-background-networking",
    "--disable-breakpad",
    "--disable-component-update",
    "--disable-default-apps",
    "--disable-extensions",
    FEATURES + "=" + FEATURE_LIST,
    "--disable-gpu",
    "--disable-gpu-sandbox",
    "--disable-dev-shm-usage",
    "--disable-sync",
    "--in-process-gpu",
    "--metrics-recording-only",
    "--no-default-browser-check",
    "--no-first-run",
    "--no-sandbox",
    "--no-zygote"]

  /** The argument is the switch, alone or with a value. */
  predicate Names(arg: string, flag: string)
  {
    arg == flag || flag + "=" <= arg
  }

  predicate IsSubprocess(args: seq<string>)
  {
    exists i :: 0 <= i < |args| && Names(args[i], TYPE)
  }

  /** The first switch of the table the argument names. */
  function FirstNamed(arg: string, table: seq<string>): Option<string>
  {
    if table == [] then None
    else if Names(arg, table[0]) then Some(table[0])
    else FirstNamed(arg, table[1..])
  }

  function SwitchName(arg: string, table: seq<string>): Option<string>
  {
    if Names(arg, PATH) then Some(PATH) else FirstNamed(arg, table)
  }

  /** The known switches among the arguments. */
  function Present(args: seq<string>, table: seq<string>): set<string>
  {
    set i | 0 <= i < |args| && SwitchName(args[i], table).Some? :: SwitchName(args[i], table).value
  }

  /** The switches of the table that are not there, in table order. */
  function Missing(table: seq<string>, present: set<string>): seq<string>
  {
    if table == [] then []
    else (if table[0] in present then [] else [table[0]]) + Missing(table[1..], present)
  }

  function PathSwitch(present: set<string>, executable: string): seq<string>
  {
    if PATH in present || executable == "" then [] else [PATH + "=" + executable]
  }

  /** The general loop, without the shortcut. */
  function Merge(args: seq<string>, table: seq<string>, executable: string): seq<string>
  {
    if IsSubprocess(args) then args
    else args + Missing(table, Present(args, table)) + PathSwitch(Present(args, table), executable)
  }

  lemma {:induction false} NothingPresent(table: seq<string>)
    ensures Missing(table, {}) == table
  {
    if table != [] { NothingPresent(table[1..]); }
  }

  // ----- as it runs -----

  method IsCEFSubprocessArgs(args: seq<string>) returns (found: bool)
    ensures found == IsSubprocess(args)
  {
    for i := 0 to |args|
      invariant !IsSubprocess(args[..i])
    {
      if args[i] == TYPE || TYPE + "=" <= args[i] { return true; }
    }
    assert args[..|args|] == args;
    found := false;
  }

  method CefSwitchName(arg: string, table: seq<string>) returns (name: Option<string>)
    ensures name == SwitchName(arg, table)
  {
    if arg == PATH || PATH + "=" <= arg { return Some(PATH); }
    for i := 0 to |table|
      invariant FirstNamed(arg, table[i..]) == FirstNamed(arg, table)
    {
      if arg == table[i] || table[i] + "=" <= arg { return Some(table[i]); }
      assert table[i..][1..] == table[i + 1..];
    }
    name := None;
  }

  method PresentCEFSwitches(args: seq<string>, table: seq<string>) returns (present: set<string>)
    ensures present == Present(args, table)
  {
    present := {};
    for i := 0 to |args|
      invariant present == Present(args[..i], table)
    {
      PresentSnoc(args[..i], args[i], table);
      assert args[..i + 1] == args[..i] + [args[i]];
      var name := CefSwitchName(args[i], table);
      if name.Some? { present := present + {name.value}; }
    }
    assert args[..|args|] == args;
  }

  lemma PresentSnoc(args: seq<string>, arg: string, table: seq<string>)
    ensures
      var name := SwitchName(arg, table);
      Present(args + [arg], table) == Present(args, table) + if name.Some? then {name.value} else {}
  {
    var more := args + [arg];
    assert more[|args|] == arg;
    forall n | n in Present(args, table) ensures n in Present(more, table) {
      var i :| 0 <= i < |args| && SwitchName(args[i], table) == Some(n);
      assert more[i] == args[i];
    }
  }

  method AppendMissing(args: seq<string>, table: seq<string>, present: set<string>) returns (out: seq<string>)
    ensures out == args + Missing(table, present)
  {
    out := args;
    for i := 0 to |table|
      invariant out + Missing(table[i..], present) == args + Missing(table, present)
    {
      assert table[i..][1..] == table[i + 1..];
      if table[i] !in present { out := out + [table[i]]; }
    }
  }

  /** With the shortcut for a command line that names no known switch: the same result. */
  method AppendSwitches(args: seq<string>, table: seq<string>, executable: string) returns (out: seq<string>)
    ensures out == Merge(args, table, executable)
  {
    out := args;
    var subprocess := IsCEFSubprocessArgs(out);
    if subprocess { return; }
    var present := PresentCEFSwitches(out, table);
    if |present| == 0 {
      NothingPresent(table);
      out := out + table;
      if executable != "" { out := out + [PATH + "=" + executable]; }
      return;
    }
    out := AppendMissing(out, table, present);
    if PATH !in present && executable != "" { out := out + [PATH + "=" + executable]; }
  }

  // ----- what merging does -----

  /** A usable table: no switch is read as another one, as a path or as a process type. */
  ghost predicate Separated(table: seq<string>)
  {
    && (forall i, j :: 0 <= i < |table| && 0 <= j < |table| && Names(table[i], table[j]) ==> i == j)
    && (forall i :: 0 <= i < |table| ==> !Names(table[i], PATH) && !Names(table[i], TYPE))
  }

  lemma {:induction false} MissingAre(table: seq<string>, present: set<string>)
    ensures forall f :: f in Missing(table, present) <==> f in table && f !in present
  {
    if table != [] {
      MissingAre(table[1..], present);
      assert table == [table[0]] + table[1..];
    }
  }

  lemma {:induction false} NamesItself(table: seq<string>, i: nat)
    requires Separated(table) && i < |table|
    ensures SwitchName(table[i], table) == Some(table[i])
  {
    FirstNamedAt(table[i], table, i);
  }

  lemma {:induction false} FirstNamedAt(arg: string, table: seq<string>, i: nat)
    requires i < |table| && Names(arg, table[i]) && forall j :: 0 <= j < i ==> !Names(arg, table[j])
    ensures FirstNamed(arg, table) == Some(table[i])
  {
    if i > 0 { FirstNamedAt(arg, table[1..], i - 1); }
  }

  lemma PresentConcat(a: seq<string>, b: seq<string>, table: seq<string>)
    ensures Present(a + b, table) == Present(a, table) + Present(b, table)
  {
    forall n | n in Present(a, table) + Present(b, table) ensures n in Present(a + b, table) {
      if n in Present(a, table) {
        var i :| 0 <= i < |a| && SwitchName(a[i], table) == Some(n);
        assert (a + b)[i] == a[i];
      } else {
        var i :| 0 <= i < |b| && SwitchName(b[i], table) == Some(n);
        assert (a + b)[|a| + i] == b[i];
      }
    }
  }

  /** All that was given stays in front; afterwards every default is named; and nothing
      is added that was named before. */
  lemma MergeCompletes(args: seq<string>, table: seq<string>, executable: string)
    requires Separated(table) && !IsSubprocess(args)
    ensures
      var out := Merge(args, table, executable);
      && args <= out
      && (forall f :: f in table ==> f in Present(out, table))
      && (executable != "" ==> PATH in Present(out, table))
      && (forall i :: |args| <= i < |out| ==> SwitchName(out[i], table).Some? && SwitchName(out[i], table).value !in Present(args, table))
      && !IsSubprocess(out)
  {
    var present := Present(args, table);
    var missing, path := Missing(table, present), PathSwitch(present, executable);
    var out := Merge(args, table, executable);
    MissingAre(table, present);
    PresentConcat(args + missing, path, table);
    PresentConcat(args, missing, table);
    PathNamed(executable);
    forall f | f in table ensures f in Present(out, table) && SwitchName(f, table) == Some(f) {
      var i :| 0 <= i < |table| && table[i] == f;
      NamesItself(table, i);
      if f !in present {
        var k :| 0 <= k < |missing| && missing[k] == f;
        assert f in Present(missing, table);
      }
    }
    if path != [] { assert SwitchName(path[0], table) == Some(PATH) && PATH in Present(path, table); }
    forall i | 0 <= i < |out| ensures !Names(out[i], TYPE) {
      assert out[i] in args || out[i] in missing || out[i] in path;
    }
    forall i | |args| <= i < |out|
      ensures SwitchName(out[i], table).Some? && SwitchName(out[i], table).value !in present
    {
      assert out[i] in missing || out[i] in path;
    }
  }

  /** What is added comes from the table, or is the path switch with this executable, which
      comes last and only if there is one. */
  lemma AddsFromTable(args: seq<string>, table: seq<string>, executable: string)
    ensures
      var out := Merge(args, table, executable);
      && args <= out
      && (forall i :: |args| <= i < |out| - 1 ==> out[i] in table)
      && (|out| > |args| && out[|out| - 1] !in table ==>
            executable != "" && out[|out| - 1] == "--browser-subprocess-path" + ("=" + executable))
  {
    var missing := Missing(table, Present(args, table));
    MissingAre(table, Present(args, table));
    var out := Merge(args, table, executable);
    forall i | |args| <= i < |out| && i < |args| + |missing| ensures out[i] in table { assert IsSubprocess(args) || out[i] == missing[i - |args|]; }
  }

  lemma PathNamed(executable: string)
    ensures Names(PATH + "=" + executable, PATH) && !Names(PATH + "=" + executable, TYPE)
  {
    var arg := PATH + "=" + executable;
    assert arg[..|PATH| + 1] == PATH + "=";
    assert arg[2] == 'b' && TYPE[2] == 't';
    assert arg[2] != (TYPE + "=")[2];
  }

  lemma {:induction false} NoneMissing(table: seq<string>, present: set<string>)
    requires forall f :: f in table ==> f in present
    ensures Missing(table, present) == []
  {
    if table != [] {
      assert table[0] in table;
      NoneMissing(table[1..], present);
    }
  }

  /** Merging again adds nothing, for every command line and executable. */
  lemma MergeIsIdempotent(args: seq<string>, table: seq<string>, executable: string)
    requires Separated(table)
    ensures Merge(Merge(args, table, executable), table, executable) == Merge(args, table, executable)
  {
    if !IsSubprocess(args) {
      MergeCompletes(args, table, executable);
      var out := Merge(args, table, executable);
      NoneMissing(table, Present(out, table));
      assert out + [] + [] == out;
    }
  }

  // ----- the table -----

  /** Only one default has an equals sign in it. */
  lemma NoEqualsSign(i: nat)
    requires i < |DEFAULTS| && i != 5
    ensures '=' !in DEFAULTS[i]
  {
  }

  const LENGTHS: seq<nat> := [31, 18, 26, 22, 20, 116, 13, 21, 23, 14, 16, 24, 26, 14, 12, 11]

  const LETTERS: string := "ddddddddddimnnnn"

  lemma LettersOfDefaults(i: nat)
    requires i < |DEFAULTS|
    ensures |DEFAULTS[i]| > 2 && DEFAULTS[i][2] == LETTERS[i]
  {
  }

  lemma LengthsOfDefaults(i: nat)
    requires i < |DEFAULTS|
    ensures |DEFAULTS[i]| == LENGTHS[i]
    ensures DEFAULTS[i] != TYPE && !(TYPE + "=" <= DEFAULTS[i])
    ensures DEFAULTS[i] != PATH && !(PATH + "=" <= DEFAULTS[i])
  {
    LettersOfDefaults(i);
    assert TYPE[2] == 't' && (TYPE + "=")[2] == 't' && PATH[2] == 'b' && (PATH + "=")[2] == 'b';
  }

  lemma DefaultsDiffer(i: nat, j: nat)
    requires i < |DEFAULTS| && j < |DEFAULTS| && DEFAULTS[i] == DEFAULTS[j]
    ensures i == j
  {
    LengthsOfDefaults(i);
    LengthsOfDefaults(j);
    LettersOfDefaults(i);
    LettersOfDefaults(j);
    SignsDiffer(i, j);
  }

  /** Length and third letter tell the defaults apart. */
  lemma SignsDiffer(i: nat, j: nat)
    requires i < 16 && j < 16
    ensures LENGTHS[i] == LENGTHS[j] && LETTERS[i] == LETTERS[j] ==> i == j
  {
  }

  lemma FeaturesIsNoValue(j: nat)
    requires j < |DEFAULTS|
    ensures !(DEFAULTS[j] + "=" <= DEFAULTS[5])
  {
    LengthsOfDefaults(j);
    if |DEFAULTS[j]| < |DEFAULTS[5]| && |DEFAULTS[j]| != 18 { NoOtherEqualsSign(|DEFAULTS[j]|); }
    if DEFAULTS[j] + "=" <= DEFAULTS[5] {
      HasEqualsSign(DEFAULTS[j], DEFAULTS[5]);
      BreakpadIsNoPrefix(DEFAULTS[j]);
    }
  }

  lemma HasEqualsSign(a: string, b: string)
    requires a + "=" <= b
    ensures |a| < |b| && b[|a|] == '='
  {
  }

  lemma FeatureTextHasNoEqualsSign()
    ensures '=' !in FEATURES && '=' !in FEATURE_LIST
  {
    assert '=' !in FEATURES;
    assert '=' !in "AutofillServerCommunication," && '=' !in "CertificateTransparency";
    assert '=' !in "ComponentUpdater," && '=' !in "MediaRouter,OptimizationHints";
    assert '=' !in FEATURE_LIST;
  }

  lemma NoOtherEqualsSign(k: nat)
    requires k < |DEFAULTS[5]| && k != 18
    ensures DEFAULTS[5][k] != '='
  {
    FeatureTextHasNoEqualsSign();
    assert DEFAULTS[5][k] == if k < 18 then FEATURES[k] else FEATURE_LIST[k - 19];
  }

  lemma BreakpadIsNoPrefix(a: string)
    requires a <= DEFAULTS[5] && |a| == 18
    ensures a != DEFAULTS[1]
  {
    assert DEFAULTS[1][10] == 'b' && FEATURES[10] == 'f' == DEFAULTS[5][10];
  }

  lemma DefaultsAreSeparated()
    ensures Separated(DEFAULTS)
  {
    forall i, j | 0 <= i < |DEFAULTS| && 0 <= j < |DEFAULTS| && Names(DEFAULTS[i], DEFAULTS[j]) ensures i == j {
      if DEFAULTS[i] == DEFAULTS[j] {
        DefaultsDiffer(i, j);
      } else if i == 5 {
        FeaturesIsNoValue(j);
      } else {
        HasEqualsSign(DEFAULTS[j], DEFAULTS[i]);
        NoEqualsSign(i);
      }
    }
    forall i | 0 <= i < |DEFAULTS| ensures !Names(DEFAULTS[i], PATH) && !Names(DEFAULTS[i], TYPE) {
      LengthsOfDefaults(i);
    }
  }

  /** The function as it is called: the arguments stay in front, every default is named
      afterwards, and a second call changes nothing. */
  method AppendCEFBrowserProcessSwitches(args: seq<string>, executable: string) returns (out: seq<string>)
    ensures out == Merge(args, DEFAULTS, executable) && args <= out
    ensures Merge(out, DEFAULTS, executable) == out
    ensures !IsSubprocess(args) ==> forall f :: f in DEFAULTS ==> f in Present(out, DEFAULTS)
  {
    DefaultsAreSeparated();
    MergeIsIdempotent(args, DEFAULTS, executable);
    if !IsSubprocess(args) { MergeCompletes(args, DEFAULTS, executable); }
    out := AppendSwitches(args, DEFAULTS, executable);
  }
}
