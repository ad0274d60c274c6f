/** The command tokenizer of the benchmark tool (tools/benchmarks/main.go:803-854). */
module CommandLine {
  import opened Wrappers
  import opened Text

  datatype Error = UnfinishedEscape | UnterminatedQuote(quote: char)

  /** The loop's variables. `args` holds the finished arguments. */
  datatype Scan = Scan(args: seq<string>, current: string, quote: Option<char>, escaped: bool, inToken: bool)

  const START := Scan([], "", None, false, false)

  function Take(s: Scan, c: char): Scan
  {
    if s.escaped then s.(current := s.current + [c], escaped := false, inToken := true)
    else if c == '\\' then s.(escaped := true, inToken := true)
    else if s.quote.Some? then
      if c == s.quote.value then s.(quote := None, inToken := true)
      else s.(current := s.current + [c], inToken := true)
    else if c == '\'' || c == '"' then s.(quote := Some(c), inToken := true)
    else if c == ' ' || c == '\t' || c == '\n' || c == '\r' then
      if s.inToken then s.(args := s.args + [s.current], current := "", inToken := false) else s
    else s.(current := s.current + [c], inToken := true)
  }

  function TakeAll(s: Scan, input: string): Scan
    decreases |input|
  {
    if input == "" then s else TakeAll(Take(s, input[0]), input[1..])
  }

  function Finish(s: Scan): Result<seq<string>, Error>
  {
    if s.escaped then Err(UnfinishedEscape)
    else if s.quote.Some? then Err(UnterminatedQuote(s.quote.value))
    else Ok(if s.inToken then s.args + [s.current] else s.args)
  }

  function SplitCommand(input: string): Result<seq<string>, Error>
  {
    Finish(TakeAll(START, input))
  }

  method Tokenize(input: string) returns (r: Result<seq<string>, Error>)
    ensures r == SplitCommand(input)
  {
    var args: seq<string>, current, quote, escaped, inToken := [], "", None, false, false;
    var i := 0;
    while i < |input|
      invariant 0 <= i <= |input|
      invariant TakeAll(Scan(args, current, quote, escaped, inToken), input[i..]) == TakeAll(START, input)
    {
      var c := input[i];
      assert input[i..][1..] == input[i + 1..];
      i := i + 1;
      if escaped {
        current, escaped, inToken := current + [c], false, true;
      } else if c == '\\' {
        escaped, inToken := true, true;
      } else if quote.Some? {
        if c == quote.value { quote := None; } else { current := current + [c]; }
        inToken := true;
      } else if c == '\'' || c == '"' {
        quote, inToken := Some(c), true;
      } else if c == ' ' || c == '\t' || c == '\n' || c == '\r' {
        if inToken { args, current, inToken := args + [current], "", false; }
      } else {
        current, inToken := current + [c], true;
      }
    }
    if escaped { return Err(UnfinishedEscape); }
    if quote.Some? { return Err(UnterminatedQuote(quote.value)); }
    if inToken { args := args + [current]; }
    r := Ok(args);
  }

  lemma {:induction false} TakeConcat(s: Scan, a: string, b: string)
    ensures TakeAll(s, a + b) == TakeAll(TakeAll(s, a), b)
    decreases |a|
  {
    if a == "" {
      assert a + b == b;
    } else {
      assert (a + b)[1..] == a[1..] + b;
      TakeConcat(Take(s, a[0]), a[1..], b);
    }
  }

  /** Finished arguments are only ever added to. */
  lemma {:induction false} TakeAfter(pre: seq<string>, s: Scan, input: string)
    ensures TakeAll(s.(args := pre + s.args), input) == TakeAll(s, input).(args := pre + TakeAll(s, input).args)
    decreases |input|
  {
    if input != "" {
      assert pre + (s.args + [s.current]) == pre + s.args + [s.current];
      assert Take(s.(args := pre + s.args), input[0]) == Take(s, input[0]).(args := pre + Take(s, input[0]).args);
      TakeAfter(pre, Take(s, input[0]), input[1..]);
    }
  }

  /** A command that splits, a space, and anything: the arguments of both, or the error
      of the second. */
  lemma SplitOfTwo(a: string, b: string)
    requires SplitCommand(a).Ok?
    ensures SplitCommand(a + " " + b) == match SplitCommand(b) {
              case Ok(more) => Ok(SplitCommand(a).value + more)
              case Err(e) => Err(e)
            }
  {
    var first := TakeAll(START, a);
    var args := SplitCommand(a).value;
    TakeConcat(START, a + " ", b);
    TakeConcat(START, a, " ");
    assert TakeAll(first, " ") == Take(first, ' ');
    var next := Take(first, ' ');
    if !first.inToken { FreshFrom(START, a); }
    assert next == START.(args := args + []);
    TakeAfter(args, START, b);
    var second := TakeAll(START, b);
    assert args + second.args + [second.current] == args + (second.args + [second.current]);
  }

  lemma {:induction false} FreshFrom(s: Scan, input: string)
    requires s.inToken || (s.current == "" && !s.escaped && s.quote.None?)
    ensures var t := TakeAll(s, input); t.inToken || (t.current == "" && !t.escaped && t.quote.None?)
    decreases |input|
  {
    if input != "" { FreshFrom(Take(s, input[0]), input[1..]); }
  }

  // ----- a printer the tokenizer undoes -----

  function Escape(arg: string): string
  {
    if arg == "" then ""
    else (if arg[0] == '"' || arg[0] == '\\' then ['\\', arg[0]] else [arg[0]]) + Escape(arg[1..])
  }

  function Quote(arg: string): string
  {
    ['"'] + Escape(arg) + ['"']
  }

  function QuoteAll(args: seq<string>): (r: seq<string>)
    ensures |r| == |args|
  {
    if args == [] then [] else [Quote(args[0])] + QuoteAll(args[1..])
  }

  function PrintCommand(args: seq<string>): string
  {
    Join(QuoteAll(args), ' ')
  }

  lemma {:induction false} TakeEscaped(s: Scan, arg: string)
    requires s.quote == Some('"') && !s.escaped && s.inToken
    ensures TakeAll(s, Escape(arg)) == s.(current := s.current + arg)
    decreases |arg|
  {
    if arg == "" {
      assert s.current + arg == s.current;
    } else {
      var first := if arg[0] == '"' || arg[0] == '\\' then ['\\', arg[0]] else [arg[0]];
      var next := s.(current := s.current + [arg[0]]);
      TakeConcat(s, first, Escape(arg[1..]));
      if |first| == 2 {
        assert first[1..] == [arg[0]] && first[1..][1..] == "";
        assert TakeAll(Take(s, '\\'), [arg[0]]) == Take(Take(s, '\\'), arg[0]);
      }
      assert TakeAll(s, first) == next;
      TakeEscaped(next, arg[1..]);
      assert s.current + [arg[0]] + arg[1..] == s.current + arg;
    }
  }

  lemma TakeQuoted(arg: string)
    ensures SplitCommand(Quote(arg)) == Ok([arg])
  {
    var inside := START.(quote := Some('"'), inToken := true);
    TakeConcat(START, ['"'] + Escape(arg), ['"']);
    TakeConcat(START, ['"'], Escape(arg));
    assert TakeAll(START, ['"']) == Take(START, '"') == inside;
    TakeEscaped(inside, arg);
    assert "" + arg == arg;
    var last := inside.(current := arg);
    assert TakeAll(START, ['"'] + Escape(arg)) == last;
    assert TakeAll(last, ['"']) == Take(last, '"');
    var none: seq<string> := [];
    assert none + [arg] == [arg];
  }

  /** Printing any argument list and splitting it gives the list back, empty arguments
      and empty lists included. */
  lemma {:induction false} SplitUndoesPrint(args: seq<string>)
    ensures SplitCommand(PrintCommand(args)) == Ok(args)
    decreases |args|
  {
    if |args| == 0 {
    } else {
      TakeQuoted(args[0]);
      if |args| == 1 {
        assert args == [args[0]];
      } else {
        assert QuoteAll(args)[1..] == QuoteAll(args[1..]);
        assert PrintCommand(args) == Quote(args[0]) + " " + PrintCommand(args[1..]);
        SplitUndoesPrint(args[1..]);
        SplitOfTwo(Quote(args[0]), PrintCommand(args[1..]));
        assert args == [args[0]] + args[1..];
      }
    }
  }

  // ----- how a command is written -----

  /** A character as it stands, or behind a backslash. */
  datatype Letter = Plain(c: char) | Escaped(c: char)

  /** A part of an argument: outside quotes, or between two of them. */
  datatype Part = Open(letter: Letter) | Quoted(quote: char, letters: seq<Letter>)

  predicate IsGap(c: char)
  {
    c in {' ', '\t', '\n', '\r'}
  }

  predicate IsQuote(c: char)
  {
    c in {'\'', '"'}
  }

  /** Outside quotes blanks, quotes and backslashes need a backslash, inside only the
      closing quote and backslashes do. */
  predicate GoodPart(p: Part)
  {
    match p
    case Open(letter) => letter.Plain? ==> !IsGap(letter.c) && !IsQuote(letter.c) && letter.c != '\\'
    case Quoted(quote, letters) =>
      IsQuote(quote) && forall i :: 0 <= i < |letters| && letters[i].Plain? ==> letters[i].c != quote && letters[i].c != '\\'
  }

  function Written(l: Letter): string
  {
    if l.Plain? then [l.c] else ['\\', l.c]
  }

  function WrittenAll(letters: seq<Letter>): string
  {
    if letters == [] then "" else Written(letters[0]) + WrittenAll(letters[1..])
  }

  function Meant(letters: seq<Letter>): string
  {
    if letters == [] then "" else [letters[0].c] + Meant(letters[1..])
  }

  function PartText(p: Part): string
  {
    match p
    case Open(letter) => Written(letter)
    case Quoted(quote, letters) => [quote] + WrittenAll(letters) + [quote]
  }

  function PartMeans(p: Part): string
  {
    match p
    case Open(letter) => [letter.c]
    case Quoted(_, letters) => Meant(letters)
  }

  function ArgumentText(parts: seq<Part>): string
  {
    if parts == [] then "" else PartText(parts[0]) + ArgumentText(parts[1..])
  }

  function ArgumentMeans(parts: seq<Part>): string
  {
    if parts == [] then "" else PartMeans(parts[0]) + ArgumentMeans(parts[1..])
  }

  /** Arguments, each behind its gap. */
  function CommandText(gaps: seq<string>, arguments: seq<seq<Part>>): string
    requires |gaps| == |arguments|
    decreases |arguments|
  {
    if arguments == [] then "" else gaps[0] + ArgumentText(arguments[0]) + CommandText(gaps[1..], arguments[1..])
  }

  function Meanings(arguments: seq<seq<Part>>): (r: seq<string>)
    ensures |r| == |arguments| && forall i :: 0 <= i < |r| ==> r[i] == ArgumentMeans(arguments[i])
  {
    if arguments == [] then [] else [ArgumentMeans(arguments[0])] + Meanings(arguments[1..])
  }

  predicate AllGaps(gap: string)
  {
    forall i :: 0 <= i < |gap| ==> IsGap(gap[i])
  }

  lemma TakeSingle(s: Scan, c: char)
    ensures TakeAll(s, [c]) == Take(s, c)
  {
    TakeOne(s, [c]);
    assert [c][1..] == "";
  }

  lemma TakePair(s: Scan, a: char, b: char)
    ensures TakeAll(s, [a, b]) == Take(Take(s, a), b)
  {
    TakeOne(s, [a, b]);
    assert [a, b][1..] == [b];
    TakeSingle(Take(s, a), b);
  }

  /** A letter adds its character, escaped or not. */
  lemma TakeLetter(s: Scan, l: Letter)
    requires !s.escaped
    requires l.Plain? ==> l.c != '\\' && (if s.quote.Some? then l.c != s.quote.value else !IsGap(l.c) && !IsQuote(l.c))
    ensures TakeAll(s, Written(l)) == s.(current := s.current + [l.c], inToken := true)
  {
    if l.Plain? { TakeSingle(s, l.c); } else { TakePair(s, '\\', l.c); }
  }

  lemma Regroup(a: string, b: string, c: string)
    ensures a + b + c == a + (b + c)
  {
  }

  lemma {:induction false} TakeLetters(s: Scan, quote: char, letters: seq<Letter>)
    requires s.quote == Some(quote) && !s.escaped && s.inToken && GoodPart(Quoted(quote, letters))
    ensures TakeAll(s, WrittenAll(letters)) == s.(current := s.current + Meant(letters))
    decreases |letters|
  {
    if letters == [] {
      assert s.current + "" == s.current;
    } else {
      var next := s.(current := s.current + [letters[0].c]);
      TakeLetter(s, letters[0]);
      TakeConcat(s, Written(letters[0]), WrittenAll(letters[1..]));
      TakeLetters(next, quote, letters[1..]);
      Regroup(s.current, [letters[0].c], Meant(letters[1..]));
    }
  }

  lemma TakePart(s: Scan, p: Part)
    requires s.quote.None? && !s.escaped && GoodPart(p)
    ensures TakeAll(s, PartText(p)) == s.(current := s.current + PartMeans(p), inToken := true)
  {
    match p
    case Open(letter) => TakeLetter(s, letter);
    case Quoted(quote, letters) =>
      var inside := s.(quote := Some(quote), inToken := true);
      TakeSingle(s, quote);
      TakeConcat(s, [quote], WrittenAll(letters));
      TakeLetters(inside, quote, letters);
      var after := inside.(current := s.current + Meant(letters));
      TakeConcat(s, [quote] + WrittenAll(letters), [quote]);
      TakeSingle(after, quote);
  }

  lemma {:induction false} TakeParts(s: Scan, parts: seq<Part>)
    requires s.quote.None? && !s.escaped && forall i :: 0 <= i < |parts| ==> GoodPart(parts[i])
    ensures TakeAll(s, ArgumentText(parts)) == s.(current := s.current + ArgumentMeans(parts), inToken := s.inToken || parts != [])
    decreases |parts|
  {
    if parts == [] {
      assert s.current + "" == s.current;
    } else {
      var next := s.(current := s.current + PartMeans(parts[0]), inToken := true);
      TakePart(s, parts[0]);
      TakeConcat(s, PartText(parts[0]), ArgumentText(parts[1..]));
      TakeParts(next, parts[1..]);
      Regroup(s.current, PartMeans(parts[0]), ArgumentMeans(parts[1..]));
    }
  }

  /** A gap ends the argument before it, and does nothing more. */
  lemma {:induction false} TakeGap(s: Scan, gap: string)
    requires s.quote.None? && !s.escaped && AllGaps(gap) && (s.inToken || s.current == "")
    ensures TakeAll(s, gap) == if gap != "" && s.inToken then s.(args := s.args + [s.current], current := "", inToken := false) else s
    decreases |gap|
  {
    if gap != "" { TakeGap(Take(s, gap[0]), gap[1..]); }
  }

  /** Arguments written with any mixture of plain, escaped and quoted parts, with any
      blanks between, before and behind them, split to what they mean. */
  lemma SplitsAsWritten(gaps: seq<string>, arguments: seq<seq<Part>>, last: string)
    requires |gaps| == |arguments| && AllGaps(last) && Separated(gaps, 0) && GoodArguments(arguments)
    ensures SplitCommand(CommandText(gaps, arguments) + last) == Ok(Meanings(arguments))
  {
    var none: seq<string> := [];
    assert none + Meanings(arguments) == Meanings(arguments);
    TakeCommand(START, gaps, arguments, last);
  }

  /** The gaps are blanks, and from this one on none is empty but the very first. */
  predicate Separated(gaps: seq<string>, from: nat)
  {
    forall i :: 0 <= i < |gaps| ==> AllGaps(gaps[i]) && (from + i > 0 ==> gaps[i] != "")
  }

  predicate GoodArguments(arguments: seq<seq<Part>>)
  {
    forall i :: 0 <= i < |arguments| ==> arguments[i] != [] && forall j :: 0 <= j < |arguments[i]| ==> GoodPart(arguments[i][j])
  }

  function Ended(s: Scan): seq<string>
  {
    if s.inToken then s.args + [s.current] else s.args
  }

  lemma {:induction false} TakeCommand(s: Scan, gaps: seq<string>, arguments: seq<seq<Part>>, last: string)
    requires s.quote.None? && !s.escaped && (s.inToken || s.current == "") && AllGaps(last)
    requires |gaps| == |arguments| && Separated(gaps, if s.inToken then 1 else 0) && GoodArguments(arguments)
    ensures Finish(TakeAll(s, CommandText(gaps, arguments) + last)) == Ok(Ended(s) + Meanings(arguments))
    decreases |arguments|
  {
    if arguments == [] {
      assert "" + last == last;
      TakeGap(s, last);
      assert Ended(s) + Meanings(arguments) == Ended(s);
    } else {
      var rest := CommandText(gaps[1..], arguments[1..]);
      CommandStarts(gaps[0], ArgumentText(arguments[0]), rest, last);
      var next := NextArgument(s, gaps[0], arguments[0], rest + last);
      TakeCommand(next, gaps[1..], arguments[1..], last);
      MeaningsFirst(s, next, arguments);
    }
  }

  lemma CommandStarts(gap: string, argument: string, rest: string, last: string)
    ensures gap + argument + rest + last == gap + (argument + (rest + last))
  {
  }

  lemma MeaningsFirst(s: Scan, next: Scan, arguments: seq<seq<Part>>)
    requires arguments != [] && next == Scan(Ended(s), ArgumentMeans(arguments[0]), None, false, true)
    ensures Ended(next) + Meanings(arguments[1..]) == Ended(s) + Meanings(arguments)
  {
  }

  /** A gap and an argument. */
  lemma NextArgument(s: Scan, gap: string, parts: seq<Part>, rest: string) returns (next: Scan)
    requires s.quote.None? && !s.escaped && (s.inToken || s.current == "")
    requires AllGaps(gap) && (s.inToken ==> gap != "") && parts != [] && forall j :: 0 <= j < |parts| ==> GoodPart(parts[j])
    ensures TakeAll(s, gap + (ArgumentText(parts) + rest)) == TakeAll(next, rest)
    ensures next == Scan(Ended(s), ArgumentMeans(parts), None, false, true)
  {
    var between := Scan(Ended(s), "", None, false, false);
    next := Scan(Ended(s), ArgumentMeans(parts), None, false, true);
    TakeConcat(s, gap, ArgumentText(parts) + rest);
    TakeGap(s, gap);
    assert TakeAll(s, gap) == between;
    TakeConcat(between, ArgumentText(parts), rest);
    TakeParts(between, parts);
    assert "" + ArgumentMeans(parts) == ArgumentMeans(parts);
  }

  // ----- when it fails -----

  /** The backslashes at the end of the input. */
  function TrailingBackslashes(input: string): nat
  {
    if input != "" && input[|input| - 1] == '\\' then 1 + TrailingBackslashes(input[..|input| - 1]) else 0
  }

  /** The input without its escaped characters and the backslashes before them. */
  function Bare(input: string): string
  {
    if input == "" then ""
    else if input[0] != '\\' then [input[0]] + Bare(input[1..])
    else if |input| == 1 then ""
    else Bare(input[2..])
  }

  /** The quote left open at the end of a text without escapes. */
  function OpenQuote(text: string): Option<char>
  {
    if text == "" then None
    else
      var before, last := OpenQuote(text[..|text| - 1]), text[|text| - 1];
      if before.None? then (if last == '\'' || last == '"' then Some(last) else None)
      else if last == before.value then None
      else before
  }

  lemma {:induction false} EscapedMeansOdd(input: string)
    ensures TakeAll(START, input).escaped <==> TrailingBackslashes(input) % 2 == 1
  {
    if input != "" {
      var front, last := input[..|input| - 1], input[|input| - 1];
      EscapedMeansOdd(front);
      assert input == front + [last];
      TakeConcat(START, front, [last]);
      assert TakeAll(TakeAll(START, front), [last]) == Take(TakeAll(START, front), last);
    }
  }

  /** A character outside escapes opens or closes a quote as in the bare text. */
  lemma PlainQuotes(s: Scan, text: string, c: char)
    requires !s.escaped && s.quote == OpenQuote(text) && c != '\\'
    ensures Take(s, c).quote == OpenQuote(text + [c]) && !Take(s, c).escaped
  {
  }

  lemma {:induction false} QuoteMeansOpen(s: Scan, text: string, input: string)
    requires !s.escaped && s.quote == OpenQuote(text)
    ensures TakeAll(s, input).quote == OpenQuote(text + Bare(input))
    decreases |input|
  {
    if input == "" {
      assert text + "" == text;
    } else {
      TakeOne(s, input);
      if input[0] != '\\' {
        assert text + Bare(input) == text + [input[0]] + Bare(input[1..]);
        PlainQuotes(s, text, input[0]);
        QuoteMeansOpen(Take(s, input[0]), text + [input[0]], input[1..]);
      } else if |input| == 1 {
        assert text + "" == text;
      } else {
        TakeOne(Take(s, '\\'), input[1..]);
        assert input[1..][1..] == input[2..];
        QuoteMeansOpen(Take(Take(s, '\\'), input[1]), text, input[2..]);
      }
    }
  }

  lemma TakeOne(s: Scan, input: string)
    requires input != ""
    ensures TakeAll(s, input) == TakeAll(Take(s, input[0]), input[1..])
  {
  }

  /** Splitting fails exactly when the input ends in an odd number of backslashes, or
      else leaves a quote open once escapes are taken out; single quotes do not stop a
      backslash from escaping. */
  lemma FailsExactly(input: string)
    ensures SplitCommand(input) == Err(UnfinishedEscape) <==> TrailingBackslashes(input) % 2 == 1
    ensures forall q :: SplitCommand(input) == Err(UnterminatedQuote(q)) <==>
              TrailingBackslashes(input) % 2 == 0 && OpenQuote(Bare(input)) == Some(q)
    ensures SplitCommand(input).Ok? <==> TrailingBackslashes(input) % 2 == 0 && OpenQuote(Bare(input)).None?
  {
    EscapedMeansOdd(input);
    QuoteMeansOpen(START, "", input);
    assert "" + Bare(input) == Bare(input);
  }
}
