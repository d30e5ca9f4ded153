/**
 QuoteForCommandLineToArgvW of libquic/base/command_line.cc, against the Microsoft rules for
 splitting a command line into arguments.
*/
module ArgvQuote {
  import opened Basics

  const QUOTE := '\"'
  const SLASH := '\\'

  function Slashes(n: nat): (s: string)
    ensures |s| == n
  {
    seq(n, i => SLASH)
  }

  // The Microsoft rules: a run of 2n backslashes and a quote gives n backslashes and switches
  // quoting on or off; a run of 2n + 1 and a quote gives n backslashes and a quote; any other
  // backslash stands for itself; space and tab outside quotes end an argument.

  predicate Blank(c: char) { c == ' ' || c == '\t' }

  /** The arguments in `s`.  `current` is the argument under way, `slashes` the run of backslashes
      just read and not yet put into it. */
  function Parse(s: string, current: Option<string>, quoted: bool, slashes: nat): seq<string> {
    if s == [] then
      if current.None? then [] else [current.value + Slashes(slashes)]
    else
      var c, rest := s[0], s[1..];
      var word := if current.None? then "" else current.value;
      if c == SLASH then Parse(rest, Some(word), quoted, slashes + 1)
      else if c == QUOTE && slashes % 2 == 0 then Parse(rest, Some(word + Slashes(slashes / 2)), !quoted, 0)
      else if c == QUOTE then Parse(rest, Some(word + Slashes(slashes / 2) + [QUOTE]), quoted, 0)
      else if Blank(c) && !quoted then
        if current.None? then Parse(rest, None, false, 0) else [word + Slashes(slashes)] + Parse(rest, None, false, 0)
      else Parse(rest, Some(word + Slashes(slashes) + [c]), quoted, 0)
  }

  function Arguments(line: string): seq<string> { Parse(line, None, false, 0) }

  // The quoter

  predicate Quotable(c: char, placeholders: bool) {
    c == ' ' || c == SLASH || c == QUOTE || (placeholders && c == '%')
  }

  predicate NeedsQuotes(arg: string, placeholders: bool) {
    exists i :: 0 <= i < |arg| && Quotable(arg[i], placeholders)
  }

  /** The length of the run of backslashes at the front. */
  function Run(a: string): (n: nat)
    ensures n <= |a| && a[..n] == Slashes(n) && (n < |a| ==> a[n] != SLASH)
  {
    if a != [] && a[0] == SLASH then
      var n := 1 + Run(a[1..]);
      assert a[..n] == [SLASH] + a[1..][..n - 1];
      n
    else 0
  }

  /** How often a run before `rest` is repeated: twice before a quote or the closing quote. */
  function Factor(rest: string): nat {
    if rest == [] || rest[0] == QUOTE then 2 else 1
  }

  function Escaped(a: string): string
    decreases |a|
  {
    if a == [] then []
    else if a[0] == SLASH then
      var n := Run(a);
      Slashes(Factor(a[n..]) * n) + Escaped(a[n..])
    else if a[0] == QUOTE then [SLASH, QUOTE] + Escaped(a[1..])
    else [a[0]] + Escaped(a[1..])
  }

  function Quoted(arg: string, placeholders: bool): string {
    if NeedsQuotes(arg, placeholders) then [QUOTE] + Escaped(arg) + [QUOTE] else arg
  }

  lemma {:induction false} EscapedIsLonger(a: string)
    ensures |Escaped(a)| >= |a|
    decreases |a|
  {
    if a != [] {
      if a[0] == SLASH { EscapedIsLonger(a[Run(a)..]); } else { EscapedIsLonger(a[1..]); }
    }
  }

  /** An argument is left as it is exactly if it has no space, backslash or quote, and no percent sign
      that is to be protected; otherwise it comes out between quotes. */
  lemma UntouchedExactly(arg: string, placeholders: bool)
    ensures Quoted(arg, placeholders) == arg <==>
            ' ' !in arg && SLASH !in arg && QUOTE !in arg && (placeholders ==> '%' !in arg)
    ensures var q := Quoted(arg, placeholders);
            q != arg ==> |q| >= |arg| + 2 && q[0] == QUOTE && q[|q| - 1] == QUOTE
  {
    EscapedIsLonger(arg);
  }

  method HasQuotable(arg: string, placeholders: bool) returns (found: bool)
    ensures found == NeedsQuotes(arg, placeholders)
  {
    for i := 0 to |arg|
      invariant forall j :: 0 <= j < i ==> !Quotable(arg[j], placeholders)
    {
      if Quotable(arg[i], placeholders) { return true; }
    }
    found := false;
  }

  /** The backslash branch: the end of the run at i, and what is written for it. */
  method CopyRun(arg: string, i: nat) returns (end: nat, piece: string)
    requires i < |arg| && arg[i] == SLASH
    ensures i < end <= |arg| && end == i + Run(arg[i..])
    ensures piece == Slashes(Factor(arg[end..]) * (end - i))
  {
    end := i + 1;
    while end < |arg| && arg[end] == SLASH
      invariant i < end <= |arg| && arg[i..end] == Slashes(end - i)
    {
      assert arg[i..end + 1] == arg[i..end] + [SLASH];
      end := end + 1;
    }
    assert arg[i..][..end - i] == arg[i..end];
    RunIs(arg[i..], end - i);
    var count := end - i;
    if end == |arg| || arg[end] == QUOTE { count := count * 2; }
    piece := [];
    var j := 0;
    while j < count
      invariant 0 <= j <= count && piece == Slashes(j)
    {
      piece := piece + [SLASH];
      j := j + 1;
    }
  }

  method Quote(arg: string, placeholders: bool) returns (out: string)
    ensures out == Quoted(arg, placeholders)
  {
    var found := HasQuotable(arg, placeholders);
    if !found { return arg; }
    out := [QUOTE];
    var i := 0;
    assert arg[0..] == arg;
    while i < |arg|
      invariant 0 <= i <= |arg|
      invariant out + Escaped(arg[i..]) == [QUOTE] + Escaped(arg)
    {
      i, out := CopyNext(arg, i, out);
    }
    assert arg[i..] == [];
    out := out + [QUOTE];
  }

  /** One turn of the loop of QuoteForCommandLineToArgvW */
  method CopyNext(arg: string, i: nat, out: string) returns (next: nat, more: string)
    requires i < |arg|
    ensures i < next <= |arg| && more + Escaped(arg[next..]) == out + Escaped(arg[i..])
  {
    if arg[i] == SLASH {
      var end, piece := CopyRun(arg, i);
      StepRun(arg, i, end, out, piece);
      return end, out + piece;
    }
    var piece := if arg[i] == QUOTE then [SLASH, QUOTE] else [arg[i]];
    StepOne(arg, i, out, piece);
    next, more := i + 1, out + piece;
  }

  lemma StepRun(arg: string, i: nat, end: nat, out: string, piece: string)
    requires i < end <= |arg| && arg[i] == SLASH && end == i + Run(arg[i..])
    requires piece == Slashes(Factor(arg[end..]) * (end - i))
    ensures out + Escaped(arg[i..]) == out + piece + Escaped(arg[end..])
  {
    assert arg[i..][end - i..] == arg[end..];
    assert out + (piece + Escaped(arg[end..])) == out + piece + Escaped(arg[end..]);
  }

  lemma StepOne(arg: string, i: nat, out: string, piece: string)
    requires i < |arg| && arg[i] != SLASH
    requires piece == if arg[i] == QUOTE then [SLASH, QUOTE] else [arg[i]]
    ensures out + Escaped(arg[i..]) == out + piece + Escaped(arg[i + 1..])
  {
    assert arg[i..][1..] == arg[i + 1..];
    assert out + (piece + Escaped(arg[i + 1..])) == out + piece + Escaped(arg[i + 1..]);
  }

  lemma {:induction false} RunIs(a: string, n: nat)
    requires n <= |a| && a[..n] == Slashes(n) && (n < |a| ==> a[n] != SLASH)
    ensures Run(a) == n
  {
    if n > 0 {
      assert a[0] == a[..n][0] == SLASH;
      assert a[1..][..n - 1] == a[..n][1..] == Slashes(n - 1);
      RunIs(a[1..], n - 1);
    }
  }

  // Parsing what the quoter writes

  lemma {:induction false} ParseSlashes(n: nat, s: string, word: string, quoted: bool, slashes: nat)
    ensures Parse(Slashes(n) + s, Some(word), quoted, slashes) == Parse(s, Some(word), quoted, slashes + n)
  {
    if n == 0 {
      assert Slashes(0) + s == s;
    } else {
      assert (Slashes(n) + s)[1..] == Slashes(n - 1) + s;
      ParseSlashes(n - 1, s, word, quoted, slashes + 1);
    }
  }

  lemma ParseQuote(rest: string, word: string, quoted: bool, slashes: nat)
    ensures Parse([QUOTE] + rest, Some(word), quoted, slashes)
         == if slashes % 2 == 0 then Parse(rest, Some(word + Slashes(slashes / 2)), !quoted, 0)
            else Parse(rest, Some(word + Slashes(slashes / 2) + [QUOTE]), quoted, 0)
  {
    assert ([QUOTE] + rest)[1..] == rest;
  }

  lemma ParseOther(c: char, rest: string, word: string, slashes: nat)
    requires c != SLASH && c != QUOTE
    ensures Parse([c] + rest, Some(word), true, slashes) == Parse(rest, Some(word + Slashes(slashes) + [c]), true, 0)
  {
    assert ([c] + rest)[1..] == rest;
  }

  // A run of n backslashes inside quotes, before the closing quote, an escaped quote, or another
  // character; `close` is the closing quote and all that follows it.

  lemma RunBeforeEnd(n: nat, tail: string, word: string)
    ensures Parse(Slashes(2 * n) + ([QUOTE] + tail), Some(word), true, 0) ==
            Parse(tail, Some(word + Slashes(n)), false, 0)
  {
    ParseSlashes(2 * n, [QUOTE] + tail, word, true, 0);
    ParseQuote(tail, word, true, 2 * n);
  }

  lemma RunBeforeQuote(n: nat, rest: string, word: string)
    ensures Parse(Slashes(2 * n) + ([SLASH, QUOTE] + rest), Some(word), true, 0)
         == Parse(rest, Some(word + Slashes(n) + [QUOTE]), true, 0)
  {
    assert [SLASH, QUOTE] + rest == Slashes(1) + ([QUOTE] + rest);
    ParseSlashes(2 * n, [SLASH, QUOTE] + rest, word, true, 0);
    ParseSlashes(1, [QUOTE] + rest, word, true, 2 * n);
    ParseQuote(rest, word, true, 2 * n + 1);
  }

  lemma RunBeforeOther(n: nat, c: char, rest: string, word: string)
    requires c != SLASH && c != QUOTE
    ensures Parse(Slashes(n) + ([c] + rest), Some(word), true, 0) == Parse(rest, Some(word + Slashes(n) + [c]), true, 0)
  {
    ParseSlashes(n, [c] + rest, word, true, 0);
    ParseOther(c, rest, word, n);
  }

  // A text is a run of backslashes (perhaps empty), then its end or one more character.

  lemma EscapedToEnd(a: string, n: nat, close: string)
    requires n == Run(a) == |a|
    ensures Escaped(a) + close == Slashes(2 * n) + close && a == Slashes(n)
  {
    EscapedStart(a, n);
    assert a[n..] == [] && a[..n] == a;
    assert Slashes(2 * n) + [] == Slashes(2 * n);
  }

  lemma EscapedToQuote(a: string, n: nat, close: string)
    requires n == Run(a) < |a| && a[n] == QUOTE
    ensures Escaped(a) + close == Slashes(2 * n) + ([SLASH, QUOTE] + (Escaped(a[n + 1..]) + close))
  {
    EscapedStart(a, n);
    var rest := a[n..];
    assert rest[1..] == a[n + 1..];
    Nest(Slashes(2 * n), [SLASH, QUOTE], Escaped(a[n + 1..]), close);
  }

  lemma EscapedToOther(a: string, n: nat, close: string)
    requires n == Run(a) < |a| && a[n] != QUOTE
    ensures Escaped(a) + close == Slashes(n) + ([a[n]] + (Escaped(a[n + 1..]) + close))
  {
    EscapedStart(a, n);
    var rest := a[n..];
    assert rest[1..] == a[n + 1..];
    Nest(Slashes(n), [a[n]], Escaped(a[n + 1..]), close);
  }

  lemma Nest(a: string, b: string, c: string, d: string)
    ensures a + (b + c) + d == a + (b + (c + d))
  {
  }

  lemma EscapedStart(a: string, n: nat)
    requires n == Run(a)
    ensures Escaped(a) == Slashes(Factor(a[n..]) * n) + Escaped(a[n..])
  {
    if n == 0 {
      assert a[0..] == a;
      assert Slashes(0) + Escaped(a) == Escaped(a);
    }
  }

  /** Inside quotes, the escaped text gives back the text, and the closing quote ends quoting. */
  lemma {:induction false} ParseEscaped(a: string, tail: string, word: string)
    ensures Parse(Escaped(a) + ([QUOTE] + tail), Some(word), true, 0) == Parse(tail, Some(word + a), false, 0)
    decreases |a|
  {
    var n, close := Run(a), [QUOTE] + tail;
    if n == |a| {
      EscapedToEnd(a, n, close);
      RunBeforeEnd(n, tail, word);
    } else {
      var c, rest := a[n], a[n + 1..];
      if c == QUOTE {
        EscapedToQuote(a, n, close);
        RunBeforeQuote(n, Escaped(rest) + close, word);
      } else {
        EscapedToOther(a, n, close);
        RunBeforeOther(n, c, Escaped(rest) + close, word);
      }
      ParseEscaped(rest, tail, word + Slashes(n) + [c]);
      Rejoin(word, a, n);
    }
  }

  lemma Rejoin(word: string, a: string, n: nat)
    requires n < |a| && a[..n] == Slashes(n)
    ensures word + Slashes(n) + [a[n]] + a[n + 1..] == word + a
  {
    assert a == a[..n] + [a[n]] + a[n + 1..];
  }

  // Whole command lines

  /** The arguments quoted one by one and joined with spaces. */
  function Line(args: seq<string>, placeholders: bool): string {
    if args == [] then []
    else if |args| == 1 then Quoted(args[0], placeholders)
    else Quoted(args[0], placeholders) + ([' '] + Line(args[1..], placeholders))
  }

  /** Nothing in `a` that the quoter looks for. */
  predicate Plain(a: string) {
    forall i :: 0 <= i < |a| ==> a[i] != ' ' && a[i] != SLASH && a[i] != QUOTE
  }

  predicate TabFree(a: string) {
    forall i :: 0 <= i < |a| ==> a[i] != '\t'
  }

  /** What one argument of the list turns into. */
  function Pieces(arg: string, placeholders: bool): seq<string> {
    if NeedsQuotes(arg, placeholders) then [arg] else Arguments(arg)
  }

  function AllPieces(args: seq<string>, placeholders: bool): seq<string> {
    if args == [] then [] else Pieces(args[0], placeholders) + AllPieces(args[1..], placeholders)
  }

  /** The arguments that come back whole. */
  predicate Survives(arg: string, placeholders: bool) {
    arg != [] && (NeedsQuotes(arg, placeholders) || TabFree(arg))
  }

  lemma EndWord(tail: string, word: string)
    requires tail == [] || tail[0] == ' '
    ensures Parse(tail, Some(word), false, 0) == [word] + Parse(tail, None, false, 0)
  {
    assert word + Slashes(0) == word;
  }

  lemma ParseQuoted(arg: string, tail: string, word: string)
    ensures Parse([QUOTE] + Escaped(arg) + [QUOTE] + tail, Some(word), false, 0) ==
            Parse(tail, Some(word + arg), false, 0)
    ensures Parse([QUOTE] + Escaped(arg) + [QUOTE] + tail, None, false, 0) == Parse(tail, Some(arg), false, 0)
  {
    var rest := Escaped(arg) + ([QUOTE] + tail);
    var line := [QUOTE] + Escaped(arg) + [QUOTE] + tail;
    assert line == [QUOTE] + rest && line[1..] == rest;
    assert word + Slashes(0) == word && "" + Slashes(0) == "" && "" + arg == arg;
    ParseEscaped(arg, tail, word);
    ParseEscaped(arg, tail, "");
  }

  lemma {:induction false} ParsePlain(a: string, tail: string, current: Option<string>)
    requires Plain(a) && (tail == [] || tail[0] == ' ')
    ensures Parse(a + tail, current, false, 0) == Parse(a, current, false, 0) + Parse(tail, None, false, 0)
    decreases |a|
  {
    if a == [] {
      assert a + tail == tail;
      if current.Some? {
        EndWord(tail, current.value);
        assert current.value + Slashes(0) == current.value;
      }
    } else {
      var word := if current.None? then "" else current.value;
      assert (a + tail)[1..] == a[1..] + tail;
      ParsePlain(a[1..], tail, if a[0] == '\t' then None else Some(word + Slashes(0) + [a[0]]));
    }
  }

  lemma OneArgument(arg: string, placeholders: bool, tail: string)
    requires tail == [] || tail[0] == ' '
    ensures Arguments(Quoted(arg, placeholders) + tail) == Pieces(arg, placeholders) + Arguments(tail)
  {
    if NeedsQuotes(arg, placeholders) {
      ParseQuoted(arg, tail, "");
      EndWord(tail, arg);
    } else {
      assert Plain(arg) by {
        forall i | 0 <= i < |arg| ensures !Quotable(arg[i], placeholders) { }
      }
      ParsePlain(arg, tail, None);
    }
  }

  /** A quoted line parses to the pieces of its arguments. */
  lemma {:induction false} LineParses(args: seq<string>, placeholders: bool)
    ensures Arguments(Line(args, placeholders)) == AllPieces(args, placeholders)
    decreases |args|
  {
    if |args| == 1 {
      var q := Quoted(args[0], placeholders);
      assert q + [] == q;
      OneArgument(args[0], placeholders, []);
      assert args[1..] == [];
    } else if |args| > 1 {
      var tail := [' '] + Line(args[1..], placeholders);
      OneArgument(args[0], placeholders, tail);
      assert tail[1..] == Line(args[1..], placeholders);
      LineParses(args[1..], placeholders);
    }
  }

  lemma {:induction false} PlainWord(a: string, word: string)
    requires Plain(a) && TabFree(a)
    ensures Parse(a, Some(word), false, 0) == [word + a]
    decreases |a|
  {
    if a == [] {
      assert word + Slashes(0) == word + a;
    } else {
      PlainWord(a[1..], word + Slashes(0) + [a[0]]);
      assert word + Slashes(0) + [a[0]] + a[1..] == word + a;
    }
  }

  lemma SurvivorIsOnePiece(arg: string, placeholders: bool)
    requires Survives(arg, placeholders)
    ensures Pieces(arg, placeholders) == [arg]
  {
    if !NeedsQuotes(arg, placeholders) {
      assert Plain(arg) by {
        forall i | 0 <= i < |arg| ensures !Quotable(arg[i], placeholders) { }
      }
      assert "" + Slashes(0) + [arg[0]] == [arg[0]];
      PlainWord(arg[1..], [arg[0]]);
      assert [arg[0]] + arg[1..] == arg;
    }
  }

  /** No piece of an unquoted argument is empty or holds a tab. */
  lemma {:induction false} PlainPiecesSurvive(a: string, current: Option<string>, placeholders: bool)
    requires Plain(a) && (current.Some? ==> current.value != [] && TabFree(current.value))
    ensures forall p :: p in Parse(a, current, false, 0) ==> Survives(p, placeholders)
    decreases |a|
  {
    if a == [] {
      if current.Some? { assert current.value + Slashes(0) == current.value; }
    } else {
      var word := if current.None? then "" else current.value;
      assert word + Slashes(0) == word;
      PlainPiecesSurvive(a[1..], if a[0] == '\t' then None else Some(word + Slashes(0) + [a[0]]), placeholders);
    }
  }

  lemma {:induction false} PiecesSurvive(args: seq<string>, placeholders: bool)
    ensures forall p :: p in AllPieces(args, placeholders) ==> Survives(p, placeholders)
    decreases |args|
  {
    if args != [] {
      PiecesSurvive(args[1..], placeholders);
      if !NeedsQuotes(args[0], placeholders) {
        assert Plain(args[0]) by {
          forall i | 0 <= i < |args[0]| ensures !Quotable(args[0][i], placeholders) { }
        }
        PlainPiecesSurvive(args[0], None, placeholders);
      }
    }
  }

  lemma {:induction false} SurvivorsAreThePieces(args: seq<string>, placeholders: bool)
    requires forall i :: 0 <= i < |args| ==> Survives(args[i], placeholders)
    ensures AllPieces(args, placeholders) == args
    decreases |args|
  {
    if args != [] {
      SurvivorIsOnePiece(args[0], placeholders);
      SurvivorsAreThePieces(args[1..], placeholders);
      assert [args[0]] + args[1..] == args;
    }
  }

  /** Quoting, joining and parsing gives back the list exactly when each argument is non-empty and
      has no tab, or has one but also a character that makes the quoter quote it. */
  lemma RoundTripsExactly(args: seq<string>, placeholders: bool)
    ensures Arguments(Line(args, placeholders)) == args
       <==> forall i :: 0 <= i < |args| ==> Survives(args[i], placeholders)
  {
    LineParses(args, placeholders);
    if forall i :: 0 <= i < |args| ==> Survives(args[i], placeholders) {
      SurvivorsAreThePieces(args, placeholders);
    } else {
      PiecesSurvive(args, placeholders);
      var i :| 0 <= i < |args| && !Survives(args[i], placeholders);
      assert args[i] in args;
    }
  }

  /** A switch with a value: the name is written as it is and only the value is quoted. */
  lemma SwitchRoundTrips(name: string, value: string, placeholders: bool)
    requires name != [] && Plain(name) && TabFree(name)
    requires NeedsQuotes(value, placeholders) || TabFree(value)
    ensures Arguments(name + Quoted(value, placeholders)) == [name + value]
  {
    var tail := Quoted(value, placeholders);
    assert "" + Slashes(0) + [name[0]] == [name[0]];
    assert (name + tail)[1..] == name[1..] + tail;
    PlainPrefix(name[1..], tail, [name[0]]);
    assert [name[0]] + name[1..] == name;
    if NeedsQuotes(value, placeholders) {
      ParseQuoted(value, [], name);
      assert tail + [] == tail;
      assert name + value + Slashes(0) == name + value;
    } else {
      assert Plain(value) by {
        forall i | 0 <= i < |value| ensures !Quotable(value[i], placeholders) { }
      }
      PlainWord(value, name);
    }
  }

  lemma {:induction false} PlainPrefix(a: string, tail: string, word: string)
    requires Plain(a) && TabFree(a)
    ensures Parse(a + tail, Some(word), false, 0) == Parse(tail, Some(word + a), false, 0)
    decreases |a|
  {
    if a == [] {
      assert a + tail == tail && word + a == word;
    } else {
      assert (a + tail)[1..] == a[1..] + tail;
      PlainPrefix(a[1..], tail, word + Slashes(0) + [a[0]]);
      assert word + Slashes(0) + [a[0]] + a[1..] == word + a;
    }
  }
}
