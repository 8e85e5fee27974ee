/**
 * Quoting an argument list into one Windows command line
 * (stella-launcher.cpp:550-572), against the splitting rules of
 * CommandLineToArgvW and the Microsoft C runtime.
 */
module CommandLines {

  predicate IsBlank(c: char) { c == ' ' || c == '\t' }

  predicate IsSpecial(c: char) { c in {' ', '\t', '\n', '\U{0B}', '"'} }

  predicate NeedsQuotes(arg: string) {
    arg == "" || exists i :: 0 <= i < |arg| && IsSpecial(arg[i])
  }

  function Backslashes(n: nat): string { seq(n, _ => '\\') }

  /** How many backslashes a text begins with. */
  function Leading(s: string): (n: nat)
    ensures n <= |s|
  {
    if s == "" || s[0] != '\\' then 0 else 1 + Leading(s[1..])
  }

  function Escape(arg: string): string
    decreases |arg|
  {
    var b := Leading(arg);
    if b == |arg| then Backslashes(2 * b)
    else if arg[b] == '"' then Backslashes(2 * b + 1) + ("\"" + Escape(arg[b + 1..]))
    else Backslashes(b) + ([arg[b]] + Escape(arg[b + 1..]))
  }

  function Quoted(arg: string): string {
    if NeedsQuotes(arg) then "\"" + Escape(arg) + "\"" else arg
  }

  /** Every argument with a space in front of it. */
  function Tail(args: seq<string>): string {
    if args == [] then "" else " " + Quoted(args[0]) + Tail(args[1..])
  }

  function CommandLine(argv: seq<string>): string {
    if argv == [] then "" else Quoted(argv[0]) + Tail(argv[1..])
  }

  lemma {:induction false} LeadingIs(s: string, n: nat)
    requires n <= |s| && forall i :: 0 <= i < n ==> s[i] == '\\'
    requires n < |s| ==> s[n] != '\\'
    ensures Leading(s) == n
    decreases n
  {
    if n > 0 {
      assert forall i :: 0 <= i < n - 1 ==> s[1..][i] == s[i + 1];
      LeadingIs(s[1..], n - 1);
    }
  }

  lemma {:induction false} LeadingAll(s: string)
    ensures forall i :: 0 <= i < Leading(s) ==> s[i] == '\\'
    ensures Leading(s) < |s| ==> s[Leading(s)] != '\\'
    decreases |s|
  {
    if s != "" && s[0] == '\\' {
      LeadingAll(s[1..]);
      forall i | 0 <= i < Leading(s) ensures s[i] == '\\' {
        if i > 0 { assert s[i] == s[1..][i - 1]; }
      }
    }
  }

  lemma {:induction false} RunSplits(s: string)
    ensures var b := Leading(s);
            s == Backslashes(b) + s[b..] && (b < |s| ==> s[b] != '\\' && s == Backslashes(b) + ([s[b]] + s[b + 1..]))
  {
    LeadingAll(s);
  }

  lemma {:induction false} Shift(a: string, b: string, c: string, d: string)
    ensures a + (b + (c + d)) == (a + (b + c)) + d
    ensures a + (b + c) == (a + b) + c
  {
  }

  lemma {:induction false} EscapeRun(arg: string, i: nat, j: nat)
    requires i <= j <= |arg| && (forall k :: i <= k < j ==> arg[k] == '\\') && (j < |arg| ==> arg[j] != '\\')
    ensures var b := j - i;
            Escape(arg[i..]) ==
            if j == |arg| then Backslashes(2 * b)
            else if arg[j] == '"' then Backslashes(2 * b + 1) + ("\"" + Escape(arg[j + 1..]))
            else Backslashes(b) + ([arg[j]] + Escape(arg[j + 1..]))
  {
    hide Leading;
    LeadingIs(arg[i..], j - i);
    if j < |arg| { assert arg[i..][j - i + 1..] == arg[j + 1..]; }
  }

  /** One turn of the quoting loop: the run of backslashes at `i`, and what it stops at. */
  lemma {:induction false} EscapeStep(arg: string, i: nat, j: nat, out: string)
    requires i <= j <= |arg| && (forall k :: i <= k < j ==> arg[k] == '\\') && (j < |arg| ==> arg[j] != '\\')
    ensures var b := j - i;
            out + Escape(arg[i..]) ==
            if j == |arg| then out + Backslashes(2 * b)
            else if arg[j] == '"' then (out + (Backslashes(2 * b + 1) + "\"")) + Escape(arg[j + 1..])
            else (out + (Backslashes(b) + [arg[j]])) + Escape(arg[j + 1..])
  {
    hide Escape;
    EscapeRun(arg, i, j);
    if j < |arg| {
      var e := Escape(arg[j + 1..]);
      Shift(out, Backslashes(2 * (j - i) + 1), "\"", e);
      Shift(out, Backslashes(j - i), [arg[j]], e);
    }
  }

  method QuoteArg(arg: string) returns (out: string)
    ensures out == Quoted(arg)
  {
    hide Escape, Leading;
    if !NeedsQuotes(arg) { return arg; }
    out := "\"";
    var i := 0;
    assert arg[0..] == arg;
    while true
      invariant 0 <= i <= |arg|
      invariant out + Escape(arg[i..]) == "\"" + Escape(arg)
      decreases |arg| - i
    {
      var backslashes := 0;
      ghost var start := i;
      while i < |arg| && arg[i] == '\\'
        invariant start <= i <= |arg| && backslashes == i - start
        invariant forall k :: start <= k < i ==> arg[k] == '\\'
      {
        i := i + 1;
        backslashes := backslashes + 1;
      }
      EscapeStep(arg, start, i, out);
      if i == |arg| {
        out := out + Backslashes(backslashes * 2);
        break;
      }
      if arg[i] == '"' {
        out := out + (Backslashes(backslashes * 2 + 1) + "\"");
      } else {
        out := out + (Backslashes(backslashes) + [arg[i]]);
      }
      i := i + 1;
    }
    out := out + "\"";
  }

  lemma {:induction false} TailStep(out: string, argv: seq<string>, i: nat)
    requires i <= |argv|
    ensures i < |argv| ==> out + Tail(argv[i..]) == out + " " + Quoted(argv[i]) + Tail(argv[i + 1..])
    ensures i == |argv| ==> out + Tail(argv[i..]) == out
  {
    hide Quoted;
    if i < |argv| {
      assert argv[i..][1..] == argv[i + 1..];
      assert out + (" " + Quoted(argv[i]) + Tail(argv[i + 1..])) == out + " " + Quoted(argv[i]) + Tail(argv[i + 1..]);
    }
  }

  method JoinCommandLine(argv: seq<string>) returns (out: string)
    ensures out == CommandLine(argv)
  {
    hide Quoted, Tail;
    out := "";
    var i := 0;
    while i < |argv|
      invariant 0 <= i <= |argv| && (i == 0 ==> out == "")
      invariant i > 0 ==> out + Tail(argv[i..]) == CommandLine(argv)
    {
      ghost var sofar := out;
      if i > 0 { out := out + " "; }
      var quoted := QuoteArg(argv[i]);
      out := out + quoted;
      TailStep(sofar, argv, i);
      i := i + 1;
    }
    TailStep(out, argv, i);
  }

  // ---------------------------------------------------------------- splitting

  datatype Token = Token(arg: string, rest: string)

  function Prepend(s: string, t: Token): Token { t.(arg := s + t.arg) }

  /**
   * One argument: 2n backslashes before a quote are n and the quote opens or
   * closes; 2n+1 are n and a literal quote; elsewhere a backslash is itself. A
   * doubled quote inside quotes is one quote; a blank outside quotes ends it.
   */
  function TakeArg(s: string, quoted: bool): (t: Token)
    ensures |t.rest| <= |s|
    ensures s != "" && (quoted || !IsBlank(s[0])) ==> |t.rest| < |s|
    decreases |s|, 1
  {
    LeadingAll(s);
    TakeRun(Leading(s), s[Leading(s)..], quoted)
  }

  /** After a run of `b` backslashes comes `t`. */
  function TakeRun(b: nat, t: string, quoted: bool): (r: Token)
    ensures |r.rest| <= |t|
    ensures t != "" && (quoted || !IsBlank(t[0])) ==> |r.rest| < |t|
    decreases b + |t|, 0
  {
    if t == "" then Token(Backslashes(b), "")
    else if t[0] == '"' then
      if b % 2 == 1 then Prepend(Backslashes(b / 2) + "\"", TakeArg(t[1..], quoted))
      else if quoted && |t| > 1 && t[1] == '"' then Prepend(Backslashes(b / 2) + "\"", TakeArg(t[2..], true))
      else Prepend(Backslashes(b / 2), TakeArg(t[1..], !quoted))
    else if !quoted && IsBlank(t[0]) then Token(Backslashes(b), t)
    else Prepend(Backslashes(b) + [t[0]], TakeArg(t[1..], quoted))
  }

  function SkipBlanks(s: string): (t: string)
    ensures |t| <= |s| && (t != "" ==> !IsBlank(t[0]))
  {
    if s != "" && IsBlank(s[0]) then SkipBlanks(s[1..]) else s
  }

  /** The arguments after the program name. */
  function ParseArgs(s: string): seq<string>
    decreases |s|
  {
    var t := SkipBlanks(s);
    if t == "" then []
    else
      var token := TakeArg(t, false);
      [token.arg] + ParseArgs(token.rest)
  }

  function UntilQuote(s: string): string {
    if s == "" || s[0] == '"' then "" else [s[0]] + UntilQuote(s[1..])
  }

  function UntilBlank(s: string): string {
    if s == "" || IsBlank(s[0]) then "" else [s[0]] + UntilBlank(s[1..])
  }

  /** The program name has its own rule: no backslash escapes anything. */
  function ParseName(s: string): (t: Token) {
    if s != "" && s[0] == '"' then
      var name := UntilQuote(s[1..]);
      Token(name, if 2 + |name| <= |s| then s[2 + |name|..] else "")
    else
      var name := UntilBlank(s);
      Token(name, if |name| <= |s| then s[|name|..] else "")
  }

  function SplitCommandLine(s: string): seq<string> {
    var name := ParseName(s);
    [name.arg] + ParseArgs(name.rest)
  }

  /** What may follow an argument on the line. */
  ghost predicate Ends(tail: string) { tail == "" || tail[0] == ' ' }

  lemma {:induction false} SplitRun(n: nat, t: string, quoted: bool)
    requires t == "" || t[0] != '\\'
    ensures TakeArg(Backslashes(n) + t, quoted) == TakeRun(n, t, quoted)
  {
    hide TakeRun;
    LeadingIs(Backslashes(n) + t, n);
    assert (Backslashes(n) + t)[n..] == t;
  }

  lemma {:induction false} TakeChar(n: nat, c: char, t: string, quoted: bool)
    requires c != '\\' && c != '"' && (quoted || !IsBlank(c))
    ensures TakeArg(Backslashes(n) + ([c] + t), quoted) == Prepend(Backslashes(n) + [c], TakeArg(t, quoted))
  {
    hide TakeArg, Backslashes;
    SplitRun(n, [c] + t, quoted);
    assert ([c] + t)[1..] == t;
  }

  lemma {:induction false} TakeLiteralQuote(n: nat, t: string, quoted: bool)
    ensures TakeArg(Backslashes(2 * n + 1) + ("\"" + t), quoted) == Prepend(Backslashes(n) + "\"", TakeArg(t, quoted))
  {
    hide TakeArg, Backslashes;
    SplitRun(2 * n + 1, "\"" + t, quoted);
    assert ("\"" + t)[1..] == t;
  }

  lemma {:induction false} TakeToggle(n: nat, t: string, quoted: bool)
    requires quoted ==> t == "" || t[0] != '"'
    ensures TakeArg(Backslashes(2 * n) + ("\"" + t), quoted) == Prepend(Backslashes(n), TakeArg(t, !quoted))
  {
    hide TakeArg, Backslashes;
    SplitRun(2 * n, "\"" + t, quoted);
    assert ("\"" + t)[1..] == t;
  }

  lemma {:induction false} TailStops(n: nat, tail: string)
    requires Ends(tail)
    ensures TakeArg(Backslashes(n) + tail, false) == Token(Backslashes(n), tail)
  {
    hide TakeArg, Backslashes;
    SplitRun(n, tail, false);
  }

  lemma {:induction false} NoRun(t: string)
    ensures Backslashes(0) + t == t
  {
  }

  /** Inside quotes, the escaped text up to the closing quote reads back as the argument. */
  lemma {:induction false} QuotedReads(arg: string, tail: string)
    requires Ends(tail)
    ensures TakeArg(Escape(arg) + ("\"" + tail), true) == Token(arg, tail)
    decreases |arg|
  {
    hide TakeArg, Leading, Backslashes;
    var b := Leading(arg);
    RunSplits(arg);
    if b == |arg| {
      NoRun(tail);
      TailStops(0, tail);
      TakeToggle(b, tail, true);
      assert arg[b..] == "";
      assert Backslashes(b) + "" == arg;
    } else {
      var rest := arg[b + 1..];
      QuotedReads(rest, tail);
      var close := "\"" + tail;
      var after := Escape(rest) + close;
      if arg[b] == '"' {
        TakeLiteralQuote(b, after, true);
        Shift(Backslashes(2 * b + 1), "\"", Escape(rest), close);
        Shift(Backslashes(b), "\"", rest, "");
      } else {
        TakeChar(b, arg[b], after, true);
        Shift(Backslashes(b), [arg[b]], Escape(rest), close);
        Shift(Backslashes(b), [arg[b]], rest, "");
      }
    }
  }

  lemma {:induction false} PlainReads(arg: string, tail: string)
    requires Ends(tail) && forall i :: 0 <= i < |arg| ==> !IsSpecial(arg[i])
    ensures TakeArg(arg + tail, false) == Token(arg, tail)
    decreases |arg|
  {
    hide TakeArg, Leading, Backslashes;
    var b := Leading(arg);
    RunSplits(arg);
    if b == |arg| {
      assert arg[b..] == "";
      assert Backslashes(b) + "" == Backslashes(b);
      TailStops(b, tail);
    } else {
      var rest := arg[b + 1..];
      PlainReads(rest, tail);
      assert !IsSpecial(arg[b]);
      TakeChar(b, arg[b], rest + tail, false);
      Shift(Backslashes(b), [arg[b]], rest, tail);
      Shift(Backslashes(b), [arg[b]], rest, "");
    }
  }

  lemma {:induction false} ArgReads(arg: string, tail: string)
    requires Ends(tail)
    ensures TakeArg(Quoted(arg) + tail, false) == Token(arg, tail)
    ensures Quoted(arg) != "" && !IsBlank(Quoted(arg)[0])
  {
    hide TakeArg, Escape;
    if NeedsQuotes(arg) {
      var inner := Escape(arg) + ("\"" + tail);
      NoRun("\"" + inner);
      assert Quoted(arg) + tail == "\"" + inner;
      TakeToggle(0, inner, false);
      QuotedReads(arg, tail);
      assert Backslashes(0) + arg == arg;
    } else {
      PlainReads(arg, tail);
      assert !IsSpecial(arg[0]);
    }
  }

  lemma {:induction false} SkipOne(line: string)
    requires line != "" && !IsBlank(line[0])
    ensures SkipBlanks(" " + line) == line
  {
    assert (" " + line)[1..] == line;
  }

  lemma {:induction false} TailShape(args: seq<string>)
    requires args != []
    ensures SkipBlanks(Tail(args)) == Quoted(args[0]) + Tail(args[1..])
  {
    hide TakeArg, Quoted, SkipBlanks;
    ArgReads(args[0], "");
    var line := Quoted(args[0]) + Tail(args[1..]);
    assert " " + Quoted(args[0]) + Tail(args[1..]) == " " + line;
    SkipOne(line);
  }

  /** Every argument list comes back: empty arguments, backslash runs and quotes included. */
  lemma {:induction false} ArgsRoundTrip(args: seq<string>)
    ensures ParseArgs(Tail(args)) == args
    decreases |args|
  {
    hide TakeArg, Escape, Quoted;
    if args != [] {
      TailShape(args);
      ArgReads(args[0], Tail(args[1..]));
      ArgsRoundTrip(args[1..]);
    }
  }

  /** What the program name must be for the name rule to read it back. */
  predicate NameSurvives(name: string) {
    '"' !in name && (NeedsQuotes(name) ==> name == "" || name[|name| - 1] != '\\')
  }

  lemma {:induction false} UntilQuoteReads(s: string, tail: string)
    ensures '"' !in s ==> UntilQuote(s + "\"" + tail) == s
    ensures '"' !in UntilQuote(s)
    decreases |s|
  {
    if s != "" {
      UntilQuoteReads(s[1..], tail);
      assert (s + "\"" + tail)[1..] == s[1..] + "\"" + tail;
    }
  }

  lemma {:induction false} UntilBlankReads(s: string, tail: string)
    requires Ends(tail) && forall i :: 0 <= i < |s| ==> !IsBlank(s[i])
    ensures UntilBlank(s + tail) == s
    decreases |s|
  {
    if s == "" {
      assert s + tail == tail;
    } else {
      UntilBlankReads(s[1..], tail);
      assert (s + tail)[1..] == s[1..] + tail;
    }
  }

  lemma {:induction false} EscapeQuoteless(arg: string)
    requires '"' !in arg
    ensures '"' !in Escape(arg)
    decreases |arg|
  {
    hide Leading;
    var b := Leading(arg);
    if b < |arg| {
      assert arg[b] in arg;
      EscapeQuoteless(arg[b + 1..]);
    }
  }

  /** Without a quote to protect, escaping only doubles the backslashes at the end. */
  lemma {:induction false} EscapeNoQuote(arg: string)
    requires '"' !in arg
    ensures '"' !in Escape(arg)
    ensures if arg == "" || arg[|arg| - 1] != '\\' then Escape(arg) == arg else |Escape(arg)| > |arg|
    decreases |arg|
  {
    hide Leading;
    EscapeQuoteless(arg);
    var b := Leading(arg);
    RunSplits(arg);
    LeadingAll(arg);
    if b < |arg| {
      var rest := arg[b + 1..];
      assert arg[b] in arg;
      assert Escape(arg) == Backslashes(b) + ([arg[b]] + Escape(rest));
      EscapeNoQuote(rest);
      if rest != "" { assert rest[|rest| - 1] == arg[|arg| - 1]; }
    }
  }

  lemma {:induction false} QuotedName(name: string, tail: string)
    requires NeedsQuotes(name)
    ensures var t := ParseName(Quoted(name) + tail);
            if '"' in name then t.arg != name
            else t == Token(Escape(name), tail)
  {
    hide Escape, NeedsQuotes, UntilQuote;
    var e := Escape(name);
    var inner := (e + "\"") + tail;
    var line := Quoted(name) + tail;
    assert line == "\"" + inner;
    assert line[1..] == inner && line[0] == '"';
    UntilQuoteReads(inner, "");
    UntilQuoteReads(e, tail);
    if '"' in name {
      assert '"' !in ParseName(line).arg;
    } else {
      EscapeNoQuote(name);
      assert line[2 + |e|..] == tail;
    }
  }

  lemma {:induction false} PlainName(name: string, tail: string)
    requires !NeedsQuotes(name) && Ends(tail)
    ensures ParseName(Quoted(name) + tail) == Token(name, tail) && NameSurvives(name)
  {
    forall i | 0 <= i < |name| ensures !IsBlank(name[i]) && name[i] != '"' {
      assert !IsSpecial(name[i]);
    }
    UntilBlankReads(name, tail);
    assert (name + tail)[|name|..] == tail;
  }

  /**
   * The whole command line splits back into the list exactly when the program
   * name holds no quote and, if it has to be quoted, does not end in a backslash.
   */
  lemma {:induction false} CommandLineRoundTripIff(argv: seq<string>)
    ensures SplitCommandLine(CommandLine(argv)) == argv <==> argv != [] && NameSurvives(argv[0])
  {
    hide Escape, ParseName, ParseArgs, Quoted;
    if argv == [] { return; }
    var name := argv[0];
    var tail := Tail(argv[1..]);
    ArgsRoundTrip(argv[1..]);
    assert argv == [name] + argv[1..];
    if NeedsQuotes(name) {
      QuotedName(name, tail);
      if '"' !in name { EscapeNoQuote(name); }
    } else {
      PlainName(name, tail);
    }
  }

  /** A directory named with its closing backslash would not come back as a program name. */
  lemma {:induction false} DirectoryNameLost()
    ensures SplitCommandLine(CommandLine(["my dir\\"])) != ["my dir\\"]
  {
    hide SplitCommandLine, CommandLine;
    var name := "my dir\\";
    assert IsSpecial(name[2]) && name[|name| - 1] == '\\';
    CommandLineRoundTripIff([name]);
  }
}
