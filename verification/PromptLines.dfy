/**
 * Prompt source lines and the fence grammar
 * (packages/contracts/stella-prompts.ts:50-128).
 */
module PromptLines {
  import opened Options

  /** What `trim` removes: JavaScript's white space and line terminators. */
  predicate IsSpace(c: char) {
    c in {'\t', '\n', '\U{0B}', '\U{0C}', '\r', ' ', '\U{A0}', '\U{1680}', '\U{2028}',
          '\U{2029}', '\U{202F}', '\U{205F}', '\U{3000}', '\U{FEFF}'}
    || '\U{2000}' <= c <= '\U{200A}'
  }

  function TrimLeft(s: string): string { if s != [] && IsSpace(s[0]) then TrimLeft(s[1..]) else s }

  function TrimRight(s: string): string { if s != [] && IsSpace(s[|s| - 1]) then TrimRight(s[..|s| - 1]) else s }

  function Trim(s: string): string { TrimRight(TrimLeft(s)) }

  predicate Blank(s: string) { Trim(s) == [] }

  // ------------------------------------------------------------- lines of a text

  function Split(s: string): (lines: seq<string>)
    ensures |lines| >= 1
  {
    if s == [] then [[]]
    else
      var rest := Split(s[1..]);
      if s[0] == '\n' then [[]] + rest else [[s[0]] + rest[0]] + rest[1..]
  }

  function Join(lines: seq<string>): string {
    if lines == [] then [] else if |lines| == 1 then lines[0] else lines[0] + "\n" + Join(lines[1..])
  }

  predicate OneLine(s: string) { forall i :: 0 <= i < |s| ==> s[i] != '\n' }

  predicate AllOneLine(lines: seq<string>) { forall i :: 0 <= i < |lines| ==> OneLine(lines[i]) }

  lemma {:induction false} JoinSplit(s: string)
    ensures Join(Split(s)) == s && AllOneLine(Split(s))
    decreases |s|
  {
    if s != [] {
      var rest := Split(s[1..]);
      JoinSplit(s[1..]);
      assert [s[0]] + s[1..] == s;
      if s[0] == '\n' {
        assert ([[]] + rest)[1..] == rest;
      } else {
        JoinHead(s[0], rest);
      }
    }
  }

  lemma {:induction false} JoinHead(c: char, rest: seq<string>)
    requires rest != [] && AllOneLine(rest) && c != '\n'
    ensures var more := [[c] + rest[0]] + rest[1..]; Join(more) == [c] + Join(rest) && AllOneLine(more)
  {
    var more := [[c] + rest[0]] + rest[1..];
    assert more[1..] == rest[1..];
    if |rest| > 1 {
      assert [c] + rest[0] + "\n" + Join(rest[1..]) == [c] + (rest[0] + "\n" + Join(rest[1..]));
    }
  }

  lemma {:induction false} SplitOne(s: string)
    requires OneLine(s)
    ensures Split(s) == [s]
    decreases |s|
  {
    if s != [] {
      SplitOne(s[1..]);
      assert [s[0]] + s[1..] == s;
    }
  }

  lemma {:induction false} SplitFirst(s: string, rest: string)
    requires OneLine(s)
    ensures Split(s + "\n" + rest) == [s] + Split(rest)
    decreases |s|
  {
    var t := s + "\n" + rest;
    if s == [] {
      assert t[1..] == rest;
    } else {
      SplitFirst(s[1..], rest);
      assert t[1..] == s[1..] + "\n" + rest;
      assert [s[0]] + s[1..] == s;
      assert ([s[1..]] + Split(rest))[1..] == Split(rest);
    }
  }

  lemma {:induction false} SplitJoin(lines: seq<string>)
    requires lines != [] && AllOneLine(lines)
    ensures Split(Join(lines)) == lines
    decreases |lines|
  {
    if |lines| == 1 {
      SplitOne(lines[0]);
    } else {
      SplitJoin(lines[1..]);
      SplitFirst(lines[0], Join(lines[1..]));
      assert [lines[0]] + lines[1..] == lines;
    }
  }

  // ---------------------------------------------------------------- fence lines

  datatype Environment = Desktop | Cloud
  datatype Condition = Env(env: Environment) | Tool(name: string, negated: bool)
  datatype Reason = UnknownCondition(text: string) | UnknownTool(name: string) | NotWholeLine
  datatype Fence = Text | Open(condition: Condition) | Close | Invalid(reason: Reason, opens: bool)

  const FENCE_TOOLS: set<string> :=
    {"ask_user", "history", "memory", "request_secure_input", "send_message", "spawn_agent",
     "switch_destination", "use_secure_value"}

  const CLOSE_FENCE := "<!-- end -->"
  const OPEN_START := "<!-- when "
  const OPEN_END := " -->"
  const TOOL := "tool:"

  predicate NoSpace(s: string) { forall i :: 0 <= i < |s| ==> !IsSpace(s[i]) }

  predicate NameChar(c: char) { 'A' <= c <= 'Z' || 'a' <= c <= 'z' || '0' <= c <= '9' || c == '_' || c == '-' }

  predicate IsName(s: string) { s != [] && forall i :: 0 <= i < |s| ==> NameChar(s[i]) }

  /** The condition's text, where a whole line is an opening fence. */
  function OpenText(t: string): Option<string> {
    if |t| > |OPEN_START| + |OPEN_END| && OPEN_START <= t && t[|t| - |OPEN_END|..] == OPEN_END
       && NoSpace(t[|OPEN_START|..|t| - |OPEN_END|])
    then Some(t[|OPEN_START|..|t| - |OPEN_END|]) else None
  }

  function ToolCondition(c: string): Option<(string, bool)> {
    var negated := c != [] && c[0] == '!';
    var rest := if negated then c[1..] else c;
    if TOOL <= rest && IsName(rest[|TOOL|..]) then Some((rest[|TOOL|..], negated)) else None
  }

  predicate Contains(s: string, part: string) {
    exists i :: 0 <= i <= |s| && part <= s[i..]
  }

  function Classify(line: string): Fence {
    var t := Trim(line);
    if t == CLOSE_FENCE then Close
    else
      var c := OpenText(t);
      if c.Some? then
        if c.value == "desktop" then Open(Env(Desktop))
        else if c.value == "cloud" then Open(Env(Cloud))
        else
          var tool := ToolCondition(c.value);
          if tool.None? then Invalid(UnknownCondition(c.value), true)
          else if tool.value.0 !in FENCE_TOOLS then Invalid(UnknownTool(tool.value.0), true)
          else Open(Tool(tool.value.0, tool.value.1))
      else if Contains(t, "<!-- when") || Contains(t, "<!-- end") then Invalid(NotWholeLine, false)
      else Text
  }

  function ConditionText(c: Condition): string {
    if c.Tool? then (if c.negated then "!" else "") + TOOL + c.name
    else if c.env == Desktop then "desktop" else "cloud"
  }

  /** A fence as its author writes it. */
  function FenceText(c: Condition): string { OPEN_START + ConditionText(c) + OPEN_END }

  predicate Allowed(c: Condition) { c.Tool? ==> c.name in FENCE_TOOLS }

  lemma {:induction false} NameNoSpace(s: string)
    requires IsName(s)
    ensures NoSpace(s)
  {
  }

  lemma {:induction false} FenceToolsAreNames(name: string)
    requires name in FENCE_TOOLS
    ensures IsName(name)
  {
    hide IsName;
    PlainNames();
  }

  lemma {:induction false} PlainNames()
    ensures NoSpace(TOOL) && NoSpace("!")
    ensures IsName("request_secure_input") && IsName("switch_destination") && IsName("use_secure_value")
    ensures IsName("ask_user") && IsName("history") && IsName("memory") && IsName("send_message")
            && IsName("spawn_agent")
  {
  }

  lemma {:induction false} OpenTextReads(c: string)
    requires c != [] && NoSpace(c)
    ensures OpenText(OPEN_START + c + OPEN_END) == Some(c)
  {
    var t := OPEN_START + c + OPEN_END;
    assert t[|OPEN_START|..|t| - |OPEN_END|] == c;
    assert t[|t| - |OPEN_END|..] == OPEN_END;
    assert t[..|OPEN_START|] == OPEN_START;
  }

  lemma {:induction false} OpenTextWritten(t: string)
    requires OpenText(t).Some?
    ensures t == OPEN_START + OpenText(t).value + OPEN_END
  {
    assert t[..|OPEN_START|] == OPEN_START;
  }

  lemma {:induction false} ToolReads(name: string, negated: bool)
    requires IsName(name)
    ensures var c := ConditionText(Tool(name, negated));
            ToolCondition(c) == Some((name, negated)) && NoSpace(c) && c != [] && c != "desktop" && c != "cloud"
  {
    hide NoSpace, IsName;
    NameNoSpace(name);
    PlainNames();
    NoSpaceConcat(TOOL, name);
    NoSpaceConcat("!", TOOL + name);
    var c := ConditionText(Tool(name, negated));
    var rest := TOOL + name;
    assert rest[..5] == TOOL && rest[5..] == name;
    assert "desktop"[0] == 'd' && "cloud"[0] == 'c';
    if negated {
      assert c == "!" + rest;
      assert c[1..] == rest && c[0] == '!';
    } else {
      assert c == rest;
      assert c[0] == 't';
    }
  }

  lemma {:induction false} NoSpaceConcat(a: string, b: string)
    requires NoSpace(a) && NoSpace(b)
    ensures NoSpace(a + b)
  {
    hide IsSpace;
  }

  lemma {:induction false} ToolWritten(c: string)
    requires ToolCondition(c).Some?
    ensures c == ConditionText(Tool(ToolCondition(c).value.0, ToolCondition(c).value.1))
  {
    var negated := c != [] && c[0] == '!';
    var rest := if negated then c[1..] else c;
    assert rest == TOOL + rest[|TOOL|..];
    if negated { assert c == "!" + rest; } else { assert [] + rest == rest; }
  }

  /** A line opens a block exactly when, trimmed, it is that condition's fence. */
  lemma {:induction false} OpensIff(line: string, c: Condition)
    ensures Classify(line) == Open(c) <==> Trim(line) == FenceText(c) && Allowed(c)
  {
    assert !c.Tool? ==> NoSpace(ConditionText(c)) && |ConditionText(c)| > 0;
    hide Trim, OpenText, ToolCondition, Contains, NoSpace, IsName;
    var t := Trim(line);
    if t == FenceText(c) && Allowed(c) {
      var text := ConditionText(c);
      if c.Tool? {
        FenceToolsAreNames(c.name);
        ToolReads(c.name, c.negated);
      }
      OpenTextReads(text);
    }
    if Classify(line) == Open(c) {
      OpenTextWritten(t);
      if c.Tool? { ToolWritten(OpenText(t).value); }
    }
  }
}
