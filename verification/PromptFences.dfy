/**
 * Checking and rendering prompt fences (packages/contracts/stella-prompts.ts:
 * 130-211) against the blocks the fences draw: a tree of lines and blocks.
 */
module PromptFences {
  import opened Options
  import opened PromptLines

  datatype Context = Context(env: Environment, tools: set<string>)

  predicate Holds(c: Condition, ctx: Context) {
    if c.Env? then c.env == ctx.env else (c.name in ctx.tools) != c.negated
  }

  datatype Problem = BadFence(line: nat, reason: Reason) | ClosesNothing(line: nat) | NeverClosed(line: nat)

  /** The errors met so far and the numbers of the fences still open. */
  datatype Scan = Scan(errors: seq<Problem>, open: seq<nat>)

  function ScanLine(s: Scan, line: string, n: nat): Scan {
    var fence := Classify(line);
    if fence.Invalid? then
      Scan(s.errors + [BadFence(n, fence.reason)], if fence.opens then s.open + [n] else s.open)
    else if fence.Open? then s.(open := s.open + [n])
    else if fence.Close? then
      if s.open == [] then s.(errors := s.errors + [ClosesNothing(n)]) else s.(open := s.open[..|s.open| - 1])
    else s
  }

  function ScanLines(lines: seq<string>): Scan {
    if lines == [] then Scan([], [])
    else ScanLine(ScanLines(lines[..|lines| - 1]), lines[|lines| - 1], |lines|)
  }

  function Unclosed(open: seq<nat>): seq<Problem> {
    if open == [] then [] else Unclosed(open[..|open| - 1]) + [NeverClosed(open[|open| - 1])]
  }

  function Problems(source: string): seq<Problem> {
    var s := ScanLines(Split(source)); s.errors + Unclosed(s.open)
  }

  method Validate(source: string) returns (errors: seq<Problem>)
    ensures errors == Problems(source)
  {
    hide Classify, Split;
    errors := [];
    var open: seq<nat> := [];
    var lines := Split(source);
    var index := 0;
    while index < |lines|
      invariant 0 <= index <= |lines| && Scan(errors, open) == ScanLines(lines[..index])
    {
      var fence := Classify(lines[index]);
      assert lines[..index + 1][..index] == lines[..index];
      if fence.Invalid? {
        errors := errors + [BadFence(index + 1, fence.reason)];
        if fence.opens { open := open + [index + 1]; }
      } else if fence.Open? {
        open := open + [index + 1];
      } else if fence.Close? {
        if open == [] { errors := errors + [ClosesNothing(index + 1)]; } else { open := open[..|open| - 1]; }
      }
      index := index + 1;
    }
    assert lines[..index] == lines;
    var scanned := errors;
    var k := 0;
    assert scanned + [] == scanned;
    while k < |open|
      invariant 0 <= k <= |open| && errors == scanned + Unclosed(open[..k])
    {
      assert open[..k + 1][..k] == open[..k];
      errors := errors + [NeverClosed(open[k])];
      k := k + 1;
    }
    assert open[..k] == open;
  }

  method HasFences(source: string) returns (found: bool)
    ensures found <==> exists i :: 0 <= i < |Split(source)| && Classify(Split(source)[i]) != Text
  {
    hide Classify, Split;
    var lines := Split(source);
    var i := 0;
    while i < |lines|
      invariant 0 <= i <= |lines| && forall k :: 0 <= k < i ==> Classify(lines[k]) == Text
    {
      if Classify(lines[i]) != Text {
        assert Classify(Split(source)[i]) != Text;
        return true;
      }
      i := i + 1;
    }
    return false;
  }

  // ------------------------------------------------------------------ rendering

  datatype Page = Page(output: seq<string>, included: seq<bool>, dropped: bool)

  predicate AllTrue(s: seq<bool>) { forall i :: 0 <= i < |s| ==> s[i] }

  function RenderLine(p: Page, line: string, ctx: Context): Page {
    var fence := Classify(line);
    if fence.Open?
      then p.(included := p.included + [AllTrue(p.included) && Holds(fence.condition, ctx)], dropped := true)
    else if fence.Close? then
      p.(included := if p.included == [] then [] else p.included[..|p.included| - 1], dropped := true)
    else if !AllTrue(p.included) then p.(dropped := true)
    else if p.dropped && Blank(line) && (p.output == [] || Blank(p.output[|p.output| - 1])) then p
    else p.(output := p.output + [line], dropped := false)
  }

  function RenderLines(lines: seq<string>, ctx: Context): Page {
    if lines == [] then Page([], [], false)
    else RenderLine(RenderLines(lines[..|lines| - 1], ctx), lines[|lines| - 1], ctx)
  }

  /** None where the source throws. */
  function Rendered(source: string, ctx: Context): Option<string> {
    if Problems(source) != [] then None else Some(Join(RenderLines(Split(source), ctx).output))
  }

  method Render(source: string, ctx: Context) returns (r: Option<string>)
    ensures r == Rendered(source, ctx)
  {
    hide Classify, Split, Blank, Join, Holds, Problems;
    var errors := Validate(source);
    if errors != [] { return None; }
    var output: seq<string>, included: seq<bool>, dropped := [], [], false;
    var lines := Split(source);
    var i := 0;
    while i < |lines|
      invariant 0 <= i <= |lines| && Page(output, included, dropped) == RenderLines(lines[..i], ctx)
    {
      var line := lines[i];
      assert lines[..i + 1][..i] == lines[..i];
      i := i + 1;
      var fence := Classify(line);
      if fence.Open? {
        included := included + [AllTrue(included) && Holds(fence.condition, ctx)];
        dropped := true;
        continue;
      }
      if fence.Close? {
        included := if included == [] then [] else included[..|included| - 1];
        dropped := true;
        continue;
      }
      if !AllTrue(included) {
        dropped := true;
        continue;
      }
      if dropped && Blank(line) && (output == [] || Blank(output[|output| - 1])) { continue; }
      output := output + [line];
      dropped := false;
    }
    assert lines[..i] == lines;
    return Some(Join(output));
  }

  // ------------------------------------------------------------- the block tree

  datatype Node = Line(text: string) | Block(open: string, condition: Condition, body: seq<Node>, close: string)

  /** The lines a tree is written as. */
  function Layout(nodes: seq<Node>): seq<string> {
    if nodes == [] then []
    else
      (if nodes[0].Line? then [nodes[0].text] else [nodes[0].open] + Layout(nodes[0].body) + [nodes[0].close])
      + Layout(nodes[1..])
  }

  /** A tree whose lines are what they claim to be. */
  ghost predicate Proper(nodes: seq<Node>) {
    forall i :: 0 <= i < |nodes| ==>
      if nodes[i].Line? then Classify(nodes[i].text) == Text
      else
        && Classify(nodes[i].open) == Open(nodes[i].condition) && Classify(nodes[i].close) == Close
        && Proper(nodes[i].body)
  }

  /** What a reader in this context sees: a block shows when its condition holds and the blocks around it show. */
  function Visible(nodes: seq<Node>, ctx: Context): seq<string> {
    if nodes == [] then []
    else
      (if nodes[0].Line? then [nodes[0].text] else if Holds(nodes[0].condition, ctx) then Visible(nodes[0].body, ctx)
       else [])
      + Visible(nodes[1..], ctx)
  }

  function NonBlank(lines: seq<string>): seq<string> {
    if lines == [] then []
    else NonBlank(lines[..|lines| - 1]) + if Blank(lines[|lines| - 1]) then [] else [lines[|lines| - 1]]
  }

  lemma {:induction false} NonBlankConcat(a: seq<string>, b: seq<string>)
    ensures NonBlank(a + b) == NonBlank(a) + NonBlank(b)
    decreases |b|
  {
    hide Blank;
    if b == [] {
      assert a + b == a;
    } else {
      var n := |b| - 1;
      NonBlankConcat(a, b[..n]);
      assert (a + b)[..|a + b| - 1] == a + b[..n];
    }
  }

  // ---------------------------------------------------------- validation decides

  /** The open fences after `lines`, from `h` open ones; None once a close has nothing to close. */
  ghost function Height(lines: seq<string>, h: nat): Option<nat> {
    if lines == [] then Some(h)
    else
      var f := Classify(lines[0]);
      if f.Open? then Height(lines[1..], h + 1)
      else if f.Close? then if h == 0 then None else Height(lines[1..], h - 1)
      else Height(lines[1..], h)
  }

  ghost predicate WellFormed(lines: seq<string>) { forall i :: 0 <= i < |lines| ==> !Classify(lines[i]).Invalid? }

  lemma {:induction false} HeightConcat(a: seq<string>, b: seq<string>, h: nat)
    ensures Height(a + b, h) == if Height(a, h).None? then None else Height(b, Height(a, h).value)
    decreases |a|
  {
    hide Classify;
    if a == [] {
      assert a + b == b;
    } else {
      var f := Classify(a[0]);
      assert (a + b)[1..] == a[1..] + b;
      HeightConcat(a[1..], b, if f.Open? then h + 1 else if f.Close? && h > 0 then h - 1 else h);
    }
  }

  /** The scan finds no error exactly when every line is well formed and no close is left over. */
  lemma {:induction false} ScanMeansHeight(lines: seq<string>)
    ensures var s := ScanLines(lines);
            (s.errors == [] <==> WellFormed(lines) && Height(lines, 0).Some?)
            && (s.errors == [] ==> Height(lines, 0) == Some(|s.open|))
    decreases |lines|
  {
    hide Classify;
    if lines != [] {
      var n := |lines| - 1;
      var before, line := lines[..n], lines[n];
      ScanMeansHeight(before);
      assert before + [line] == lines;
      HeightConcat(before, [line], 0);
      assert WellFormed(lines) <==> WellFormed(before) && !Classify(line).Invalid?;
    }
  }

  datatype Parsed = Unbalanced | Parsed(nodes: seq<Node>, rest: seq<string>)

  /** Reads the blocks off well-formed lines, up to a close that is not theirs. */
  function Tree(lines: seq<string>): (p: Parsed)
    ensures p.Parsed? ==> |p.rest| <= |lines|
    decreases |lines|
  {
    if lines == [] || Classify(lines[0]).Close? then Parsed([], lines)
    else
      var f := Classify(lines[0]);
      var inner := Tree(lines[1..]);
      if inner.Unbalanced? then Unbalanced
      else if !f.Open? then Parsed([Line(lines[0])] + inner.nodes, inner.rest)
      else if inner.rest == [] then Unbalanced
      else
        var after := Tree(inner.rest[1..]);
        if after.Unbalanced? then Unbalanced
        else Parsed([Block(lines[0], f.condition, inner.nodes, inner.rest[0])] + after.nodes, after.rest)
  }

  lemma {:induction false} LayoutCons(node: Node, nodes: seq<Node>)
    ensures Layout([node] + nodes)
         == (if node.Line? then [node.text] else [node.open] + Layout(node.body) + [node.close]) + Layout(nodes)
  {
    assert ([node] + nodes)[1..] == nodes;
  }

  lemma {:induction false} TreeReads(lines: seq<string>)
    requires WellFormed(lines)
    ensures var p := Tree(lines);
            p.Parsed? ==> Proper(p.nodes) && Layout(p.nodes) + p.rest == lines
                          && (p.rest == [] || Classify(p.rest[0]).Close?)
    decreases |lines|
  {
    hide Classify, Proper, Layout, WellFormed;
    NoNodes(Context(Desktop, {}));
    if lines == [] || Classify(lines[0]).Close? {
      assert [] + lines == lines;
    } else {
      var line, below := lines[0], lines[1..];
      assert [line] + below == lines;
      TailWellFormed(line, below);
      TreeReads(below);
      var inner := Tree(below);
      if inner.Parsed? && !Classify(line).Open? {
        LineReads(line, inner.nodes, inner.rest);
      } else if inner.Parsed? && inner.rest != [] {
        SuffixWellFormed(lines, Layout(inner.nodes), inner.rest);
        TreeReads(inner.rest[1..]);
        var after := Tree(inner.rest[1..]);
        if after.Parsed? { BlockReads(line, inner.nodes, inner.rest, after.nodes, after.rest); }
      }
    }
  }

  lemma {:induction false} NoNodes(ctx: Context)
    ensures Proper([]) && Layout([]) == [] && Visible([], ctx) == []
  {
  }

  lemma {:induction false} TailWellFormed(line: string, below: seq<string>)
    requires WellFormed([line] + below)
    ensures WellFormed(below) && !Classify(line).Invalid?
  {
    hide Classify;
    var all := [line] + below;
    assert all[0] == line;
    forall i | 0 <= i < |below| ensures !Classify(below[i]).Invalid? { assert all[i + 1] == below[i]; }
  }

  lemma {:induction false} LineReads(line: string, nodes: seq<Node>, rest: seq<string>)
    requires Proper(nodes) && Classify(line) == Text
    ensures var all := [Line(line)] + nodes; Proper(all) && Layout(all) + rest == [line] + (Layout(nodes) + rest)
  {
    hide Classify, Layout;
    LayoutCons(Line(line), nodes);
  }

  lemma {:induction false} BlockReads(open: string, body: seq<Node>, closing: seq<string>,
                                      nodes: seq<Node>, rest: seq<string>)
    requires Classify(open).Open? && Proper(body) && closing != [] && Classify(closing[0]).Close? && Proper(nodes)
    requires Layout(nodes) + rest == closing[1..]
    ensures var all := [Block(open, Classify(open).condition, body, closing[0])] + nodes;
            Proper(all) && Layout(all) + rest == [open] + (Layout(body) + closing)
  {
    hide Classify, Layout;
    var b := Block(open, Classify(open).condition, body, closing[0]);
    LayoutCons(b, nodes);
    assert closing == [closing[0]] + (Layout(nodes) + rest);
    assert [open] + Layout(body) + [closing[0]] + Layout(nodes) + rest == [open] + (Layout(body) + closing);
  }

  lemma {:induction false} SuffixWellFormed(lines: seq<string>, front: seq<string>, rest: seq<string>)
    requires WellFormed(lines) && lines != [] && lines[1..] == front + rest && rest != []
    ensures WellFormed(rest[1..])
  {
    forall i | 0 <= i < |rest| - 1 ensures !Classify(rest[1..][i]).Invalid? {
      assert rest[1..][i] == lines[1 + |front| + 1 + i];
    }
  }

  lemma {:induction false} LayoutHeight(nodes: seq<Node>, h: nat)
    requires Proper(nodes)
    ensures Height(Layout(nodes), h) == Some(h)
    decreases nodes
  {
    hide Classify;
    if nodes != [] {
      var node := nodes[0];
      LayoutHeight(nodes[1..], h);
      if node.Line? {
        HeightConcat([node.text], Layout(nodes[1..]), h);
      } else {
        LayoutHeight(node.body, h + 1);
        HeightConcat([node.open] + Layout(node.body) + [node.close], Layout(nodes[1..]), h);
        HeightConcat([node.open] + Layout(node.body), [node.close], h);
        HeightConcat([node.open], Layout(node.body), h);
      }
    }
  }

  /** Lines that do not form blocks leave a fence open, however many are open before them. */
  lemma {:induction false} UnbalancedHeight(lines: seq<string>, h: nat)
    requires WellFormed(lines) && Tree(lines).Unbalanced?
    ensures Height(lines, h).Some? && Height(lines, h).value > h
    decreases |lines|
  {
    hide Classify;
    var f := Classify(lines[0]);
    var inner := Tree(lines[1..]);
    var h' := if f.Open? then h + 1 else h;
    if inner.Unbalanced? {
      UnbalancedHeight(lines[1..], h');
    } else {
      TreeReads(lines[1..]);
      LayoutHeight(inner.nodes, h');
      HeightConcat(Layout(inner.nodes), inner.rest, h');
      if inner.rest != [] {
        SuffixWellFormed(lines, Layout(inner.nodes), inner.rest);
        UnbalancedHeight(inner.rest[1..], h);
      }
    }
  }

  /** Well-formed lines whose fences balance are the layout of a block tree, and only they are. */
  lemma {:induction false} BalancedIffBlocks(lines: seq<string>)
    requires WellFormed(lines)
    ensures Height(lines, 0) == Some(0) <==> exists nodes :: Proper(nodes) && Layout(nodes) == lines
    ensures Height(lines, 0) == Some(0) ==>
              Tree(lines).Parsed? && Proper(Tree(lines).nodes) && Layout(Tree(lines).nodes) == lines
  {
    hide Classify;
    if Height(lines, 0) == Some(0) {
      if Tree(lines).Unbalanced? { UnbalancedHeight(lines, 0); }
      TreeReads(lines);
      var p := Tree(lines);
      LayoutHeight(p.nodes, 0);
      HeightConcat(Layout(p.nodes), p.rest, 0);
      assert p.rest == [];
      assert Layout(p.nodes) + [] == Layout(p.nodes);
    }
    if nodes :| Proper(nodes) && Layout(nodes) == lines { LayoutHeight(nodes, 0); }
  }

  /** Validation finds nothing exactly when every fence is well formed and the source is a tree of blocks. */
  lemma {:induction false} ValidIffBlocks(source: string)
    ensures Problems(source) == [] <==>
            WellFormed(Split(source)) && exists nodes :: Proper(nodes) && Layout(nodes) == Split(source)
  {
    hide Classify, Split, Layout, Proper, ScanLines, Height, WellFormed;
    var lines := Split(source);
    ScanMeansHeight(lines);
    if WellFormed(lines) { BalancedIffBlocks(lines); }
  }

  // ----------------------------------------------------------- rendering's meaning

  predicate FenceLine(line: string) { Classify(line).Open? || Classify(line).Close? }

  /** The line at `q` is text inside shown blocks only. */
  predicate ShownAt(lines: seq<string>, q: nat, ctx: Context)
    requires q < |lines|
  {
    !FenceLine(lines[q]) && AllTrue(RenderLines(lines[..q], ctx).included)
  }

  function Shown(lines: seq<string>, ctx: Context): seq<string> {
    if lines == [] then []
    else
      var n := |lines| - 1;
      Shown(lines[..n], ctx) + if ShownAt(lines, n, ctx) then [lines[n]] else []
  }

  lemma {:induction false} OutputIsShown(lines: seq<string>, ctx: Context)
    ensures NonBlank(RenderLines(lines, ctx).output) == NonBlank(Shown(lines, ctx))
    decreases |lines|
  {
    hide Classify, Blank, Holds, AllTrue;
    if lines != [] {
      var n := |lines| - 1;
      var line := lines[n];
      OutputIsShown(lines[..n], ctx);
      NonBlankConcat(Shown(lines[..n], ctx), [line]);
      NonBlankConcat(RenderLines(lines[..n], ctx).output, [line]);
      assert Shown(lines[..n], ctx) + [] == Shown(lines[..n], ctx);
    }
  }

  lemma {:induction false} OneMore(pre: seq<string>, line: string, ctx: Context)
    ensures RenderLines(pre + [line], ctx) == RenderLine(RenderLines(pre, ctx), line, ctx)
    ensures Shown(pre + [line], ctx)
         == Shown(pre, ctx) + if !FenceLine(line) && AllTrue(RenderLines(pre, ctx).included) then [line] else []
  {
    hide Classify, Blank, Holds, AllTrue;
    assert (pre + [line])[..|pre|] == pre;
  }

  lemma {:induction false} AllTrueMore(s: seq<bool>, b: bool)
    ensures AllTrue(s + [b]) <==> AllTrue(s) && b
    ensures (s + [b])[..|s + [b]| - 1] == s
  {
    if AllTrue(s + [b]) {
      assert forall i :: 0 <= i < |s| ==> (s + [b])[i] == s[i];
      assert (s + [b])[|s|] == b;
    }
  }

  /** A tree's lines show what the tree shows, wherever they stand, and leave the enclosing blocks as they were. */
  lemma {:induction false} TreeShows(pre: seq<string>, nodes: seq<Node>, ctx: Context)
    requires Proper(nodes)
    ensures var all := pre + Layout(nodes); var included := RenderLines(pre, ctx).included;
            RenderLines(all, ctx).included == included
            && Shown(all, ctx) == Shown(pre, ctx) + if AllTrue(included) then Visible(nodes, ctx) else []
    decreases nodes
  {
    hide Classify, Blank, Holds, AllTrue, RenderLines, Shown, Proper, Layout, Visible;
    if nodes == [] {
      NoNodes(ctx);
      assert pre + [] == pre;
    } else {
      var node, rest := nodes[0], nodes[1..];
      ProperParts(nodes);
      NodeShows(pre, node, ctx);
      TreeShows(pre + NodeLayout(node), rest, ctx);
      assert [node] + rest == nodes;
      TreeParts(pre, node, rest, ctx);
    }
  }

  function NodeLayout(node: Node): seq<string> {
    if node.Line? then [node.text] else [node.open] + Layout(node.body) + [node.close]
  }

  function NodeVisible(node: Node, ctx: Context): seq<string> {
    if node.Line? then [node.text] else if Holds(node.condition, ctx) then Visible(node.body, ctx) else []
  }

  lemma {:induction false} TreeParts(pre: seq<string>, node: Node, rest: seq<Node>, ctx: Context)
    ensures pre + NodeLayout(node) + Layout(rest) == pre + Layout([node] + rest)
    ensures Visible([node] + rest, ctx) == NodeVisible(node, ctx) + Visible(rest, ctx)
  {
    assert ([node] + rest)[1..] == rest;
    assert Layout([node] + rest) == NodeLayout(node) + Layout(rest);
  }

  lemma {:induction false} ProperParts(nodes: seq<Node>)
    requires Proper(nodes) && nodes != []
    ensures Proper([nodes[0]]) && Proper(nodes[1..])
  {
    hide Classify;
  }

  lemma {:induction false} NodeShows(pre: seq<string>, node: Node, ctx: Context)
    requires Proper([node])
    ensures var included := RenderLines(pre, ctx).included;
            RenderLines(pre + NodeLayout(node), ctx).included == included
            && Shown(pre + NodeLayout(node), ctx)
               == Shown(pre, ctx) + if AllTrue(included) then NodeVisible(node, ctx) else []
    decreases node, 0
  {
    hide Classify, Blank, Holds, AllTrue, RenderLines, Shown;
    assert [node][0] == node;
    var included := RenderLines(pre, ctx).included;
    if node.Line? {
      OneMore(pre, node.text, ctx);
    } else {
      var inside := pre + [node.open];
      var b := AllTrue(included) && Holds(node.condition, ctx);
      OneMore(pre, node.open, ctx);
      AllTrueMore(included, b);
      TreeShows(inside, node.body, ctx);
      OneMore(inside + Layout(node.body), node.close, ctx);
      assert inside + Layout(node.body) + [node.close] == pre + ([node.open] + Layout(node.body) + [node.close]);
    }
  }

  /** Only text lines of the source are written. */
  lemma {:induction false} OutputIsText(lines: seq<string>, ctx: Context)
    requires WellFormed(lines)
    ensures forall o :: o in RenderLines(lines, ctx).output ==> o in lines && Classify(o) == Text
    decreases |lines|
  {
    hide Classify, Blank, Holds, AllTrue;
    if lines != [] {
      var n := |lines| - 1;
      assert WellFormed(lines[..n]);
      OutputIsText(lines[..n], ctx);
    }
  }

  /** Lines without fences are written as they are. */
  lemma {:induction false} PlainLines(lines: seq<string>, ctx: Context)
    requires forall i :: 0 <= i < |lines| ==> Classify(lines[i]) == Text
    ensures RenderLines(lines, ctx) == Page(lines, [], false) && ScanLines(lines) == Scan([], [])
    decreases |lines|
  {
    hide Classify, Blank, Holds;
    if lines != [] {
      var n := |lines| - 1;
      PlainLines(lines[..n], ctx);
      assert lines[..n] + [lines[n]] == lines;
    }
  }

  /** Rendering changes nothing in a source without fences. */
  lemma {:induction false} UnfencedUnchanged(source: string, ctx: Context)
    requires forall i :: 0 <= i < |Split(source)| ==> Classify(Split(source)[i]) == Text
    ensures Rendered(source, ctx) == Some(source)
  {
    hide Classify, Split, Join, RenderLines, ScanLines;
    PlainLines(Split(source), ctx);
    JoinSplit(source);
  }

  /** The written text's lines are the output, but for an empty output, which is one empty line. */
  lemma {:induction false} WrittenLines(lines: seq<string>, output: seq<string>)
    requires AllOneLine(lines) && forall o :: o in output ==> o in lines
    ensures Split(Join(output)) == if output == [] then [[]] else output
  {
    hide Split, Join, OneLine;
    if output != [] {
      forall i | 0 <= i < |output| ensures OneLine(output[i]) { assert output[i] in lines; }
      SplitJoin(output);
    } else {
      EmptyText();
    }
  }

  lemma {:induction false} EmptyText()
    ensures Join([]) == [] && Split([]) == [[]] && Classify([]) == Text && Blank([])
  {
    assert Trim([]) == [];
    assert |CLOSE_FENCE| == 12;
    assert |"<!-- when"| == 9 && |"<!-- end"| == 8;
  }

  /** What was rendered has no fences, so rendering it again, in any context, changes nothing. */
  lemma {:induction false} RenderedStable(source: string, first: Context, second: Context)
    ensures var r := Rendered(source, first);
            r.Some? ==> Rendered(r.value, second) == r
                        && forall i :: 0 <= i < |Split(r.value)| ==> Classify(Split(r.value)[i]) == Text
  {
    hide Classify, Split, Join, RenderLines, ScanLines, WellFormed, AllOneLine, Layout, Proper;
    if Rendered(source, first).Some? {
      var lines := Split(source);
      var output := RenderLines(lines, first).output;
      ValidIffBlocks(source);
      OutputIsText(lines, first);
      JoinSplit(source);
      WrittenLines(lines, output);
      EmptyText();
      UnfencedUnchanged(Join(output), second);
    }
  }

  /**
   * Rendering keeps the meaning: the non-blank lines written are exactly the
   * non-blank lines the block tree shows, in order.
   */
  lemma {:induction false} RenderingShowsBlocks(source: string, ctx: Context, nodes: seq<Node>)
    requires WellFormed(Split(source)) && Proper(nodes) && Layout(nodes) == Split(source)
    ensures Rendered(source, ctx).Some?
    ensures NonBlank(Split(Rendered(source, ctx).value)) == NonBlank(Visible(nodes, ctx))
  {
    hide Classify, Split, Join, RenderLines, ScanLines, WellFormed, AllOneLine, Layout,
         Proper, Shown, NonBlank, Visible;
    var lines := Split(source);
    var output := RenderLines(lines, ctx).output;
    ValidIffBlocks(source);
    OutputIsShown(lines, ctx);
    TreeShows([], nodes, ctx);
    assert [] + Layout(nodes) == Layout(nodes);
    NothingShown(ctx);
    OutputIsText(lines, ctx);
    JoinSplit(source);
    WrittenLines(lines, output);
    assert [] + Visible(nodes, ctx) == Visible(nodes, ctx);
  }

  lemma {:induction false} NothingShown(ctx: Context)
    ensures RenderLines([], ctx) == Page([], [], false) && Shown([], ctx) == [] && AllTrue([])
    ensures NonBlank([[]]) == [] == NonBlank([])
  {
    EmptyText();
  }

  // ---------------------------------------------------------------- blank lines

  function Wrote(lines: seq<string>, j: nat, ctx: Context): bool
    requires j < |lines|
  {
    |RenderLines(lines[..j + 1], ctx).output| > |RenderLines(lines[..j], ctx).output|
  }

  /** The last line written, or -1. */
  function LastWritten(lines: seq<string>, ctx: Context): (k: int)
    ensures -1 <= k < |lines|
  {
    if lines == [] then -1
    else if Wrote(lines, |lines| - 1, ctx) then |lines| - 1
    else LastWritten(lines[..|lines| - 1], ctx)
  }

  ghost predicate HiddenBetween(lines: seq<string>, from: int, ctx: Context) {
    exists q: nat :: from < q < |lines| && !ShownAt(lines, q, ctx)
  }

  lemma {:induction false} HiddenGrows(lines: seq<string>, line: string, from: int, ctx: Context)
    requires from < |lines|
    ensures HiddenBetween(lines + [line], from, ctx)
            <==> HiddenBetween(lines, from, ctx) || !ShownAt(lines + [line], |lines|, ctx)
  {
    hide RenderLines, FenceLine, AllTrue;
    var all := lines + [line];
    assert forall q: nat :: q < |lines| ==> all[q] == lines[q] && all[..q] == lines[..q];
    assert forall q: nat :: q < |lines| ==> ShownAt(all, q, ctx) == ShownAt(lines, q, ctx);
    if HiddenBetween(lines, from, ctx) {
      var q: nat :| from < q < |lines| && !ShownAt(lines, q, ctx);
      assert !ShownAt(all, q, ctx);
    }
  }

  lemma {:induction false} LastStep(before: seq<string>, line: string, ctx: Context)
    ensures var all := before + [line]; var p := RenderLines(before, ctx);
            (Wrote(all, |before|, ctx) <==> |RenderLine(p, line, ctx).output| > |p.output|)
            && LastWritten(all, ctx) == (if Wrote(all, |before|, ctx) then |before| else LastWritten(before, ctx))
            && (ShownAt(all, |before|, ctx) <==> !FenceLine(line) && AllTrue(p.included))
  {
    hide FenceLine, AllTrue, RenderLine;
    var all := before + [line];
    assert all[..|before|] == before && all[..|before| + 1] == all;
  }

  /** The flag says whether a line was hidden since the last one written, and the output's end is that line. */
  lemma {:induction false} FlagMeans(lines: seq<string>, ctx: Context)
    ensures var p, k := RenderLines(lines, ctx), LastWritten(lines, ctx);
            (p.dropped <==> HiddenBetween(lines, k, ctx))
            && (k == -1 <==> p.output == []) && (k >= 0 ==> p.output[|p.output| - 1] == lines[k])
    decreases |lines|
  {
    assert lines == [] ==>
             RenderLines(lines, ctx) == Page([], [], false) && LastWritten(lines, ctx) == -1
             && !HiddenBetween(lines, -1, ctx);
    hide Classify, Blank, Holds, AllTrue, RenderLines, LastWritten, Wrote, ShownAt, Shown;
    if lines != [] {
      var n := |lines| - 1;
      var before, line := lines[..n], lines[n];
      assert before + [line] == lines;
      FlagMeans(before, ctx);
      HiddenGrows(before, line, LastWritten(before, ctx), ctx);
      OneMore(before, line, ctx);
      LastStep(before, line, ctx);
    }
  }

  /**
   * A line is written exactly when it is shown and is not a blank that a
   * hidden line separates from a blank already written, or from the start.
   */
  lemma {:induction false} WrittenIff(lines: seq<string>, line: string, ctx: Context)
    ensures var all := lines + [line]; var k := LastWritten(lines, ctx);
            Wrote(all, |lines|, ctx) <==>
            ShownAt(all, |lines|, ctx)
            && !(Blank(line) && (k == -1 || Blank(lines[k])) && HiddenBetween(lines, k, ctx))
  {
    hide Classify, Blank, Holds, AllTrue, LastWritten, HiddenBetween;
    var all := lines + [line];
    assert all[..|lines|] == lines && all[..|lines| + 1] == all;
    FlagMeans(lines, ctx);
    OneMore(lines, line, ctx);
  }
}
