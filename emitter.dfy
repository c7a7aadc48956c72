/**
 * The Swift emitter of gir.swift: `indent`, the `ConversionContext` stack
 * and the walk of `GIR.dumpSwift` over the flattened XML tree. The
 * handler closures become data: each tag maps to the rule that renders its
 * line and, when the closure pushes a context, the table of that context.
 */
module Emitter {
  import opened Wrappers
  import opened Text
  import opened Xml

  /** `indent(level:_:)`: four spaces per level, then `s`. */
  function Indent(level: nat, s: string): (r: string)
    ensures |r| == 4 * level + |s|
    ensures r[4 * level..] == s
    ensures forall k :: 0 <= k < 4 * level ==> r[k] == ' '
  {
    seq(4 * level, _ => ' ') + s
  }

  /** A node of the flattened tree (`XMLTree.Node`): the element and its depth, the root at 0. */
  datatype TreeNode = TreeNode(node: Element, level: nat)

  /**
   * What a handler closure returns. `Heading` is the repository and
   * namespace closures' indented `// <tag> @ <level>+<context level>`;
   * `Captured` is the alias closure, which returns the line `s` of the
   * closure that built its table; `FunctionHeader` is the function
   * closure; `TypeAlias` is the type closure, which returns "" and writes
   * the declaration into the context's `outputs`.
   */
  datatype Rule = Heading | Captured | FunctionHeader | TypeAlias

  /** A handler: its rule and, if it pushes a context, that context's table. */
  datatype Handler = Handler(rule: Rule, child: Option<map<string, Handler>>)

  /** The `conversion` dictionary of a context. */
  type Table = map<string, Handler>

  /** The handler tables that `dumpSwift` builds, from the innermost out. */
  const TypeTable: Table := map["type" := Handler(TypeAlias, None)]
  const NamespaceTable: Table :=
    map["alias" := Handler(Captured, Some(TypeTable)), "function" := Handler(FunctionHeader, Some(TypeTable))]
  const RepositoryTable: Table := map["namespace" := Handler(Heading, Some(NamespaceTable))]
  const RootTable: Table := map["repository" := Handler(Heading, Some(RepositoryTable))]

  /** The `<node level>+<context level>` annotation of a heading or unhandled line. */
  function LevelAnnotation(nodeLevel: nat, contextLevel: nat): string {
    IntToString(nodeLevel) + "+" + IntToString(contextLevel)
  }

  /** The annotation splits at '+' into the two levels, each of which parses back. */
  lemma LevelsReadBack(nodeLevel: nat, contextLevel: nat)
    requires InIntRange(nodeLevel) && InIntRange(contextLevel)
    ensures var parts := Split(LevelAnnotation(nodeLevel, contextLevel), '+');
      |parts| == 2 && ParseInt(parts[0]) == Some(nodeLevel) && ParseInt(parts[1]) == Some(contextLevel)
  {
    var a, b := IntToString(nodeLevel), IntToString(contextLevel);
    assert '+' !in a by { assert forall k :: 0 <= k < |a| ==> IsDigit(a[k]); }
    assert '+' !in b by { assert forall k :: 0 <= k < |b| ==> IsDigit(b[k]); }
    assert Join([a, b], "+") == a + "+" + b;
    SplitJoin([a, b], '+');
    ParseIntOfIntToString(nodeLevel);
    ParseIntOfIntToString(contextLevel);
  }

  /** The line of the repository and namespace closures. */
  function HeadingLine(tn: TreeNode, contextLevel: nat): (r: string)
    ensures |r| >= 4 * tn.level && forall k :: 0 <= k < 4 * tn.level ==> r[k] == ' '
    ensures r[4 * tn.level..] == "// " + tn.node.tag + " @ " + LevelAnnotation(tn.level, contextLevel)
  {
    Indent(tn.level, "// " + tn.node.tag + " @ " + LevelAnnotation(tn.level, contextLevel))
  }

  /** The line for a node no handler takes. */
  function UnhandledLine(tn: TreeNode, contextLevel: nat): (r: string)
    ensures |r| >= 4 * tn.level && forall k :: 0 <= k < 4 * tn.level ==> r[k] == ' '
    ensures r[4 * tn.level..] == "// unhandled: " + tn.node.tag + " @ " + LevelAnnotation(tn.level, contextLevel)
  {
    Indent(tn.level, "// unhandled: " + tn.node.tag + " @ " + LevelAnnotation(tn.level, contextLevel))
  }

  /** The function closure: `func <name>(` for a non-empty name, otherwise a comment. */
  function FunctionLine(tn: TreeNode): (r: string)
    ensures HasPrefix(r, "func ") <==> "name" in tn.node.attrs && tn.node.attrs["name"] != ""
    ensures HasPrefix(r, "func ") ==> r == "func " + tn.node.attrs["name"] + "("
  {
    var empty := "// empty function ";
    assert empty[0] != "func "[0];
    match Attr(tn.node, "name")
    case Some(name) => if name != "" then "func " + name + "(" else empty
    case None => empty
  }

  /** String interpolation of an optional string: `nil` or `Optional("…")`. */
  function Describe(o: Option<string>): string {
    match o
    case None => "nil"
    case Some(v) => "Optional(\"" + v + "\")"
  }

  /**
   * What the type closure writes to `outputs`: a type alias when the type
   * node and the node that pushed the context both have non-empty names,
   * otherwise an error comment.
   */
  function AliasDeclaration(tn: TreeNode, parentNode: Option<TreeNode>): (r: string)
    ensures HasPrefix(r, "public ") <==>
      parentNode.Some? && Attr(tn.node, "name").GetOr("") != "" && Attr(parentNode.value.node, "name").GetOr("") != ""
  {
    var typeName := Attr(tn.node, "name");
    var parentName := if parentNode.Some? then Attr(parentNode.value.node, "name") else None;
    if typeName.Some? && parentName.Some? && typeName.value != "" && parentName.value != "" then
      "public typealias " + parentName.value + " = " + typeName.value
    else
      var r := "// error alias " + Describe(typeName) + " = " + Describe(parentName);
      assert r[0] != "public "[0];
      r
  }

  // ---------------------------------------------------------------------
  // The walk as a function of a stack of frames
  // ---------------------------------------------------------------------

  /**
   * The part of a context the walk reads: its level, the node that pushed
   * it, its table, and the line `s` the handlers of its table captured.
   */
  datatype Frame = Frame(level: nat, parentNode: Option<TreeNode>, conversion: Table, opening: string)

  /** The frame of the outermost context of `dumpSwift`. */
  const RootFrame: Frame := Frame(0, None, RootTable, "")

  /**
   * A chain of contexts from the root up: the root is at level 0 and has no
   * node, every other frame was pushed by a node one level below it.
   */
  ghost predicate WellFormed(stack: seq<Frame>) {
    && stack != []
    && stack[0].level == 0 && stack[0].parentNode.None?
    && forall k :: 0 < k < |stack| ==>
         stack[k].parentNode.Some? && stack[k].level == stack[k].parentNode.value.level + 1
  }

  /** The `while` loop of `dumpSwift`: drop contexts while the active one is deeper than `level`. */
  function PopTo(stack: seq<Frame>, level: nat): (r: seq<Frame>)
    requires WellFormed(stack)
    ensures WellFormed(r) && |r| <= |stack| && r == stack[..|r|]
    ensures r[|r| - 1].level <= level
    ensures forall k :: |r| <= k < |stack| ==> stack[k].level > level
    decreases |stack|
  {
    if stack[|stack| - 1].level <= level then stack
    else PopTo(stack[..|stack| - 1], level)
  }

  /** The line one node produces and the stack after it. */
  datatype Stepped = Stepped(line: string, stack: seq<Frame>)

  /** The line a handler renders in the active frame `top`. */
  function Render(rule: Rule, top: Frame, tn: TreeNode): string {
    match rule
    case Heading => HeadingLine(tn, top.level)
    case Captured => top.opening
    case FunctionHeader => FunctionLine(tn)
    case TypeAlias => ""
  }

  /**
   * One node of the walk: the active context's handler for the node's tag
   * renders the line and may push a context one level below the node;
   * without a handler the walk pops to the node's level and reports it as
   * unhandled, without consulting the handlers of the context it popped to.
   */
  function Step(stack: seq<Frame>, tn: TreeNode): (r: Stepped)
    requires WellFormed(stack)
    ensures WellFormed(r.stack)
  {
    var top := stack[|stack| - 1];
    if tn.node.tag in top.conversion then
      var h := top.conversion[tn.node.tag];
      var line := Render(h.rule, top, tn);
      match h.child
      case Some(t) => Stepped(line, stack + [Frame(tn.level + 1, Some(tn), t, line)])
      case None => Stepped(line, stack)
    else
      var popped := PopTo(stack, tn.level);
      Stepped(UnhandledLine(tn, popped[|popped| - 1].level), popped)
  }

  /** The lines of a node stream and the stack after it, one node at a time. */
  datatype Walked = Walked(lines: seq<string>, stack: seq<Frame>)

  function WalkSpec(stack: seq<Frame>, nodes: seq<TreeNode>): (r: Walked)
    requires WellFormed(stack)
    ensures WellFormed(r.stack) && |r.lines| == |nodes|
    decreases |nodes|
  {
    if nodes == [] then Walked([], stack)
    else
      var w := WalkSpec(stack, nodes[..|nodes| - 1]);
      var s := Step(w.stack, nodes[|nodes| - 1]);
      Walked(w.lines + [s.line], s.stack)
  }

  /** Walking one more node of a stream adds that node's step. */
  lemma WalkExtend(stack: seq<Frame>, nodes: seq<TreeNode>, i: nat)
    requires WellFormed(stack) && i < |nodes|
    ensures WalkSpec(stack, nodes[..i + 1]) ==
      Walked(WalkSpec(stack, nodes[..i]).lines + [Step(WalkSpec(stack, nodes[..i]).stack, nodes[i]).line],
             Step(WalkSpec(stack, nodes[..i]).stack, nodes[i]).stack)
    ensures Output(WalkSpec(stack, nodes[..i + 1]).lines) ==
      Output(WalkSpec(stack, nodes[..i]).lines) + Step(WalkSpec(stack, nodes[..i]).stack, nodes[i]).line + "\n"
  {
    assert nodes[..i + 1][..i] == nodes[..i] && nodes[..i + 1][i] == nodes[i];
    var lines := WalkSpec(stack, nodes[..i + 1]).lines;
    assert lines[..|lines| - 1] == WalkSpec(stack, nodes[..i]).lines;
  }

  /** The final `reduce`: each line followed by a newline. */
  function Output(lines: seq<string>): string
    decreases |lines|
  {
    if lines == [] then "" else Output(lines[..|lines| - 1]) + lines[|lines| - 1] + "\n"
  }

  // ---------------------------------------------------------------------
  // Properties of the walk
  // ---------------------------------------------------------------------

  /** The lines of a prefix of the stream are a prefix of the lines, and the k-th line is the k-th node's step. */
  lemma {:induction false} WalkInOrder(stack: seq<Frame>, nodes: seq<TreeNode>, k: nat)
    requires WellFormed(stack) && k < |nodes|
    ensures WalkSpec(stack, nodes).lines[..k] == WalkSpec(stack, nodes[..k]).lines
    ensures WalkSpec(stack, nodes).lines[k] == Step(WalkSpec(stack, nodes[..k]).stack, nodes[k]).line
    decreases |nodes|
  {
    var n := |nodes| - 1;
    var w := WalkSpec(stack, nodes[..n]);
    var x := Step(w.stack, nodes[n]).line;
    var lines := WalkSpec(stack, nodes).lines;
    assert lines == w.lines + [x];
    if k < n {
      WalkInOrder(stack, nodes[..n], k);
      assert nodes[..n][..k] == nodes[..k] && nodes[..n][k] == nodes[k];
      assert lines[..k] == w.lines[..k] && lines[k] == w.lines[k];
    } else {
      assert lines[..k] == w.lines;
    }
  }

  /** Output distributes over concatenation. */
  lemma {:induction false} OutputAppend(a: seq<string>, b: seq<string>)
    ensures Output(a + b) == Output(a) + Output(b)
    decreases |b|
  {
    if b != [] {
      var n := |b| - 1;
      assert (a + b)[..|a + b| - 1] == a + b[..n];
      OutputAppend(a, b[..n]);
    } else {
      assert a + b == a;
    }
  }

  /** Each line appears once, followed by exactly one newline, between the lines before and after it. */
  lemma OutputOneLinePerEntry(lines: seq<string>, k: nat)
    requires k < |lines|
    ensures Output(lines) == Output(lines[..k + 1]) + Output(lines[k + 1..])
    ensures Output(lines[..k + 1]) == Output(lines[..k]) + lines[k] + "\n"
  {
    var front := lines[..k + 1];
    assert lines == front + lines[k + 1..];
    OutputAppend(front, lines[k + 1..]);
    assert front[..|front| - 1] == lines[..k] && front[|front| - 1] == lines[k];
  }

  /** The output's length: every line and its newline. */
  lemma {:induction false} OutputLength(lines: seq<string>)
    ensures |Output(lines)| >= |lines|
    ensures (forall k :: 0 <= k < |lines| ==> lines[k] == "") ==> Output(lines) == seq(|lines|, _ => '\n')
    decreases |lines|
  {
    if lines != [] {
      OutputLength(lines[..|lines| - 1]);
    }
  }

  /** A handled node's line comes from its handler, and the stack grows by at most the pushed frame. */
  lemma StepHandled(stack: seq<Frame>, tn: TreeNode)
    requires WellFormed(stack)
    requires tn.node.tag in stack[|stack| - 1].conversion
    ensures var top := stack[|stack| - 1];
      var h := top.conversion[tn.node.tag];
      var r := Step(stack, tn);
      r.line == Render(h.rule, top, tn) &&
      (h.child.None? ==> r.stack == stack) &&
      (h.child.Some? ==> r.stack[..|stack|] == stack && |r.stack| == |stack| + 1 &&
                         r.stack[|stack|] == Frame(tn.level + 1, Some(tn), h.child.value, r.line))
  {
  }

  /**
   * An unhandled node pops exactly the contexts deeper than it, leaves the
   * active one no deeper than the node, and reports the level it is at.
   */
  lemma StepUnhandled(stack: seq<Frame>, tn: TreeNode)
    requires WellFormed(stack)
    requires tn.node.tag !in stack[|stack| - 1].conversion
    ensures var r := Step(stack, tn);
      var top := r.stack[|r.stack| - 1];
      r.stack == stack[..|r.stack|] && top.level <= tn.level &&
      (forall k :: |r.stack| <= k < |stack| ==> stack[k].level > tn.level) &&
      r.line == UnhandledLine(tn, top.level)
  {
  }

  /** `indent` of level 1 is four spaces. */
  lemma IndentExample()
    ensures Indent(1, "x") == "    x"
  {
  }

  /**
   * The handlers of a context are consulted only while it is active: in a
   * namespace context, an alias returns the namespace's line and pushes
   * its type context; a sibling alias then finds no handler there, pops
   * back to the namespace context and is reported as unhandled.
   */
  lemma AliasThenAlias(stack: seq<Frame>, tn: TreeNode)
    requires WellFormed(stack) && tn.node.tag == "alias"
    requires stack[|stack| - 1].conversion == NamespaceTable && stack[|stack| - 1].level == tn.level
    ensures var top := stack[|stack| - 1];
      var pushed := stack + [Frame(tn.level + 1, Some(tn), TypeTable, top.opening)];
      Step(stack, tn) == Stepped(top.opening, pushed) &&
      Step(pushed, tn) == Stepped(UnhandledLine(tn, tn.level), stack)
  {
    var top := stack[|stack| - 1];
    var pushed := stack + [Frame(tn.level + 1, Some(tn), TypeTable, top.opening)];
    assert "alias" != "type";
    assert pushed[..|pushed| - 1] == stack;
  }

  /** The repository and namespace handlers open a namespace context at level 2. */
  lemma OpenNamespace(n0: TreeNode, n1: TreeNode)
    requires n0.node.tag == "repository" && n1.node.tag == "namespace" && n0.level == 0 && n1.level == 1
    ensures var l0, l1 := HeadingLine(n0, 0), HeadingLine(n1, 1);
      WalkSpec([RootFrame], [n0, n1]) ==
        Walked([l0, l1], [RootFrame, Frame(1, Some(n0), RepositoryTable, l0), Frame(2, Some(n1), NamespaceTable, l1)])
  {
    var l0, l1 := HeadingLine(n0, 0), HeadingLine(n1, 1);
    var s1 := [RootFrame, Frame(1, Some(n0), RepositoryTable, l0)];
    assert Step([RootFrame], n0) == Stepped(l0, s1);
    assert Step(s1, n1) == Stepped(l1, s1 + [Frame(2, Some(n1), NamespaceTable, l1)]);
    WalkPair([RootFrame], n0, n1);
  }

  /**
   * A repository holding a namespace holding an alias with a type: two
   * headings, the namespace's line again for the alias, and an empty line
   * for the type, whose declaration goes to `outputs` instead; the walk
   * ends in the alias's type context.
   */
  lemma AliasDeclarationWalk(n0: TreeNode, n1: TreeNode, n2: TreeNode, n3: TreeNode)
    requires n0.node.tag == "repository" && n1.node.tag == "namespace" && n2.node.tag == "alias" && n3.node.tag == "type"
    requires n0.level == 0 && n1.level == 1 && n2.level == 2 && n3.level == 3
    ensures var l0, l1 := HeadingLine(n0, 0), HeadingLine(n1, 1);
      var w := Walk([n0, n1, n2, n3]);
      && w.lines == [l0, l1, l1, ""]
      && w.stack == [RootFrame, Frame(1, Some(n0), RepositoryTable, l0), Frame(2, Some(n1), NamespaceTable, l1),
                     Frame(3, Some(n2), TypeTable, l1)]
  {
    var l0, l1 := HeadingLine(n0, 0), HeadingLine(n1, 1);
    var s2 := [RootFrame, Frame(1, Some(n0), RepositoryTable, l0), Frame(2, Some(n1), NamespaceTable, l1)];
    OpenNamespace(n0, n1);
    AliasWithType(s2, n2, n3);
    WalkTwoMore([RootFrame], [n0, n1], n2, n3);
    assert [n0, n1] + [n2, n3] == [n0, n1, n2, n3];
  }

  /** The output of that walk: one text line per node, in order. */
  lemma AliasDeclarationOutput(n0: TreeNode, n1: TreeNode, n2: TreeNode, n3: TreeNode)
    requires n0.node.tag == "repository" && n1.node.tag == "namespace" && n2.node.tag == "alias" && n3.node.tag == "type"
    requires n0.level == 0 && n1.level == 1 && n2.level == 2 && n3.level == 3
    ensures var l0, l1 := HeadingLine(n0, 0), HeadingLine(n1, 1);
      Output(Walk([n0, n1, n2, n3]).lines) == l0 + "\n" + l1 + "\n" + l1 + "\n" + "\n"
  {
    var l0, l1 := HeadingLine(n0, 0), HeadingLine(n1, 1);
    AliasDeclarationWalk(n0, n1, n2, n3);
    OutputAppend([l0, l1], [l1, ""]);
    assert [l0, l1] + [l1, ""] == [l0, l1, l1, ""];
    OutputPair(l0, l1);
    OutputPair(l1, "");
    assert "" + "\n" == "\n";
  }

  /** Two lines are written as each followed by a line break. */
  lemma OutputPair(x: string, y: string)
    ensures Output([x, y]) == x + "\n" + y + "\n"
  {
    assert [x, y][..1] == [x] && [x][..0] == [];
    assert Output([x]) == x + "\n";
  }

  /** An alias at a namespace's level opens a type context; the type in it writes an empty line. */
  lemma AliasWithType(stack: seq<Frame>, alias: TreeNode, ty: TreeNode)
    requires WellFormed(stack) && alias.node.tag == "alias" && ty.node.tag == "type"
    requires stack[|stack| - 1].conversion == NamespaceTable && stack[|stack| - 1].level == alias.level
    requires ty.level == alias.level + 1
    ensures var top := stack[|stack| - 1];
      var pushed := stack + [Frame(alias.level + 1, Some(alias), TypeTable, top.opening)];
      Step(stack, alias) == Stepped(top.opening, pushed) && Step(pushed, ty) == Stepped("", pushed)
  {
    var top := stack[|stack| - 1];
    var pushed := stack + [Frame(alias.level + 1, Some(alias), TypeTable, top.opening)];
    AliasThenAlias(stack, alias);
    StepHandled(pushed, ty);
  }

  /** Walking two more nodes after a prefix is stepping each in turn from where the prefix ended. */
  lemma WalkTwoMore(stack: seq<Frame>, prefix: seq<TreeNode>, a: TreeNode, b: TreeNode)
    requires WellFormed(stack)
    ensures var w := WalkSpec(stack, prefix);
      var sa := Step(w.stack, a);
      var sb := Step(sa.stack, b);
      WalkSpec(stack, prefix + [a, b]) == Walked(w.lines + [sa.line, sb.line], sb.stack)
  {
    var nodes := prefix + [a, b];
    var n := |prefix|;
    assert nodes[..n] == prefix && nodes[n] == a && nodes[n + 1] == b && nodes[..n + 2] == nodes;
    WalkExtend(stack, nodes, n);
    WalkExtend(stack, nodes, n + 1);
  }

  /** Walking two nodes is stepping the first and then the second. */
  lemma WalkPair(stack: seq<Frame>, a: TreeNode, b: TreeNode)
    requires WellFormed(stack)
    ensures var s1 := Step(stack, a);
      var s2 := Step(s1.stack, b);
      WalkSpec(stack, [a, b]) == Walked([s1.line, s2.line], s2.stack)
  {
    var nodes := [a, b];
    assert nodes[..0] == [] && nodes[..2] == nodes;
    WalkExtend(stack, nodes, 0);
    WalkExtend(stack, nodes, 1);
  }

  /**
   * Of two sibling aliases in a namespace context, the first is handled
   * and returns the namespace's line, the second is unhandled; the walk is
   * back in the namespace context, so a third alias is handled again.
   */
  lemma SiblingAliases(stack: seq<Frame>, tn: TreeNode)
    requires WellFormed(stack) && tn.node.tag == "alias"
    requires stack[|stack| - 1].conversion == NamespaceTable && stack[|stack| - 1].level == tn.level
    ensures WalkSpec(stack, [tn, tn]) == Walked([stack[|stack| - 1].opening, UnhandledLine(tn, tn.level)], stack)
  {
    AliasThenAlias(stack, tn);
    WalkPair(stack, tn, tn);
  }

  // ---------------------------------------------------------------------
  // The context objects and the walk loop
  // ---------------------------------------------------------------------

  /** `ConversionContext`: one level of handlers; `outputs` is written by the type handler. */
  class ConversionContext {
    const level: nat
    const parent: ConversionContext?
    const parentNode: Option<TreeNode>
    const conversion: Table
    /** The line of the handler that pushed this context, which the handlers of its table capture. */
    const opening: string
    /** The number of contexts below this one. */
    ghost const depth: nat
    /** This context and the ones below it. */
    ghost const Repr: set<ConversionContext>
    var outputs: seq<string>

    /** The chain below this context ends in a root at level 0, each pushed one level below its node. */
    ghost predicate Valid()
      decreases depth
    {
      && (parent == null ==> level == 0 && parentNode.None? && depth == 0 && Repr == {this})
      && (parent != null ==> parentNode.Some? && level == parentNode.value.level + 1 &&
                             parent.depth < depth && Repr == {this} + parent.Repr && parent.Valid())
    }

    /** The contexts from the root up to this one, as frames. */
    ghost function Stack(): (r: seq<Frame>)
      requires Valid()
      ensures WellFormed(r)
      ensures r[|r| - 1] == Frame(level, parentNode, conversion, opening)
      ensures parent != null ==> r[..|r| - 1] == parent.Stack()
      ensures parent == null ==> |r| == 1
      decreases depth
    {
      if parent == null then [Frame(level, parentNode, conversion, opening)]
      else parent.Stack() + [Frame(level, parentNode, conversion, opening)]
    }

    /** `init(_:level:parent:parentNode:)`, with the captured line as a parameter. */
    constructor (conversion: Table, level: nat, parent: ConversionContext?, parentNode: Option<TreeNode>, opening: string)
      requires parent == null ==> level == 0 && parentNode.None?
      requires parent != null ==> parent.Valid() && parentNode.Some? && level == parentNode.value.level + 1
      ensures Valid()
      ensures this.level == level && this.parent == parent && this.parentNode == parentNode
      ensures this.conversion == conversion && this.opening == opening && outputs == []
    {
      this.level := level;
      this.parent := parent;
      this.parentNode := parentNode;
      this.conversion := conversion;
      this.opening := opening;
      this.depth := if parent == null then 0 else parent.depth + 1;
      this.Repr := if parent == null then {this} else {this} + parent.Repr;
      outputs := [];
    }

    /** `push(node:_:)`: a context one level below the node, on top of this one. */
    method Push(node: TreeNode, fs: Table, line: string) returns (c: ConversionContext)
      requires Valid()
      ensures fresh(c) && c.Valid()
      ensures c.level == node.level + 1 && c.parent == this && c.parentNode == Some(node)
      ensures c.conversion == fs && c.opening == line && c.outputs == []
      ensures c.Stack() == Stack() + [Frame(node.level + 1, Some(node), fs, line)]
    {
      c := new ConversionContext(fs, node.level + 1, this, Some(node), line);
    }
  }

  /** The `while` loop of `dumpSwift`: the context the walk pops back to for a node at `level`. */
  method PopContext(context: ConversionContext, level: nat) returns (c: ConversionContext)
    requires context.Valid()
    ensures c.Valid() && c.Stack() == PopTo(context.Stack(), level)
    ensures c.Repr <= context.Repr
  {
    c := context;
    while c.level > level
      invariant c.Valid() && PopTo(c.Stack(), level) == PopTo(context.Stack(), level)
      invariant c.Repr <= context.Repr
      decreases c.depth
    {
      c := c.parent;
    }
  }

  /**
   * The closure `dumpSwift` maps over one node: the handler of the active
   * context, or the pop and the "unhandled" line.
   */
  method Dispatch(context: ConversionContext, tn: TreeNode) returns (next: ConversionContext, line: string)
    requires context.Valid()
    modifies context
    ensures next.Valid() && Step(context.Stack(), tn) == Stepped(line, next.Stack())
    ensures fresh(next.Repr - context.Repr)
  {
    ghost var stack := context.Stack();
    ghost var top := Frame(context.level, context.parentNode, context.conversion, context.opening);
    assert stack[|stack| - 1] == top;
    if tn.node.tag in context.conversion {
      var h := context.conversion[tn.node.tag];
      match h.rule {
        case Heading => line := HeadingLine(tn, context.level);
        case Captured => line := context.opening;
        case FunctionHeader => line := FunctionLine(tn);
        case TypeAlias =>
          context.outputs := [AliasDeclaration(tn, context.parentNode)];
          line := "";
      }
      assert line == Render(h.rule, top, tn);
      next := context;
      if h.child.Some? {
        next := context.Push(tn, h.child.value, line);
      }
      StepHandled(stack, tn);
    } else {
      next := PopContext(context, tn.level);
      line := UnhandledLine(tn, next.level);
      StepUnhandled(stack, tn);
    }
  }

  /** The walk of `dumpSwift` from its outermost context. */
  function Walk(nodes: seq<TreeNode>): Walked {
    WalkSpec([RootFrame], nodes)
  }

  /** One iteration of the walk: the node's line is appended to the output, followed by a newline. */
  method Advance(context: ConversionContext, tree: seq<TreeNode>, i: nat, out: string)
    returns (next: ConversionContext, out': string)
    requires i < |tree| && context.Valid()
    requires context.Stack() == Walk(tree[..i]).stack && out == Output(Walk(tree[..i]).lines)
    modifies context
    ensures next.Valid() && next.Stack() == Walk(tree[..i + 1]).stack
    ensures out' == Output(Walk(tree[..i + 1]).lines)
    ensures fresh(next.Repr - context.Repr)
  {
    WalkExtend([RootFrame], tree, i);
    var line;
    next, line := Dispatch(context, tree[i]);
    out' := out + line + "\n";
  }

  /**
   * `dumpSwift`: one line per node of the flattened tree, in order, each
   * followed by a newline. The flattening is the XML library's; its
   * result is the parameter.
   */
  method DumpSwift(tree: seq<TreeNode>) returns (out: string)
    ensures out == Output(Walk(tree).lines)
  {
    var context: ConversionContext := new ConversionContext(RootTable, 0, null, None, "");
    out := "";
    for i := 0 to |tree|
      invariant context.Valid() && context.Stack() == Walk(tree[..i]).stack && fresh(context.Repr)
      invariant out == Output(Walk(tree[..i]).lines)
    {
      context, out := Advance(context, tree, i, out);
    }
    assert tree[..|tree|] == tree;
  }
}
