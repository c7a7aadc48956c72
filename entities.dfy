/**
 * The entity model of gir.swift: `Thing`, `Datatype`, `CType`, `Alias`,
 * `Constant`, `Enumeration`, `Record`, `Class`, `Method` and `Argument`,
 * each built from an XML element by the rules of its `init(node:atIndex:)`,
 * together with the helpers `GIR.documentation`, `GIR.args` and `GIR.types`.
 * The class hierarchy becomes composition: each entity holds its base part.
 */
module Entities {
  import opened Wrappers
  import opened Text
  import opened Xml

  // ---------------------------------------------------------------------
  // Data model
  // ---------------------------------------------------------------------

  datatype Thing = Thing(
    name: string,
    comment: string,
    introspectable: bool,
    deprecated: Option<string>,
    markedAsDeprecated: bool,
    version: Option<string>)

  /** A `Thing` with its exposed type name (`type` in the source). */
  datatype Datatype = Datatype(thing: Thing, typeName: string)

  /** A `Datatype` with its C type and, for arrays, its element types. */
  datatype CType = CType(base: Datatype, ctype: string, containedTypes: seq<CType>)

  /** A type alias is just a `CType`. */
  type Alias = CType

  datatype Constant = Constant(ct: CType, value: int)

  datatype Enumeration = Enumeration(base: Datatype, members: seq<Constant>)

  /** A bitfield is an enumeration. */
  type Bitfield = Enumeration

  /** `explicitVarargs` is the source's `_varargs`. */
  datatype Argument = Argument(ct: CType, instance: bool, explicitVarargs: bool)

  datatype Method = Method(thing: Thing, cname: string, returnValue: Argument, args: seq<Argument>, throwsError: bool)

  /** A function is the same as a method. */
  type Function = Method

  datatype Record = Record(
    ct: CType,
    cprefix: string,
    typegetter: string,
    methods: seq<Method>,
    functions: seq<Function>,
    constructors: seq<Method>)

  datatype Class = Class(rec: Record, parent: string)

  // ---------------------------------------------------------------------
  // Documentation
  // ---------------------------------------------------------------------

  function Contents(es: seq<Element>): (r: seq<string>)
    ensures |r| == |es| && forall k :: 0 <= k < |es| ==> r[k] == es[k].content
  {
    seq(|es|, k requires 0 <= k < |es| => es[k].content)
  }

  /** `GIR.documentation(name:children:)`: the contents of the children named `name`, one per line. */
  function Documentation(name: string, children: seq<Element>): string {
    Join(Contents(ChildrenNamed(children, name)), "\n")
  }

  /** `GIR.docs(children:)`. */
  function Docs(children: seq<Element>): string {
    Documentation("doc", children)
  }

  /** `GIR.deprecatedDocumentation(children:)`: nil when there is no such text. */
  function DeprecatedDocumentation(children: seq<Element>): (r: Option<string>)
    ensures r.None? <==> Documentation("doc-deprecated", children) == ""
    ensures r.Some? ==> r.value == Documentation("doc-deprecated", children)
  {
    var doc := Documentation("doc-deprecated", children);
    if doc == "" then None else Some(doc)
  }

  /** The documentation is empty exactly when there is no such child, or only one whose content is empty. */
  lemma DocumentationEmpty(name: string, children: seq<Element>)
    ensures Documentation(name, children) == "" <==>
      var docs := ChildrenNamed(children, name);
      docs == [] || (|docs| == 1 && docs[0].content == "")
  {
    JoinEmpty(Contents(ChildrenNamed(children, name)), "\n");
  }

  /** Documentation text splits back into the contents it was joined from. */
  lemma DocumentationLines(name: string, children: seq<Element>)
    requires forall d :: d in ChildrenNamed(children, name) ==> d.content != "" && '\n' !in d.content
    ensures Split(Documentation(name, children), '\n') == Contents(ChildrenNamed(children, name))
  {
    var docs := ChildrenNamed(children, name);
    var parts := Contents(docs);
    forall k | 0 <= k < |parts| ensures parts[k] != "" && '\n' !in parts[k] {
      assert docs[k] in docs && parts[k] == docs[k].content;
    }
    SplitJoin(parts, '\n');
  }

  // ---------------------------------------------------------------------
  // Thing and Datatype
  // ---------------------------------------------------------------------

  /** The name a nameless entity gets: "Unknown" followed by its index. */
  function UnknownName(i: int): string {
    "Unknown" + IntToString(i)
  }

  /** The deprecation text used when only the `deprecated` flag is set. */
  const DeprecatedNotice: string := "This method is deprecated."

  /** `Thing.init(node:atIndex:nameAttr:)`. */
  function MakeThing(e: Element, i: int, nameAttr: string): (t: Thing)
    ensures nameAttr in e.attrs ==> t.name == e.attrs[nameAttr]
    ensures nameAttr !in e.attrs ==> t.name == UnknownName(i)
    ensures t.markedAsDeprecated <==> Flag(e, "deprecated")
    ensures t.comment == Documentation("doc", e.children)
    ensures t.introspectable <==> "introspectable" in e.flags
    ensures t.deprecated.None? <==> Documentation("doc-deprecated", e.children) == "" && !Flag(e, "deprecated")
    ensures Documentation("doc-deprecated", e.children) != "" ==>
      t.deprecated == Some(Documentation("doc-deprecated", e.children))
    ensures Documentation("doc-deprecated", e.children) == "" && Flag(e, "deprecated") ==>
      t.deprecated == Some(DeprecatedNotice)
    ensures "version" in e.attrs ==> t.version == Some(e.attrs["version"])
    ensures "version" !in e.attrs ==> t.version.None?
  {
    var depr := Flag(e, "deprecated");
    Thing(
      Attr(e, nameAttr).GetOr(UnknownName(i)),
      Docs(e.children),
      Flag(e, "introspectable"),
      match DeprecatedDocumentation(e.children)
      case Some(d) => Some(d)
      case None => if depr then Some(DeprecatedNotice) else None,
      depr,
      Attr(e, "version"))
  }

  /** A synthesized name is never empty and carries the index, which parses back. */
  lemma UnknownNameCarriesIndex(e: Element, i: int, nameAttr: string)
    requires nameAttr !in e.attrs && InIntRange(i)
    ensures var n := MakeThing(e, i, nameAttr).name;
      |n| > 7 && HasPrefix(n, "Unknown") && ParseInt(n[7..]) == Some(i)
  {
    var n := MakeThing(e, i, nameAttr).name;
    assert n[7..] == IntToString(i);
    ParseIntOfIntToString(i);
  }

  /** The `Datatype.init(node:…)` that reads the type from `typeAttr` (default ""). */
  function MakeDatatype(e: Element, i: int, nameAttr: string, typeAttr: string): (d: Datatype)
    ensures d.thing == MakeThing(e, i, nameAttr)
    ensures typeAttr !in e.attrs ==> d.typeName == ""
    ensures typeAttr in e.attrs ==> d.typeName == e.attrs[typeAttr]
  {
    Datatype(MakeThing(e, i, nameAttr), Attr(e, typeAttr).GetOr(""))
  }

  /** `Datatype.isVoid`: the type name starts with "Void" or "void". */
  predicate IsVoidType(t: string) {
    HasPrefix(t, "Void") || HasPrefix(t, "void")
  }

  predicate IsVoid(d: Datatype) {
    IsVoidType(d.typeName)
  }

  // ---------------------------------------------------------------------
  // CType and its placeholders
  // ---------------------------------------------------------------------

  function UnknownCType(i: int): string { "Void /* unknown " + IntToString(i) + " */" }
  function UnknownTypeCType(i: int): string { "Void /* unknown type " + IntToString(i) + " */" }
  function UnknownArrayCType(i: int): string { "Void /* unknown ctype " + IntToString(i) + " */" }
  function UntypedArgument(i: int): string { "void /* untyped argument " + IntToString(i) + " */" }
  function MissingType(i: int): string { "Void /* missing type " + IntToString(i) + " */" }
  function MissingCType(i: int): string { "void /* missing C type " + IntToString(i) + " */" }

  /** Every placeholder names a void type, so code that tests `isVoid` treats unresolved data as void. */
  lemma PlaceholdersAreVoid(i: int)
    ensures IsVoidType(UnknownCType(i)) && IsVoidType(UnknownTypeCType(i)) && IsVoidType(UnknownArrayCType(i))
    ensures IsVoidType(UntypedArgument(i)) && IsVoidType(MissingType(i)) && IsVoidType(MissingCType(i))
  {
    assert UnknownCType(i)[..4] == "Void" && UnknownTypeCType(i)[..4] == "Void";
    assert UnknownArrayCType(i)[..4] == "Void" && UntypedArgument(i)[..4] == "void";
    assert MissingType(i)[..4] == "Void" && MissingCType(i)[..4] == "void";
  }

  /** The C type chosen by `CType.init(node:…)` when no `cTypeAttr` is given and the node is no array. */
  function FirstTypeChildCType(e: Element, i: int): string {
    match FirstNamed(e.children, "type")
    case Some(te) => Attr(te, "name").GetOr(Attr(te, "type").GetOr(UnknownTypeCType(i)))
    case None => UnknownTypeCType(i)
  }

  /**
   * `CType.init(node:atIndex:nameAttr:typeAttr:cTypeAttr:)`: the C type is
   * read from `cTypeAttr` if given, else from an array node's own `type`,
   * else from the first `type` child; the contained types are the `type`
   * children, each read with `cTypeAttr: "type"`.
   */
  function MakeCType(e: Element, i: int, nameAttr: string, typeAttr: string, cTypeAttr: Option<string>): (c: CType)
    ensures c.base == MakeDatatype(e, i, nameAttr, typeAttr)
    ensures cTypeAttr.Some? ==> c.ctype == Attr(e, cTypeAttr.value).GetOr(UnknownCType(i))
    ensures cTypeAttr.None? && e.tag == "array" ==> c.ctype == Attr(e, "type").GetOr(UnknownCType(i))
    ensures cTypeAttr.None? && e.tag != "array" ==> c.ctype == FirstTypeChildCType(e, i)
    ensures c.containedTypes == TypeChildCTypes(e.children, i)
    decreases e, 1
  {
    var ctype :=
      match cTypeAttr
      case Some(cta) => Attr(e, cta).GetOr(UnknownCType(i))
      case None =>
        if e.tag == "array" then Attr(e, "type").GetOr(UnknownCType(i)) else FirstTypeChildCType(e, i);
    CType(MakeDatatype(e, i, nameAttr, typeAttr), ctype, TypeChildCTypes(e.children, i))
  }

  /** The `type` children, in order, each read as a C type whose C type comes from its own `type` attribute. */
  function TypeChildCTypes(cs: seq<Element>, i: int): (r: seq<CType>)
    decreases cs, 0
  {
    if cs == [] then []
    else (if cs[0].tag == "type" then [MakeCType(cs[0], i, "name", "type", Some("type"))] else [])
         + TypeChildCTypes(cs[1..], i)
  }

  /** The contained types are the `type` children, one each, in document order. */
  lemma {:induction false} TypeChildCTypesInOrder(cs: seq<Element>, i: int)
    ensures var ts := ChildrenNamed(cs, "type");
      |TypeChildCTypes(cs, i)| == |ts| &&
      forall k :: 0 <= k < |ts| ==> TypeChildCTypes(cs, i)[k] == MakeCType(ts[k], i, "name", "type", Some("type"))
    decreases |cs|
  {
    if cs != [] {
      TypeChildCTypesInOrder(cs[1..], i);
    }
  }

  /** `CType.isArray`. */
  predicate IsArray(c: CType) {
    c.containedTypes != []
  }

  /** A `CType` read from a node is an array exactly when the node has `type` children. */
  lemma MakeCTypeIsArray(e: Element, i: int, nameAttr: string, typeAttr: string, cTypeAttr: Option<string>)
    ensures IsArray(MakeCType(e, i, nameAttr, typeAttr, cTypeAttr)) <==>
      exists k :: 0 <= k < |e.children| && e.children[k].tag == "type"
  {
    TypeChildCTypesInOrder(e.children, i);
    var ts := ChildrenNamed(e.children, "type");
    assert |MakeCType(e, i, nameAttr, typeAttr, cTypeAttr).containedTypes| == |ts|;
    if exists k :: 0 <= k < |e.children| && e.children[k].tag == "type" {
      var k :| 0 <= k < |e.children| && e.children[k].tag == "type";
      assert e.children[k] in e.children;
      assert e.children[k] in ts;
    } else if ts != [] {
      assert ts[0] in e.children && ts[0].tag == "type";
    }
  }

  // ---------------------------------------------------------------------
  // GIR.types: the type of an argument or return value
  // ---------------------------------------------------------------------

  /** The element a child of an argument contributes its C type from: itself if a `type`, else its first `type` child. */
  function TypeEntry(child: Element): Option<Element> {
    if child.tag == "type" then Some(child) else FirstNamed(child.children, "type")
  }

  /** The index of the first child that has a type entry. */
  function FirstTyped(cs: seq<Element>): (r: Option<nat>)
    ensures r.None? <==> forall k :: 0 <= k < |cs| ==> TypeEntry(cs[k]).None?
    ensures r.Some? ==> r.value < |cs| && TypeEntry(cs[r.value]).Some? &&
                        forall k :: 0 <= k < r.value ==> TypeEntry(cs[k]).None?
    decreases |cs|
  {
    if cs == [] then None
    else if TypeEntry(cs[0]).Some? then Some(0)
    else
      match FirstTyped(cs[1..])
      case None =>
        assert forall k :: 1 <= k < |cs| ==> cs[k] == cs[1..][k - 1];
        None
      case Some(k) =>
        assert forall j :: 1 <= j < |cs| ==> cs[j] == cs[1..][j - 1];
        Some(k + 1)
  }

  /** The type name a child gives: its `name`, else its `type`, else a placeholder. */
  function ChildTypeName(child: Element, i: int): string {
    Attr(child, "name").GetOr(Attr(child, "type").GetOr(UnknownTypeCType(i)))
  }

  /** The C type a type entry gives: its `type`, else its `name`, else a placeholder. */
  function EntryCType(t: Element, i: int): string {
    Attr(t, "type").GetOr(Attr(t, "name").GetOr(UntypedArgument(i)))
  }

  /**
   * What `GIR.types(node:at:)` returns: the type name and C type taken from
   * the first child that is a `type` or has one, or the "missing" pair.
   */
  function TypesOf(node: Element, i: int): (string, string) {
    match FirstTyped(node.children)
    case None => (MissingType(i), MissingCType(i))
    case Some(k) =>
      var child := node.children[k];
      (ChildTypeName(child, i), EntryCType(TypeEntry(child).value, i))
  }

  /** Without a child that is or holds a `type`, the result is the "missing" placeholder pair. */
  lemma TypesOfMissing(node: Element, i: int)
    requires forall k :: 0 <= k < |node.children| ==> TypeEntry(node.children[k]).None?
    ensures TypesOf(node, i) == (MissingType(i), MissingCType(i))
  {
  }

  /** Otherwise the first child that contributes a type entry decides both names. */
  lemma TypesOfFirst(node: Element, i: int, k: nat)
    requires k < |node.children| && TypeEntry(node.children[k]).Some?
    requires forall j :: 0 <= j < k ==> TypeEntry(node.children[j]).None?
    ensures TypesOf(node, i) == (ChildTypeName(node.children[k], i), EntryCType(TypeEntry(node.children[k]).value, i))
  {
    var f := FirstTyped(node.children);
    assert f.Some?;
    assert f.value == k;
  }

  /** `GIR.types(node:at:)`: scans the children and returns at the first one that yields a type. */
  method Types(node: Element, i: int) returns (typeName: string, ctype: string)
    ensures (typeName, ctype) == TypesOf(node, i)
  {
    var k := 0;
    while k < |node.children|
      invariant 0 <= k <= |node.children|
      invariant forall j :: 0 <= j < k ==> TypeEntry(node.children[j]).None?
    {
      var child := node.children[k];
      var typ := ChildTypeName(child, i);
      var t: Element;
      if child.tag == "type" {
        t := child;
      } else {
        var at := FirstNamed(child.children, "type");
        if at.None? {
          k := k + 1;
          continue;
        }
        t := at.value;
      }
      return typ, EntryCType(t, i);
    }
    return MissingType(i), MissingCType(i);
  }

  /**
   * `CType.init(fromChildrenOf:atIndex:nameAttr:typeAttr:)`: from the first
   * `array` child if there is one (its `type`, its `name` falling back to
   * that, and its `type` children as contained types), else from `GIR.types`.
   */
  function MakeCTypeFromChildren(e: Element, i: int, nameAttr: string): (c: CType)
    ensures c.base.thing == MakeThing(e, i, nameAttr)
    ensures FirstNamed(e.children, "array").None? ==>
      c.containedTypes == [] && (c.base.typeName, c.ctype) == TypesOf(e, i)
    ensures FirstNamed(e.children, "array").Some? ==>
      var a := FirstNamed(e.children, "array").value;
      c.ctype == Attr(a, "type").GetOr(UnknownArrayCType(i)) &&
      c.base.typeName == Attr(a, "name").GetOr(c.ctype) &&
      c.containedTypes == TypeChildCTypes(a.children, i)
  {
    match FirstNamed(e.children, "array")
    case Some(a) =>
      var ctype := Attr(a, "type").GetOr(UnknownArrayCType(i));
      var typ := Attr(a, "name").GetOr(ctype);
      CType(Datatype(MakeThing(e, i, nameAttr), typ), ctype, TypeChildCTypes(a.children, i))
    case None =>
      var (typ, ctype) := TypesOf(e, i);
      CType(Datatype(MakeThing(e, i, nameAttr), typ), ctype, [])
  }

  // ---------------------------------------------------------------------
  // Alias, Constant, Enumeration
  // ---------------------------------------------------------------------

  /** `Alias(node:atIndex:)`, the inherited `CType.init(node:…)` with defaults. */
  function MakeAlias(e: Element, i: int): (a: Alias)
    ensures a == MakeCType(e, i, "name", "type", None)
  {
    MakeCType(e, i, "name", "type", None)
  }

  /** `Constant.init(node:atIndex:…)`: the parsed `value`, or the index when it does not parse. */
  function MakeConstant(e: Element, i: int, cTypeAttr: Option<string>): (c: Constant)
    ensures c.ct == MakeCType(e, i, "name", "type", cTypeAttr)
  {
    var value :=
      match Attr(e, "value")
      case Some(v) => ParseInt(v).GetOr(i)
      case None => i;
    Constant(MakeCType(e, i, "name", "type", cTypeAttr), value)
  }

  /** `Constant.value`: a parsable `value` attribute gives its number; anything else gives the index. */
  lemma ConstantValue(e: Element, i: int, cTypeAttr: Option<string>)
    ensures "value" in e.attrs && ParseInt(e.attrs["value"]).Some? ==>
      MakeConstant(e, i, cTypeAttr).value == ParseInt(e.attrs["value"]).value
    ensures ("value" !in e.attrs || ParseInt(e.attrs["value"]).None?) ==>
      MakeConstant(e, i, cTypeAttr).value == i
    ensures forall v :: InIntRange(v) && Attr(e, "value") == Some(IntToString(v)) ==>
      MakeConstant(e, i, cTypeAttr).value == v
  {
    forall v | InIntRange(v) && Attr(e, "value") == Some(IntToString(v))
      ensures MakeConstant(e, i, cTypeAttr).value == v
    {
      ParseIntOfIntToString(v);
    }
  }

  /** `Enumeration.init(node:atIndex:)`: one constant per `member` child, indexed among the members. */
  function MakeEnumeration(e: Element, i: int): (en: Enumeration)
    ensures en.base == MakeDatatype(e, i, "name", "type")
    ensures var mem := ChildrenNamed(e.children, "member");
      |en.members| == |mem| &&
      forall k :: 0 <= k < |mem| ==> en.members[k] == MakeConstant(mem[k], k, Some("identifier"))
  {
    var mem := ChildrenNamed(e.children, "member");
    Enumeration(
      MakeDatatype(e, i, "name", "type"),
      seq(|mem|, k requires 0 <= k < |mem| => MakeConstant(mem[k], k, Some("identifier"))))
  }

  /** Each member's C type is its `identifier`, and a member without a parsable value is numbered by its position. */
  lemma EnumerationMembers(e: Element, i: int, k: nat)
    requires k < |ChildrenNamed(e.children, "member")|
    ensures var m := ChildrenNamed(e.children, "member")[k];
      var c := MakeEnumeration(e, i).members[k];
      c.ct.ctype == Attr(m, "identifier").GetOr(UnknownCType(k)) &&
      c.ct.base.thing.name == Attr(m, "name").GetOr(UnknownName(k)) &&
      (Attr(m, "value").None? ==> c.value == k)
  {
  }

  // ---------------------------------------------------------------------
  // Arguments and methods
  // ---------------------------------------------------------------------

  /** `Argument.init(node:atIndex:)`. */
  function MakeArgument(e: Element, i: int): (a: Argument)
    ensures a.ct == MakeCTypeFromChildren(e, i, "name")
    ensures a.instance <==> HasPrefix(e.tag, "instance")
    ensures a.explicitVarargs <==> exists k :: 0 <= k < |e.children| && e.children[k].tag == "varargs"
  {
    Argument(MakeCTypeFromChildren(e, i, "name"), HasPrefix(e.tag, "instance"), FirstNamed(e.children, "varargs").Some?)
  }

  /** `Argument.varargs`. */
  predicate ArgIsVarargs(a: Argument) {
    a.explicitVarargs || HasPrefix(a.ct.base.thing.name, "...")
  }

  /** An argument read from XML is varargs iff it has a `varargs` child or its name starts with "...". */
  lemma ArgumentVarargs(e: Element, i: int)
    ensures ArgIsVarargs(MakeArgument(e, i)) <==>
      (exists k :: 0 <= k < |e.children| && e.children[k].tag == "varargs") ||
      ("name" in e.attrs && HasPrefix(e.attrs["name"], "..."))
  {
    if "name" !in e.attrs {
      assert UnknownName(i)[0] == 'U';
    }
  }

  /** The array case of an argument: its element types are the array's `type` children, in order. */
  lemma ArrayArgument(e: Element, i: int)
    requires FirstNamed(e.children, "array").Some?
    ensures var a := FirstNamed(e.children, "array").value;
      var ts := ChildrenNamed(a.children, "type");
      var c := MakeArgument(e, i).ct;
      |c.containedTypes| == |ts| &&
      (forall k :: 0 <= k < |ts| ==> c.containedTypes[k] == MakeCType(ts[k], i, "name", "type", Some("type"))) &&
      (IsArray(c) <==> ts != [])
  {
    TypeChildCTypesInOrder(FirstNamed(e.children, "array").value.children, i);
  }

  /** The children `GIR.args` reads: those whose tag ends in "parameter". */
  function Parameters(cs: seq<Element>): (r: seq<Element>)
    ensures |r| <= |cs|
    ensures forall k :: 0 <= k < |r| ==> HasSuffix(r[k].tag, "parameter") && r[k] in cs
    ensures forall c :: c in cs && HasSuffix(c.tag, "parameter") ==> c in r
    decreases |cs|
  {
    if cs == [] then []
    else (if HasSuffix(cs[0].tag, "parameter") then [cs[0]] else []) + Parameters(cs[1..])
  }

  /** `Parameters` keeps one child iff its tag ends in "parameter"; with `ParametersAppend`, exactly those, in order. */
  lemma ParametersUnit(c: Element)
    ensures Parameters([]) == []
    ensures Parameters([c]) == if HasSuffix(c.tag, "parameter") then [c] else []
  {
    assert [c][1..] == [];
  }

  /** Filtering a concatenation is filtering each part. */
  lemma {:induction false} ParametersAppend(a: seq<Element>, b: seq<Element>)
    ensures Parameters(a + b) == Parameters(a) + Parameters(b)
    decreases |a|
  {
    if a == [] {
      assert a + b == b;
    } else {
      assert (a + b)[0] == a[0] && (a + b)[1..] == a[1..] + b;
      ParametersAppend(a[1..], b);
    }
  }

  /** The parameter children of `cs`, each built by `make` with its running index from `start`. */
  function ArgsFrom<T>(cs: seq<Element>, start: int, make: (Element, int) -> T): seq<T>
    decreases |cs|
  {
    if cs == [] then []
    else if HasSuffix(cs[0].tag, "parameter") then [make(cs[0], start)] + ArgsFrom(cs[1..], start + 1, make)
    else ArgsFrom(cs[1..], start, make)
  }

  /** `GIR.args(children:)`: the parameter children, enumerated from 0. */
  function Args(cs: seq<Element>): seq<Argument> {
    ArgsFrom(cs, 0, MakeArgument)
  }

  lemma {:induction false} ArgsFromSpec<T>(cs: seq<Element>, start: int, make: (Element, int) -> T)
    ensures var ps := Parameters(cs);
      |ArgsFrom(cs, start, make)| == |ps| &&
      forall k :: 0 <= k < |ps| ==> ArgsFrom(cs, start, make)[k] == make(ps[k], start + k)
    decreases |cs|
  {
    if cs != [] {
      var ps, rest := Parameters(cs), Parameters(cs[1..]);
      if HasSuffix(cs[0].tag, "parameter") {
        ArgsFromSpec(cs[1..], start + 1, make);
        var a, tail := ArgsFrom(cs, start, make), ArgsFrom(cs[1..], start + 1, make);
        assert ps == [cs[0]] + rest;
        assert a == [make(cs[0], start)] + tail;
        forall k | 0 <= k < |ps| ensures a[k] == make(ps[k], start + k) {
          if k > 0 {
            assert ps[k] == rest[k - 1] && a[k] == tail[k - 1];
            assert start + k == (start + 1) + (k - 1);
          }
        }
      } else {
        ArgsFromSpec(cs[1..], start, make);
        assert ps == rest && ArgsFrom(cs, start, make) == ArgsFrom(cs[1..], start, make);
      }
    }
  }

  /** `args` keeps exactly the children whose tag ends in "parameter", in order, the k-th built with index k. */
  lemma ArgsAreParameters(cs: seq<Element>)
    ensures var ps := Parameters(cs);
      |Args(cs)| == |ps| && forall k :: 0 <= k < |ps| ==> Args(cs)[k] == MakeArgument(ps[k], k)
  {
    ArgsFromSpec(cs, 0, MakeArgument);
    var ps, a := Parameters(cs), Args(cs);
    forall k | 0 <= k < |ps| ensures a[k] == MakeArgument(ps[k], k) {
      assert 0 + k == k;
    }
  }

  /** The return value of a method without a `return-value` child. */
  const DefaultReturn: Argument :=
    Argument(CType(Datatype(Thing("", "", false, None, false, None), "Void"), "void", []), false, false)

  /**
   * The default return value is void by the `Datatype`-level test on its
   * type name "Void" (the `CType` override of `isVoid` is not part of this
   * model), is no varargs argument and no instance.
   */
  lemma DefaultReturnIsVoid()
    ensures IsVoid(DefaultReturn.ct.base) && !ArgIsVarargs(DefaultReturn) && !DefaultReturn.instance
  {
  }

  /** `Method.init(node:atIndex:)`. */
  function MakeMethod(e: Element, i: int): (m: Method)
    ensures m.thing == MakeThing(e, i, "name")
    ensures "identifier" in e.attrs ==> m.cname == e.attrs["identifier"]
    ensures "identifier" !in e.attrs ==> m.cname == ""
    ensures m.throwsError <==> "throws" in e.attrs && ParseInt(e.attrs["throws"]).Some? && ParseInt(e.attrs["throws"]).value != 0
    ensures FirstNamed(e.children, "return-value").None? ==> m.returnValue == DefaultReturn
    ensures FirstNamed(e.children, "return-value").Some? ==> m.returnValue == MakeArgument(FirstNamed(e.children, "return-value").value, -1)
    ensures FirstNamed(e.children, "parameters").Some? ==> m.args == Args(FirstNamed(e.children, "parameters").value.children)
    ensures FirstNamed(e.children, "parameters").None? ==> m.args == Args(e.children)
  {
    var thr := Attr(e, "throws").GetOr("0");
    var returnValue :=
      match FirstNamed(e.children, "return-value")
      case Some(ret) => MakeArgument(ret, -1)
      case None => DefaultReturn;
    var args :=
      match FirstNamed(e.children, "parameters")
      case Some(params) => Args(params.children)
      case None => Args(e.children);
    Method(MakeThing(e, i, "name"), Attr(e, "identifier").GetOr(""), returnValue, args, ParseInt(thr).GetOr(0) != 0)
  }

  /** `throws="1"` gives a throwing method; `throws="0"` or no attribute does not. */
  lemma ThrowsExamples(e: Element, i: int)
    ensures Attr(e, "throws") == Some("1") ==> MakeMethod(e, i).throwsError
    ensures Attr(e, "throws") == Some("0") ==> !MakeMethod(e, i).throwsError
    ensures Attr(e, "throws").None? ==> !MakeMethod(e, i).throwsError
  {
    ParseIntOfIntToString(1);
    ParseIntOfIntToString(0);
  }

  /** Some argument is a varargs argument. */
  predicate AnyVarargs(args: seq<Argument>)
    decreases |args|
  {
    args != [] && (ArgIsVarargs(args[0]) || AnyVarargs(args[1..]))
  }

  /** `Method.varargs`. */
  predicate MethodIsVarargs(m: Method) {
    AnyVarargs(m.args)
  }

  /** A method is varargs iff one of its arguments is. */
  lemma {:induction false} AnyVarargsExists(args: seq<Argument>)
    ensures AnyVarargs(args) <==> exists k :: 0 <= k < |args| && ArgIsVarargs(args[k])
    decreases |args|
  {
    if args != [] {
      AnyVarargsExists(args[1..]);
      assert forall k :: 1 <= k < |args| ==> args[k] == args[1..][k - 1];
      if exists k :: 0 <= k < |args| && ArgIsVarargs(args[k]) {
        var k :| 0 <= k < |args| && ArgIsVarargs(args[k]);
        if k > 0 { assert ArgIsVarargs(args[1..][k - 1]); }
      }
    }
  }

  // ---------------------------------------------------------------------
  // Records and classes
  // ---------------------------------------------------------------------

  /** The methods built from some children, each indexed by its position among them. */
  function MethodsAt(es: seq<Element>): (r: seq<Method>)
    ensures |r| == |es| && forall k :: 0 <= k < |es| ==> r[k] == MakeMethod(es[k], k)
  {
    seq(|es|, k requires 0 <= k < |es| => MakeMethod(es[k], k))
  }

  /** `Record.init(node:atIndex:)`: type from `type-name`, C type from `type`. */
  function MakeRecord(e: Element, i: int): (r: Record)
    ensures r.ct == MakeCType(e, i, "name", "type-name", Some("type"))
    ensures r.cprefix == Attr(e, "symbol-prefix").GetOr("") && r.typegetter == Attr(e, "get-type").GetOr("")
    ensures r.functions == MethodsAt(ChildrenNamed(e.children, "function"))
    ensures r.methods == MethodsAt(ChildrenNamed(e.children, "method"))
    ensures r.constructors == MethodsAt(ChildrenNamed(e.children, "constructor"))
  {
    Record(
      MakeCType(e, i, "name", "type-name", Some("type")),
      Attr(e, "symbol-prefix").GetOr(""),
      Attr(e, "get-type").GetOr(""),
      MethodsAt(ChildrenNamed(e.children, "method")),
      MethodsAt(ChildrenNamed(e.children, "function")),
      MethodsAt(ChildrenNamed(e.children, "constructor")))
  }

  /** `Class.init(node:atIndex:)`: a record plus the parent's name ("" without one). */
  function MakeClass(e: Element, i: int): (c: Class)
    ensures c.rec == MakeRecord(e, i)
    ensures c.parent == Attr(e, "parent").GetOr("")
  {
    Class(MakeRecord(e, i), Attr(e, "parent").GetOr(""))
  }
}
