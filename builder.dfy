/**
 * The model builder of gir.swift: `GIR.init(xmlDocument:)` and its fallible
 * convenience constructors. It reads the namespace prefixes, then builds
 * the aliases, constants, enumerations, records and classes of the
 * document in that order, each category passed through the registry's
 * first-registration-wins filter.
 */
module Builder {
  import opened Wrappers
  import opened Text
  import opened Names
  import opened Xml
  import opened Entities
  import opened Registry

  /** A parsed GIR document: its root element, normally `repository`. */
  datatype Document = Document(root: Element)

  // ---------------------------------------------------------------------
  // The two XPath shapes GIR.init uses
  // ---------------------------------------------------------------------

  /** `//tag` taken first: the first element named `tag` in document order, the root included. */
  function FirstDescendant(e: Element, tag: string): (r: Option<Element>)
    ensures r.Some? ==> r.value.tag == tag
    ensures e.tag == tag ==> r == Some(e)
    decreases e, 1
  {
    if e.tag == tag then Some(e) else FirstInForest(e.children, tag)
  }

  /** The first element named `tag` in a sequence of trees, in document order. */
  function FirstInForest(cs: seq<Element>, tag: string): (r: Option<Element>)
    ensures r.Some? ==> r.value.tag == tag
    ensures r.None? <==> forall k :: 0 <= k < |cs| ==> FirstDescendant(cs[k], tag).None?
    decreases cs, 0
  {
    if cs == [] then None
    else
      match FirstDescendant(cs[0], tag)
      case Some(x) => Some(x)
      case None =>
        var r := FirstInForest(cs[1..], tag);
        assert forall k :: 1 <= k < |cs| ==> cs[k] == cs[1..][k - 1];
        r
  }

  /** Every element of a tree in document order: the root, then each child's tree in turn. */
  function Preorder(e: Element): (r: seq<Element>)
    ensures |r| >= 1 && r[0] == e
    decreases e, 1
  {
    [e] + PreorderForest(e.children)
  }

  /** The document-order elements of a sequence of trees, one tree after another. */
  function PreorderForest(cs: seq<Element>): seq<Element>
    decreases cs, 0
  {
    if cs == [] then [] else Preorder(cs[0]) + PreorderForest(cs[1..])
  }

  /** The first descendant named `tag` is the first element named `tag` in document order. */
  lemma {:induction false} FirstDescendantInPreorder(e: Element, tag: string)
    ensures FirstDescendant(e, tag) == FirstNamed(Preorder(e), tag)
    decreases e, 1
  {
    var rest := PreorderForest(e.children);
    assert Preorder(e)[1..] == rest;
    if e.tag != tag {
      FirstInForestInPreorder(e.children, tag);
    }
  }

  /** The same for a sequence of trees. */
  lemma {:induction false} FirstInForestInPreorder(cs: seq<Element>, tag: string)
    ensures FirstInForest(cs, tag) == FirstNamed(PreorderForest(cs), tag)
    decreases cs, 0
  {
    if cs != [] {
      FirstDescendantInPreorder(cs[0], tag);
      FirstInForestInPreorder(cs[1..], tag);
      FirstNamedAppend(Preorder(cs[0]), PreorderForest(cs[1..]), tag);
    }
  }

  /** The query for `tag` under two levels of wildcards: the grandchildren of the root named `tag`, in document order. */
  function Grandchildren(cs: seq<Element>, tag: string): seq<Element>
    decreases |cs|
  {
    if cs == [] then []
    else ChildrenNamed(cs[0].children, tag) + Grandchildren(cs[1..], tag)
  }

  /** The query finds the grandchildren named `tag`, and only elements named `tag`. */
  lemma {:induction false} GrandchildrenMatch(cs: seq<Element>, tag: string)
    ensures forall k :: 0 <= k < |Grandchildren(cs, tag)| ==> Grandchildren(cs, tag)[k].tag == tag
    ensures forall c, x :: c in cs && x in c.children && x.tag == tag ==> x in Grandchildren(cs, tag)
    decreases |cs|
  {
    if cs != [] {
      GrandchildrenMatch(cs[1..], tag);
      var h: seq<Element>, r: seq<Element> := ChildrenNamed(cs[0].children, tag), Grandchildren(cs[1..], tag);
      assert Grandchildren(cs, tag) == h + r;
      forall k | 0 <= k < |h + r| ensures (h + r)[k].tag == tag {
        if k >= |h| {
          assert (h + r)[k] == r[k - |h|];
          assert r[k - |h|].tag == tag;
        } else {
          assert (h + r)[k] == h[k];
          assert h[k].tag == tag;
        }
      }
      forall c, x | c in cs && x in c.children && x.tag == tag ensures x in h + r {
        if c != cs[0] {
          assert c in cs[1..];
        }
      }
    }
  }

  /** One tree contributes its children named `tag`. */
  lemma GrandchildrenUnit(c: Element, tag: string)
    ensures Grandchildren([], tag) == []
    ensures Grandchildren([c], tag) == ChildrenNamed(c.children, tag)
  {
    assert [c][1..] == [];
  }

  /** The query over a concatenation is the query over each part, in order. */
  lemma {:induction false} GrandchildrenAppend(a: seq<Element>, b: seq<Element>, tag: string)
    ensures Grandchildren(a + b, tag) == Grandchildren(a, tag) + Grandchildren(b, tag)
    decreases |a|
  {
    if a == [] {
      assert a + b == b;
    } else {
      assert (a + b)[0] == a[0] && (a + b)[1..] == a[1..] + b;
      GrandchildrenAppend(a[1..], b, tag);
    }
  }

  /** Everything the query finds is a child of one of the trees. */
  lemma {:induction false} GrandchildrenAreGrandchildren(cs: seq<Element>, tag: string)
    ensures forall x :: x in Grandchildren(cs, tag) ==> exists c :: c in cs && x in c.children
    decreases |cs|
  {
    if cs != [] {
      GrandchildrenAreGrandchildren(cs[1..], tag);
      var h, r := ChildrenNamed(cs[0].children, tag), Grandchildren(cs[1..], tag);
      assert Grandchildren(cs, tag) == h + r;
      forall x | x in h + r ensures exists c :: c in cs && x in c.children {
        if x in h {
          assert cs[0] in cs && x in cs[0].children;
        } else {
          var c :| c in cs[1..] && x in c.children;
          assert c in cs;
        }
      }
    }
  }

  function Query(d: Document, tag: string): seq<Element> {
    Grandchildren(d.root.children, tag)
  }

  // ---------------------------------------------------------------------
  // The entities of each category, indexed by query position
  // ---------------------------------------------------------------------

  function Aliases(es: seq<Element>): seq<Alias>
  {
    seq(|es|, k requires 0 <= k < |es| => MakeAlias(es[k], k))
  }

  function Constants(es: seq<Element>): seq<Constant>
  {
    seq(|es|, k requires 0 <= k < |es| => MakeConstant(es[k], k, None))
  }

  function Enumerations(es: seq<Element>): seq<Enumeration>
  {
    seq(|es|, k requires 0 <= k < |es| => MakeEnumeration(es[k], k))
  }

  function Records(es: seq<Element>): seq<Record>
  {
    seq(|es|, k requires 0 <= k < |es| => MakeRecord(es[k], k))
  }

  function Classes(es: seq<Element>): seq<Class>
  {
    seq(|es|, k requires 0 <= k < |es| => MakeClass(es[k], k))
  }

  /** The candidates of each category before filtering, as registry entities. */
  function AliasInputs(d: Document): seq<Entity> { Wrap(Aliases(Query(d, "alias")), AsAlias) }
  function ConstantInputs(d: Document): seq<Entity> { Wrap(Constants(Query(d, "constant")), AsConstant) }
  function EnumerationInputs(d: Document): seq<Entity> { Wrap(Enumerations(Query(d, "enumeration")), AsEnumeration) }
  function RecordInputs(d: Document): seq<Entity> { Wrap(Records(Query(d, "record")), AsRecord) }
  function ClassInputs(d: Document): seq<Entity> { Wrap(Classes(Query(d, "class")), AsClass) }

  function AllInputs(d: Document): seq<Entity> {
    AliasInputs(d) + ConstantInputs(d) + EnumerationInputs(d) + RecordInputs(d) + ClassInputs(d)
  }

  // ---------------------------------------------------------------------
  // The namespace prefixes
  // ---------------------------------------------------------------------

  /** `prefix`: the first namespace's `name`, "" without either. */
  function Prefix(d: Document): string {
    match FirstDescendant(d.root, "namespace")
    case None => ""
    case Some(ns) => Attr(ns, "name").GetOr("")
  }

  /** `identifierPrefixes` and `symbolPrefixes`: the first namespace's sorted sub-attributes. */
  function NamespacePrefixes(d: Document, attr: string): seq<string> {
    match FirstDescendant(d.root, "namespace")
    case None => []
    case Some(ns) => SortedSubAttributes(ns, attr)
  }

  /** The prefixes are non-empty, comma-free, ordered longest first, and absent without a namespace. */
  lemma NamespacePrefixesSorted(d: Document, attr: string)
    ensures var r := NamespacePrefixes(d, attr);
      && (forall k :: 0 <= k < |r| ==> r[k] != "" && ',' !in r[k])
      && (FirstDescendant(d.root, "namespace").None? ==> r == [])
      && SortedLongestFirst(r)
  {
  }

  // ---------------------------------------------------------------------
  // The five filters in sequence
  // ---------------------------------------------------------------------

  /** What one run of `GIR.init` produces: the kept entities per category, the registry after it, the warnings. */
  datatype Built = Built(
    aliases: seq<Entity>,
    constants: seq<Entity>,
    enumerations: seq<Entity>,
    records: seq<Entity>,
    classes: seq<Entity>,
    types: map<string, Entity>,
    knownRecords: map<string, Entity>,
    warnings: seq<string>)
  {
    function Kept(): seq<Entity> {
      aliases + constants + enumerations + records + classes
    }
  }

  /** Five groups of candidates filtered in turn, each against the registry the previous one left. */
  function Stages(types: map<string, Entity>, records: map<string, Entity>,
                  e1: seq<Entity>, e2: seq<Entity>, e3: seq<Entity>, e4: seq<Entity>, e5: seq<Entity>): Built
  {
    var a := Admit(types, records, e1);
    var c := Admit(a.types, a.records, e2);
    var n := Admit(c.types, c.records, e3);
    var r := Admit(n.types, n.records, e4);
    var k := Admit(r.types, r.records, e5);
    Built(a.kept, c.kept, n.kept, r.kept, k.kept, k.types, k.records,
          a.warnings + c.warnings + n.warnings + r.warnings + k.warnings)
  }

  /** `GIR.init`: aliases, constants, enumerations, records and classes, in that order. */
  function Build(d: Document, types: map<string, Entity>, records: map<string, Entity>): Built {
    Stages(types, records, AliasInputs(d), ConstantInputs(d), EnumerationInputs(d), RecordInputs(d), ClassInputs(d))
  }

  /** No two kept entities share a key, and none has a key from `known`. */
  ghost predicate Fresh(es: seq<Entity>, known: set<string>) {
    && (forall i :: 0 <= i < |es| ==> es[i].key !in known)
    && (forall i, j :: 0 <= i < j < |es| ==> es[i].key != es[j].key)
  }

  lemma FreshAppend(x: seq<Entity>, y: seq<Entity>, known: set<string>)
    requires Fresh(x, known) && Fresh(y, known + KeysOf(x))
    ensures Fresh(x + y, known)
    ensures KeysOf(x + y) == KeysOf(x) + KeysOf(y)
  {
    var xy := x + y;
    forall i, j | 0 <= i < j < |xy| ensures xy[i].key != xy[j].key {
      if i < |x| && j >= |x| {
        assert xy[i] in x;
        assert xy[j] == y[j - |x|];
      }
    }
    forall e | e in xy ensures e in x || e in y { }
  }

  /** One filter step keeps fresh entities and grows the key set by exactly theirs. */
  lemma AdmitStep(types: map<string, Entity>, records: map<string, Entity>, es: seq<Entity>)
    ensures var r := Admit(types, records, es);
      && Fresh(r.kept, types.Keys)
      && r.types.Keys == types.Keys + KeysOf(r.kept)
      && r.records.Keys == records.Keys + RecordKeysOf(r.kept)
      && |r.kept| + |r.warnings| == |es|
      && (forall k :: k in types ==> k in r.types && r.types[k] == types[k])
      && (forall j :: 0 <= j < |r.kept| ==> r.kept[j].key in r.types && r.types[r.kept[j].key] == r.kept[j])
  {
    AdmitKeptUnique(types, records, es);
    AdmitKeysKept(types, records, es);
    AdmitPreserves(types, records, es);
  }

  /**
   * `types` extends `t0` by exactly the entities `x`, whose keys are
   * distinct and new to `t0`, each registered under its key.
   */
  ghost predicate Covers(t0: map<string, Entity>, types: map<string, Entity>, x: seq<Entity>) {
    && Fresh(x, t0.Keys)
    && types.Keys == t0.Keys + KeysOf(x)
    && (forall k :: k in t0 ==> k in types && types[k] == t0[k])
    && (forall j :: 0 <= j < |x| ==> types[x[j].key] == x[j])
  }

  /** One more filter step extends the covered entities by the ones it keeps. */
  lemma ChainStep(t0: map<string, Entity>, t1: map<string, Entity>, records: map<string, Entity>,
                  x: seq<Entity>, es: seq<Entity>)
    requires Covers(t0, t1, x)
    ensures var r := Admit(t1, records, es); Covers(t0, r.types, x + r.kept)
  {
    var r := Admit(t1, records, es);
    AdmitStep(t1, records, es);
    FreshAppend(x, r.kept, t0.Keys);
    var xy := x + r.kept;
    forall j | 0 <= j < |xy| ensures r.types[xy[j].key] == xy[j] {
      if j >= |x| {
        assert xy[j] == r.kept[j - |x|];
      } else {
        assert xy[j] == x[j];
      }
    }
  }

  /**
   * Across all five categories the kept entities have pairwise distinct
   * keys new to the registry: an entity is dropped when any earlier one,
   * of its own category or an earlier category, took its key. Every kept
   * entity is what its key maps to afterwards, and no old entry changes.
   */
  lemma StagesKeysDistinct(types: map<string, Entity>, records: map<string, Entity>,
      e1: seq<Entity>, e2: seq<Entity>, e3: seq<Entity>, e4: seq<Entity>, e5: seq<Entity>)
    ensures var b := Stages(types, records, e1, e2, e3, e4, e5);
      && Fresh(b.Kept(), types.Keys)
      && b.types.Keys == types.Keys + KeysOf(b.Kept())
      && (forall k :: k in types ==> k in b.types && b.types[k] == types[k])
      && (forall j :: 0 <= j < |b.Kept()| ==> b.types[b.Kept()[j].key] == b.Kept()[j])
  {
    var a := Admit(types, records, e1);
    var c := Admit(a.types, a.records, e2);
    var n := Admit(c.types, c.records, e3);
    var r := Admit(n.types, n.records, e4);
    ChainStep(types, types, records, [], e1);
    assert [] + a.kept == a.kept;
    ChainStep(types, a.types, a.records, a.kept, e2);
    ChainStep(types, c.types, c.records, a.kept + c.kept, e3);
    ChainStep(types, n.types, n.records, a.kept + c.kept + n.kept, e4);
    ChainStep(types, r.types, r.records, a.kept + c.kept + n.kept + r.kept, e5);
  }

  /** Each candidate is either kept or warned about. */
  lemma StagesCount(types: map<string, Entity>, records: map<string, Entity>,
      e1: seq<Entity>, e2: seq<Entity>, e3: seq<Entity>, e4: seq<Entity>, e5: seq<Entity>)
    ensures var b := Stages(types, records, e1, e2, e3, e4, e5);
      |b.Kept()| + |b.warnings| == |e1| + |e2| + |e3| + |e4| + |e5|
  {
    var a := Admit(types, records, e1);
    var c := Admit(a.types, a.records, e2);
    var n := Admit(c.types, c.records, e3);
    var r := Admit(n.types, n.records, e4);
    AdmitStep(types, records, e1);
    AdmitStep(a.types, a.records, e2);
    AdmitStep(c.types, c.records, e3);
    AdmitStep(n.types, n.records, e4);
    AdmitStep(r.types, r.records, e5);
  }

  /** `KnownRecords` gains exactly the kept records and classes. */
  lemma StagesAccounts(types: map<string, Entity>, records: map<string, Entity>,
      e1: seq<Entity>, e2: seq<Entity>, e3: seq<Entity>, e4: seq<Entity>, e5: seq<Entity>)
    requires forall x :: x in e1 + e2 + e3 ==> !x.entry.IsRecordLike()
    ensures var b := Stages(types, records, e1, e2, e3, e4, e5);
      b.knownRecords.Keys == records.Keys + RecordKeysOf(b.records + b.classes)
  {
    var a := Admit(types, records, e1);
    var c := Admit(a.types, a.records, e2);
    var n := Admit(c.types, c.records, e3);
    var r := Admit(n.types, n.records, e4);
    var k := Admit(r.types, r.records, e5);
    AdmitStep(types, records, e1);
    AdmitStep(a.types, a.records, e2);
    AdmitStep(c.types, c.records, e3);
    AdmitStep(n.types, n.records, e4);
    AdmitStep(r.types, r.records, e5);
    AdmitKeptIn(types, records, e1);
    AdmitKeptIn(a.types, a.records, e2);
    AdmitKeptIn(c.types, c.records, e3);
    assert RecordKeysOf(a.kept) == {} && RecordKeysOf(c.kept) == {} && RecordKeysOf(n.kept) == {};
    forall e | e in r.kept + k.kept ensures e in r.kept || e in k.kept { }
  }

  /** Building keeps the registry invariant. */
  lemma StagesConsistent(types: map<string, Entity>, records: map<string, Entity>,
      e1: seq<Entity>, e2: seq<Entity>, e3: seq<Entity>, e4: seq<Entity>, e5: seq<Entity>)
    requires Consistent(types, records)
    ensures var b := Stages(types, records, e1, e2, e3, e4, e5); Consistent(b.types, b.knownRecords)
  {
    var a := Admit(types, records, e1);
    var c := Admit(a.types, a.records, e2);
    var n := Admit(c.types, c.records, e3);
    var r := Admit(n.types, n.records, e4);
    AdmitConsistent(types, records, e1);
    AdmitConsistent(a.types, a.records, e2);
    AdmitConsistent(c.types, c.records, e3);
    AdmitConsistent(n.types, n.records, e4);
    AdmitConsistent(r.types, r.records, e5);
  }

  /**
   * For a document: the kept aliases, constants, enumerations, records and
   * classes have pairwise distinct keys that were not registered before,
   * each is registered under its key, and no earlier entry is changed. In
   * particular a class is dropped when an alias, constant, enumeration or
   * record took its key.
   */
  lemma BuildKeysDistinct(d: Document, types: map<string, Entity>, records: map<string, Entity>)
    ensures var b := Build(d, types, records);
      && Fresh(b.Kept(), types.Keys)
      && b.types.Keys == types.Keys + KeysOf(b.Kept())
      && (forall k :: k in types ==> k in b.types && b.types[k] == types[k])
      && (forall j :: 0 <= j < |b.Kept()| ==> b.types[b.Kept()[j].key] == b.Kept()[j])
  {
    StagesKeysDistinct(types, records, AliasInputs(d), ConstantInputs(d), EnumerationInputs(d), RecordInputs(d), ClassInputs(d));
  }

  /**
   * For a document: each candidate element is kept or produces one
   * warning, and `KnownRecords` gains exactly the keys of the kept records
   * and classes, while the registry invariant is kept.
   */
  lemma BuildAccounts(d: Document, types: map<string, Entity>, records: map<string, Entity>)
    requires Consistent(types, records)
    ensures var b := Build(d, types, records);
      && |b.Kept()| + |b.warnings| == |AllInputs(d)|
      && b.knownRecords.Keys == records.Keys + RecordKeysOf(b.records + b.classes)
      && Consistent(b.types, b.knownRecords)
  {
    var e1, e2, e3 := AliasInputs(d), ConstantInputs(d), EnumerationInputs(d);
    forall x: Entity | x in e1 + e2 + e3 ensures !x.entry.IsRecordLike() {
      assert x in e1 || x in e2 || x in e3;
    }
    StagesCount(types, records, e1, e2, e3, RecordInputs(d), ClassInputs(d));
    StagesAccounts(types, records, e1, e2, e3, RecordInputs(d), ClassInputs(d));
    StagesConsistent(types, records, e1, e2, e3, RecordInputs(d), ClassInputs(d));
  }

  // ---------------------------------------------------------------------
  // A one-alias document
  // ---------------------------------------------------------------------

  /** An alias `MyAlias` of the type `gint`, with no children. */
  const MyAliasElement: Element := Element("alias", map["name" := "MyAlias", "type" := "gint"], {}, [], "")

  /** A repository whose one namespace holds only that alias. */
  const OneAliasDocument: Document :=
    Document(Element("repository", map[], {}, [Element("namespace", map["name" := "Test"], {}, [MyAliasElement], "")], ""))

  /** The alias is one candidate of its category; the other queries find nothing. */
  lemma OneAliasInputs()
    ensures AliasInputs(OneAliasDocument) == [AsAlias(MakeAlias(MyAliasElement, 0))]
    ensures ConstantInputs(OneAliasDocument) == [] && EnumerationInputs(OneAliasDocument) == []
    ensures RecordInputs(OneAliasDocument) == [] && ClassInputs(OneAliasDocument) == []
  {
    var ns := OneAliasDocument.root.children[0];
    GrandchildrenUnit(ns, "alias");
    GrandchildrenUnit(ns, "constant");
    GrandchildrenUnit(ns, "enumeration");
    GrandchildrenUnit(ns, "record");
    GrandchildrenUnit(ns, "class");
    ChildrenNamedUnit(MyAliasElement, "alias");
    ChildrenNamedUnit(MyAliasElement, "constant");
    ChildrenNamedUnit(MyAliasElement, "enumeration");
    ChildrenNamedUnit(MyAliasElement, "record");
    ChildrenNamedUnit(MyAliasElement, "class");
    assert Query(OneAliasDocument, "alias") == [MyAliasElement];
  }

  /** The alias is named `MyAlias`, has the type `gint`, a placeholder C type, and its own name as key. */
  lemma MyAliasEntity()
    ensures var a := MakeAlias(MyAliasElement, 0);
      && a.base.thing.name == "MyAlias" && a.base.typeName == "gint"
      && a.ctype == UnknownTypeCType(0) && a.containedTypes == []
      && AsAlias(a).key == "MyAlias"
  {
    var n := "MyAlias";
    assert !HasSuffix(n, "Class") by { assert n[|n| - 5..] == "Alias"; }
    assert !HasSuffix(n, "Iface") by { assert n[|n| - 5..] == "Alias"; }
    assert !HasSuffix(n, "ClassPrivate") && !HasSuffix(n, "IfacePrivate");
    NodeKeepsPlainName(n);
    assert FirstNamed(MyAliasElement.children, "type").None?;
  }

  /**
   * Building the one-alias document on an empty registry keeps that one
   * alias, registers it under `MyAlias` and nothing else, and warns about
   * nothing.
   */
  lemma OneAliasBuilt()
    ensures var b := Build(OneAliasDocument, map[], map[]);
      && b.aliases == [AsAlias(MakeAlias(MyAliasElement, 0))]
      && b.constants == [] && b.enumerations == [] && b.records == [] && b.classes == []
      && b.types == map["MyAlias" := b.aliases[0]]
      && b.knownRecords == map[]
      && b.warnings == []
  {
    var x := AsAlias(MakeAlias(MyAliasElement, 0));
    OneAliasInputs();
    MyAliasEntity();
    AdmitOne(map[], map[], x);
    var t := map["MyAlias" := x];
    assert Admit(t, map[], []) == Admission([], t, map[], []);
  }

  /** Filtering one non-record entity with a new key registers it and warns about nothing. */
  lemma AdmitOne(types: map<string, Entity>, records: map<string, Entity>, x: Entity)
    requires x.key !in types && !x.entry.IsRecordLike()
    ensures Admit(types, records, [x]) == Admission([x], types[x.key := x], records, [])
  {
    assert [x][..0] == [];
    assert Admit(types, records, []) == Admission([], types, records, []);
  }

  // ---------------------------------------------------------------------
  // The GIR object
  // ---------------------------------------------------------------------

  /**
   * The `GIR` class: the prefixes and the kept entities of one document.
   * `init` is the only place that sets them.
   */
  class Gir {
    const xml: Document
    const prefix: string
    const identifierPrefixes: seq<string>
    const symbolPrefixes: seq<string>
    const aliases: seq<Alias>
    const constants: seq<Constant>
    const enumerations: seq<Enumeration>
    const bitfields: seq<Bitfield>
    const records: seq<Record>
    const classes: seq<Class>
    /** The text `GIR.init` writes to stderr. */
    const warnings: seq<string>

    /** The kept entities of each category, the registry and the warnings after `init`. */
    function Outcome(registry: Registry): Built
      reads registry
    {
      Built(Wrap(aliases, AsAlias), Wrap(constants, AsConstant), Wrap(enumerations, AsEnumeration),
            Wrap(records, AsRecord), Wrap(classes, AsClass), registry.knownTypes, registry.knownRecords, warnings)
    }

    /** `init(xmlDocument:)`: the prefixes of the document, then each category filtered into the registry in turn. */
    constructor (d: Document, registry: Registry)
      requires registry.Valid()
      modifies registry
      ensures registry.Valid()
      ensures xml == d && prefix == Prefix(d) && bitfields == []
      ensures identifierPrefixes == NamespacePrefixes(d, "identifier-prefixes")
      ensures symbolPrefixes == NamespacePrefixes(d, "symbol-prefixes")
      ensures Outcome(registry) == Build(d, old(registry.knownTypes), old(registry.knownRecords))
    {
      xml := d;
      var p, ip, sp := ReadPrefixes(d);
      prefix, identifierPrefixes, symbolPrefixes := p, ip, sp;
      bitfields := [];
      var a, c, n, r, k, w := FilterDocument(d, registry);
      aliases, constants, enumerations, records, classes, warnings := a, c, n, r, k, w;
    }
  }

  /** The namespace part of `GIR.init`: each prefix keeps its empty default unless the first namespace provides it. */
  method ReadPrefixes(d: Document) returns (prefix: string, identifierPrefixes: seq<string>, symbolPrefixes: seq<string>)
    ensures prefix == Prefix(d)
    ensures identifierPrefixes == NamespacePrefixes(d, "identifier-prefixes")
    ensures symbolPrefixes == NamespacePrefixes(d, "symbol-prefixes")
  {
    prefix := "";
    identifierPrefixes, symbolPrefixes := [], [];
    var ns := FirstDescendant(d.root, "namespace");
    if ns.Some? {
      var name := Attr(ns.value, "name");
      if name.Some? {
        prefix := name.value;
      }
      identifierPrefixes := SortedSubAttributes(ns.value, "identifier-prefixes");
      symbolPrefixes := SortedSubAttributes(ns.value, "symbol-prefixes");
    }
  }

  /** The five filters of `GIR.init` run in order on one registry. */
  method FilterAll(registry: Registry, e1: seq<Alias>, e2: seq<Constant>, e3: seq<Enumeration>, e4: seq<Record>, e5: seq<Class>)
    returns (a: seq<Alias>, c: seq<Constant>, n: seq<Enumeration>, r: seq<Record>, k: seq<Class>, warnings: seq<string>)
    requires registry.Valid()
    modifies registry
    ensures registry.Valid()
    ensures var b := Stages(old(registry.knownTypes), old(registry.knownRecords),
                            Wrap(e1, AsAlias), Wrap(e2, AsConstant), Wrap(e3, AsEnumeration), Wrap(e4, AsRecord), Wrap(e5, AsClass));
      b == Built(Wrap(a, AsAlias), Wrap(c, AsConstant), Wrap(n, AsEnumeration), Wrap(r, AsRecord), Wrap(k, AsClass),
                 registry.knownTypes, registry.knownRecords, warnings)
  {
    var w1, w2, w3, w4, w5;
    a, w1 := registry.Filter(e1, AsAlias);
    c, w2 := registry.Filter(e2, AsConstant);
    n, w3 := registry.Filter(e3, AsEnumeration);
    r, w4 := registry.Filter(e4, AsRecord);
    k, w5 := registry.Filter(e5, AsClass);
    warnings := w1 + w2 + w3 + w4 + w5;
  }

  /** The five queries of `GIR.init`, each entity indexed by its position in its query, filtered in order. */
  method FilterDocument(d: Document, registry: Registry)
    returns (a: seq<Alias>, c: seq<Constant>, n: seq<Enumeration>, r: seq<Record>, k: seq<Class>, warnings: seq<string>)
    requires registry.Valid()
    modifies registry
    ensures registry.Valid()
    ensures var b := Build(d, old(registry.knownTypes), old(registry.knownRecords));
      b == Built(Wrap(a, AsAlias), Wrap(c, AsConstant), Wrap(n, AsEnumeration), Wrap(r, AsRecord), Wrap(k, AsClass),
                 registry.knownTypes, registry.knownRecords, warnings)
  {
    a, c, n, r, k, warnings := FilterAll(registry,
      Aliases(Query(d, "alias")), Constants(Query(d, "constant")), Enumerations(Query(d, "enumeration")),
      Records(Query(d, "record")), Classes(Query(d, "class")));
  }

  /**
   * `init?(fromFile:)` and `init?(buffer:)`: nil when the XML does not
   * parse, otherwise the designated initialiser's result. The parse itself
   * is the XML library's; its outcome is the parameter.
   */
  method Load(parsed: Option<Document>, registry: Registry) returns (g: Gir?)
    requires registry.Valid()
    modifies registry
    ensures registry.Valid()
    ensures g == null <==> parsed.None?
    ensures parsed.None? ==> registry.knownTypes == old(registry.knownTypes) && registry.knownRecords == old(registry.knownRecords)
    ensures g != null ==> (fresh(g) && g.xml == parsed.value &&
      g.Outcome(registry) == Build(parsed.value, old(registry.knownTypes), old(registry.knownRecords)))
  {
    if parsed.None? {
      return null;
    }
    g := new Gir(parsed.value, registry);
  }
}
