/**
 * The type registry of gir.swift: the static dictionaries `GIR.KnownTypes`
 * and `GIR.KnownRecords`, turned into one explicit object, and the
 * first-registration-wins filter that `GIR.init` applies to every
 * category of entities.
 */
module Registry {
  import opened Text
  import opened Names
  import opened Entities

  /** A registered type: a value of one of the five categories. */
  datatype Entry =
    | AliasEntry(alias: Alias)
    | ConstantEntry(constant: Constant)
    | EnumEntry(enumeration: Enumeration)
    | RecordEntry(record: Record)
    | ClassEntry(klass: Class)
  {
    function Name(): string {
      match this
      case AliasEntry(a) => a.base.thing.name
      case ConstantEntry(c) => c.ct.base.thing.name
      case EnumEntry(e) => e.base.thing.name
      case RecordEntry(r) => r.ct.base.thing.name
      case ClassEntry(c) => c.rec.ct.base.thing.name
    }

    /** Records and classes also go into `KnownRecords`. */
    predicate IsRecordLike() {
      RecordEntry? || ClassEntry?
    }

    /** The word the duplicate warning uses for the category. */
    function Label(): string {
      match this
      case AliasEntry(_) => "alias"
      case ConstantEntry(_) => "constant"
      case EnumEntry(_) => "enum"
      case RecordEntry(_) => "record"
      case ClassEntry(_) => "class"
    }
  }

  /** An entry together with the key it is registered under. */
  datatype Entity = Entity(key: string, entry: Entry)

  /** The registry key of an entry is its `node` name, not its `name`. */
  function Register(t: Entry): (e: Entity)
    ensures e.entry == t && e.key == Node(t.Name())
    ensures e.key == t.Name() || |e.key| + 5 == |t.Name()|
  {
    Entity(Node(t.Name()), t)
  }

  /**
   * Because keys are `node` names, an entry named `n` and a later one named
   * `n` + "Class" share a key: the first is registered, the second dropped
   * with a warning.
   */
  lemma ClassSuffixCollides(types: map<string, Entity>, records: map<string, Entity>, a: Entry, b: Entry)
    requires !HasSuffix(a.Name(), "Class") && !HasSuffix(a.Name(), "Iface")
    requires !HasSuffix(a.Name(), "ClassPrivate") && !HasSuffix(a.Name(), "IfacePrivate")
    requires b.Name() == a.Name() + "Class" && a.Name() !in types
    ensures var r := Admit(types, records, [Register(a), Register(b)]);
      && Register(a).key == Register(b).key == a.Name()
      && r.kept == [Register(a)]
      && r.types == types[a.Name() := Register(a)]
      && r.warnings == [Warning(Register(b))]
  {
    var n := a.Name();
    NodeKeepsPlainName(n);
    NodeStripsSuffix(n);
    var ea, eb := Register(a), Register(b);
    assert ea.key == n && eb.key == n;
    AdmitCollision(types, records, ea, eb);
  }

  /** Two entities under one fresh key: the first is registered, the second warned about. */
  lemma AdmitCollision(types: map<string, Entity>, records: map<string, Entity>, ea: Entity, eb: Entity)
    requires ea.key == eb.key && ea.key !in types
    ensures var r := Admit(types, records, [ea, eb]);
      r.kept == [ea] && r.types == types[ea.key := ea] && r.warnings == [Warning(eb)]
  {
    var es := [ea, eb];
    assert es[..1] == [ea] && [ea][..0] == [];
    assert Admit(types, records, []) == Admission([], types, records, []);
    var first := Admit(types, records, [ea]);
    assert first.kept == [ea] && first.types == types[ea.key := ea] && first.warnings == [];
  }

  function AsAlias(a: Alias): Entity { Register(AliasEntry(a)) }
  function AsConstant(c: Constant): Entity { Register(ConstantEntry(c)) }
  function AsEnumeration(e: Enumeration): Entity { Register(EnumEntry(e)) }
  function AsRecord(r: Record): Entity { Register(RecordEntry(r)) }
  function AsClass(c: Class): Entity { Register(ClassEntry(c)) }

  /** The line written to stderr for a dropped duplicate. */
  function Warning(e: Entity): string {
    "Warning: duplicate type '" + e.key + "' for " + e.entry.Label() + " ignored!\n"
  }

  function Wrap<T>(items: seq<T>, wrap: T -> Entity): (r: seq<Entity>)
    ensures |r| == |items| && forall k :: 0 <= k < |items| ==> r[k] == wrap(items[k])
  {
    seq(|items|, k requires 0 <= k < |items| => wrap(items[k]))
  }

  /**
   * The registry invariant: every entry sits under its own key, and
   * `records` is exactly the record-like part of `types`.
   */
  ghost predicate Consistent(types: map<string, Entity>, records: map<string, Entity>) {
    && (forall k :: k in types ==> types[k].key == k)
    && (forall k :: k in records ==> k in types && records[k] == types[k])
    && (forall k :: k in types && types[k].entry.IsRecordLike() ==> k in records)
    && (forall k :: k in records ==> records[k].entry.IsRecordLike())
  }

  /** The outcome of filtering one category. */
  datatype Admission = Admission(
    kept: seq<Entity>,
    types: map<string, Entity>,
    records: map<string, Entity>,
    warnings: seq<string>)

  /**
   * The filter of `GIR.init`, in document order: an entity is kept and
   * registered iff its key is not yet in `types`; otherwise it is dropped
   * with a warning.
   */
  function Admit(types: map<string, Entity>, records: map<string, Entity>, es: seq<Entity>): Admission
    decreases |es|
  {
    if es == [] then Admission([], types, records, [])
    else
      var prev := Admit(types, records, es[..|es| - 1]);
      var e := es[|es| - 1];
      if e.key in prev.types then prev.(warnings := prev.warnings + [Warning(e)])
      else prev.(kept := prev.kept + [e],
                 types := prev.types[e.key := e],
                 records := if e.entry.IsRecordLike() then prev.records[e.key := e] else prev.records)
  }

  ghost function KeysOf(es: seq<Entity>): set<string> {
    set e | e in es :: e.key
  }

  ghost function RecordKeysOf(es: seq<Entity>): set<string> {
    set e | e in es && e.entry.IsRecordLike() :: e.key
  }

  /** `a` is `b` with some elements left out, the rest in order. */
  ghost predicate SubseqOf<T>(a: seq<T>, b: seq<T>)
    decreases |b|
  {
    if a == [] then true
    else if b == [] then false
    else (a[|a| - 1] == b[|b| - 1] && SubseqOf(a[..|a| - 1], b[..|b| - 1])) || SubseqOf(a, b[..|b| - 1])
  }

  lemma LastSplit(es: seq<Entity>)
    requires es != []
    ensures es == es[..|es| - 1] + [es[|es| - 1]]
    ensures KeysOf(es) == KeysOf(es[..|es| - 1]) + {es[|es| - 1].key}
    ensures RecordKeysOf(es) == RecordKeysOf(es[..|es| - 1]) +
              (if es[|es| - 1].entry.IsRecordLike() then {es[|es| - 1].key} else {})
  {
    var init, e := es[..|es| - 1], es[|es| - 1];
    assert es == init + [e];
    forall x | x in es ensures x in init || x == e { }
  }

  /** Filtering keeps the registry invariant and never overwrites or removes a known record. */
  lemma {:induction false} AdmitConsistent(types: map<string, Entity>, records: map<string, Entity>, es: seq<Entity>)
    requires Consistent(types, records)
    ensures var r := Admit(types, records, es);
      && Consistent(r.types, r.records)
      && (forall k :: k in records ==> k in r.records && r.records[k] == records[k])
    decreases |es|
  {
    if es != [] {
      AdmitPreserves(types, records, es[..|es| - 1]);
      AdmitConsistent(types, records, es[..|es| - 1]);
    }
  }

  /** Filtering never overwrites or removes a registered type. */
  lemma {:induction false} AdmitPreserves(types: map<string, Entity>, records: map<string, Entity>, es: seq<Entity>)
    ensures var r := Admit(types, records, es);
      forall k :: k in types ==> k in r.types && r.types[k] == types[k]
    decreases |es|
  {
    if es != [] {
      AdmitPreserves(types, records, es[..|es| - 1]);
    }
  }

  /** Every input entity ends up keyed in `types`, as kept or as a duplicate, and nothing else is added. */
  lemma {:induction false} AdmitKeysAll(types: map<string, Entity>, records: map<string, Entity>, es: seq<Entity>)
    ensures Admit(types, records, es).types.Keys == types.Keys + KeysOf(es)
    decreases |es|
  {
    if es != [] {
      AdmitKeysAll(types, records, es[..|es| - 1]);
      LastSplit(es);
    }
  }

  /**
   * The new keys of `types` are exactly those of the kept entities, the
   * new keys of `records` exactly those of the kept records and classes,
   * and each input is either kept or warned about.
   */
  lemma {:induction false} AdmitKeysKept(types: map<string, Entity>, records: map<string, Entity>, es: seq<Entity>)
    ensures var r := Admit(types, records, es);
      && r.types.Keys == types.Keys + KeysOf(r.kept)
      && r.records.Keys == records.Keys + RecordKeysOf(r.kept)
      && |r.kept| + |r.warnings| == |es|
    decreases |es|
  {
    if es != [] {
      var init, e := es[..|es| - 1], es[|es| - 1];
      AdmitKeysKept(types, records, init);
      var prev := Admit(types, records, init);
      var r := Admit(types, records, es);
      if e.key !in prev.types {
        var kept := prev.kept + [e];
        LastSplit(kept);
        assert kept[..|prev.kept|] == prev.kept && kept[|prev.kept|] == e;
        assert r.kept == kept && r.types == prev.types[e.key := e];
        assert r.types.Keys == prev.types.Keys + {e.key};
        if e.entry.IsRecordLike() {
          assert r.records.Keys == prev.records.Keys + {e.key};
        } else {
          assert r.records == prev.records;
        }
      } else {
        assert r == prev.(warnings := prev.warnings + [Warning(e)]);
      }
    }
  }

  /** Kept entities have keys new to the registry and pairwise distinct; each is what its key now maps to. */
  lemma {:induction false} AdmitKeptUnique(types: map<string, Entity>, records: map<string, Entity>, es: seq<Entity>)
    ensures var r := Admit(types, records, es);
      && (forall j :: 0 <= j < |r.kept| ==> r.kept[j].key !in types)
      && (forall i, j :: 0 <= i < j < |r.kept| ==> r.kept[i].key != r.kept[j].key)
      && (forall j :: 0 <= j < |r.kept| ==> r.kept[j].key in r.types && r.types[r.kept[j].key] == r.kept[j])
    decreases |es|
  {
    if es != [] {
      var init, e := es[..|es| - 1], es[|es| - 1];
      AdmitKeptUnique(types, records, init);
      AdmitKeysKept(types, records, init);
      var prev := Admit(types, records, init);
      if e.key !in prev.types {
        var kept := prev.kept + [e];
        forall j | 0 <= j < |prev.kept| ensures prev.kept[j].key in prev.types {
          assert prev.kept[j] in prev.kept;
        }
        assert kept[|kept| - 1] == e;
        assert forall j :: 0 <= j < |prev.kept| ==> kept[j] == prev.kept[j];
      }
    }
  }

  /** The first entity with a new key is the one registered under it: first registration wins. */
  lemma {:induction false} AdmitFirstWins(types: map<string, Entity>, records: map<string, Entity>, es: seq<Entity>, j: nat)
    requires j < |es| && es[j].key !in types
    requires forall i :: 0 <= i < j ==> es[i].key != es[j].key
    ensures var r := Admit(types, records, es);
      es[j].key in r.types && r.types[es[j].key] == es[j] && es[j] in r.kept
    decreases |es|
  {
    var init, e := es[..|es| - 1], es[|es| - 1];
    var prev := Admit(types, records, init);
    AdmitKeysAll(types, records, init);
    if j < |es| - 1 {
      AdmitFirstWins(types, records, init, j);
      assert init[j] == es[j];
    } else {
      assert forall i :: 0 <= i < |init| ==> init[i].key != es[j].key;
    }
  }

  /** The kept entities are the input with the duplicates left out, in document order. */
  lemma {:induction false} AdmitKeepsOrder(types: map<string, Entity>, records: map<string, Entity>, es: seq<Entity>)
    ensures SubseqOf(Admit(types, records, es).kept, es)
    decreases |es|
  {
    if es != [] {
      var init, e := es[..|es| - 1], es[|es| - 1];
      AdmitKeepsOrder(types, records, init);
      var prev := Admit(types, records, init);
      assert es == init + [e];
      if e.key in prev.types {
        SubseqOfExtend(prev.kept, init, e);
      } else {
        SubseqOfAppend(prev.kept, init, e);
      }
    }
  }

  /** Every kept entity is one of the inputs. */
  lemma {:induction false} AdmitKeptIn(types: map<string, Entity>, records: map<string, Entity>, es: seq<Entity>)
    ensures forall x :: x in Admit(types, records, es).kept ==> x in es
    decreases |es|
  {
    if es != [] {
      AdmitKeptIn(types, records, es[..|es| - 1]);
      LastSplit(es);
    }
  }

  lemma SubseqOfAppend<T>(a: seq<T>, b: seq<T>, x: T)
    requires SubseqOf(a, b)
    ensures SubseqOf(a + [x], b + [x])
  {
    assert (a + [x])[..|a|] == a;
    assert (b + [x])[..|b|] == b;
  }

  lemma SubseqOfExtend<T>(a: seq<T>, b: seq<T>, x: T)
    requires SubseqOf(a, b)
    ensures SubseqOf(a, b + [x])
  {
    assert (b + [x])[..|b|] == b;
  }

  /** The registry object: `KnownTypes` and `KnownRecords`. */
  class Registry {
    var knownTypes: map<string, Entity>
    var knownRecords: map<string, Entity>

    ghost predicate Valid()
      reads this
    {
      Consistent(knownTypes, knownRecords)
    }

    /** Both dictionaries start empty. */
    constructor ()
      ensures Valid() && knownTypes == map[] && knownRecords == map[]
    {
      knownTypes := map[];
      knownRecords := map[];
    }

    /**
     * The `filter` closure of `GIR.init` over one category, in document
     * order: an item whose key is registered is dropped with a warning;
     * otherwise it is registered (in both maps if record-like) and kept.
     */
    method Filter<T>(items: seq<T>, wrap: T -> Entity) returns (kept: seq<T>, warnings: seq<string>)
      requires Valid()
      modifies this
      ensures Valid()
      ensures var r := Admit(old(knownTypes), old(knownRecords), Wrap(items, wrap));
        && Wrap(kept, wrap) == r.kept && warnings == r.warnings
        && knownTypes == r.types && knownRecords == r.records
    {
      kept, warnings := [], [];
      var n := 0;
      while n < |items|
        invariant 0 <= n <= |items|
        invariant var r := Admit(old(knownTypes), old(knownRecords), Wrap(items[..n], wrap));
          && Wrap(kept, wrap) == r.kept && warnings == r.warnings
          && knownTypes == r.types && knownRecords == r.records
      {
        ghost var es := Wrap(items[..n + 1], wrap);
        assert es[..|es| - 1] == Wrap(items[..n], wrap);
        var e := wrap(items[n]);
        var name := e.key;
        if name in knownTypes {
          warnings := warnings + [Warning(e)];
        } else {
          knownTypes := knownTypes[name := e];
          if e.entry.IsRecordLike() {
            knownRecords := knownRecords[name := e];
          }
          assert Wrap(kept + [items[n]], wrap) == Wrap(kept, wrap) + [e];
          kept := kept + [items[n]];
        }
        n := n + 1;
      }
      assert items[..n] == items;
      AdmitConsistent(old(knownTypes), old(knownRecords), Wrap(items, wrap));
    }
  }
}
