/**
 * XML elements as plain values, the child and attribute accessors the
 * model builder uses, and the `XMLElement.sortedSubAttributesFor`
 * extension of gir.swift.
 */
module Xml {
  import opened Wrappers
  import opened Text

  /**
   * An element: its tag, its attributes, its ordered children and its text
   * content. `flags` holds the names of the attributes that the XML
   * library's `bool(named:)` reads as true; how it reads them lies outside
   * gir.swift, so the model takes the answer as part of the element.
   */
  datatype Element = Element(
    tag: string,
    attrs: map<string, string>,
    flags: set<string>,
    children: seq<Element>,
    content: string)

  /** `attribute(named:)`. */
  function Attr(e: Element, name: string): Option<string> {
    if name in e.attrs then Some(e.attrs[name]) else None
  }

  /** `bool(named:)`. */
  predicate Flag(e: Element, name: string) {
    name in e.flags
  }

  /** The children whose tag is `tag`, in document order. */
  function ChildrenNamed(cs: seq<Element>, tag: string): (r: seq<Element>)
    ensures |r| <= |cs|
    ensures forall k :: 0 <= k < |r| ==> r[k].tag == tag && r[k] in cs
    ensures forall c :: c in cs && c.tag == tag ==> c in r
    decreases |cs|
  {
    if cs == [] then []
    else (if cs[0].tag == tag then [cs[0]] else []) + ChildrenNamed(cs[1..], tag)
  }

  /** The first child whose tag is `tag`, if there is one. */
  function FirstNamed(cs: seq<Element>, tag: string): (r: Option<Element>)
    ensures r.None? <==> forall k :: 0 <= k < |cs| ==> cs[k].tag != tag
    ensures r.Some? ==> exists k :: 0 <= k < |cs| && cs[k] == r.value && r.value.tag == tag &&
                                  forall j :: 0 <= j < k ==> cs[j].tag != tag
    decreases |cs|
  {
    if cs == [] then None
    else if cs[0].tag == tag then Some(cs[0])
    else
      var r := FirstNamed(cs[1..], tag);
      assert forall k :: 1 <= k < |cs| ==> cs[k] == cs[1..][k - 1];
      r
  }

  /**
   * `ChildrenNamed` keeps exactly the matching children in order: nothing
   * from nothing, one child kept iff its tag matches, and (next lemma) a
   * concatenation filtered piecewise.
   */
  lemma ChildrenNamedUnit(c: Element, tag: string)
    ensures ChildrenNamed([], tag) == []
    ensures ChildrenNamed([c], tag) == if c.tag == tag then [c] else []
  {
    assert [c][1..] == [];
  }

  /** Filtering a concatenation is filtering each part. */
  lemma {:induction false} ChildrenNamedAppend(a: seq<Element>, b: seq<Element>, tag: string)
    ensures ChildrenNamed(a + b, tag) == ChildrenNamed(a, tag) + ChildrenNamed(b, tag)
    decreases |a|
  {
    if a == [] {
      assert a + b == b;
    } else {
      assert (a + b)[0] == a[0] && (a + b)[1..] == a[1..] + b;
      ChildrenNamedAppend(a[1..], b, tag);
    }
  }

  /** The first match in a concatenation is the first match in the front part, else in the back part. */
  lemma {:induction false} FirstNamedAppend(a: seq<Element>, b: seq<Element>, tag: string)
    ensures FirstNamed(a + b, tag) == if FirstNamed(a, tag).Some? then FirstNamed(a, tag) else FirstNamed(b, tag)
    decreases |a|
  {
    if a == [] {
      assert a + b == b;
    } else {
      assert (a + b)[0] == a[0] && (a + b)[1..] == a[1..] + b;
      FirstNamedAppend(a[1..], b, tag);
    }
  }

  /** The first child named `tag` is the head of the filtered children. */
  lemma {:induction false} FirstNamedIsHeadOfFilter(cs: seq<Element>, tag: string)
    ensures FirstNamed(cs, tag) == (var f := ChildrenNamed(cs, tag); if f == [] then None else Some(f[0]))
    decreases |cs|
  {
    if cs != [] && cs[0].tag != tag {
      FirstNamedIsHeadOfFilter(cs[1..], tag);
    }
  }

  // ---------------------------------------------------------------------
  // sortedSubAttributesFor
  // ---------------------------------------------------------------------

  /** The default `orderedBy` of `sortedSubAttributesFor`: longer first, then `<`. */
  predicate Before(a: string, b: string) {
    |a| > |b| || (|a| == |b| && LexLess(a, b))
  }

  lemma BeforeAsymmetric(a: string, b: string)
    requires Before(a, b)
    ensures !Before(b, a) && a != b
  {
    LexLessIrreflexive(a);
    if |a| == |b| && LexLess(b, a) {
      LexLessTransitive(a, b, a);
    }
  }

  lemma BeforeTransitive(a: string, b: string, c: string)
    requires Before(a, b) && Before(b, c)
    ensures Before(a, c)
  {
    if |a| == |b| == |c| {
      LexLessTransitive(a, b, c);
    }
  }

  lemma BeforeTotal(a: string, b: string)
    ensures a == b || Before(a, b) || Before(b, a)
  {
    LexLessTotal(a, b);
  }

  lemma NotAfterTransitive(a: string, b: string, c: string)
    requires !Before(b, a) && !Before(c, b)
    ensures !Before(c, a)
  {
    BeforeTotal(a, b);
    BeforeTotal(b, c);
    if a != b && b != c {
      BeforeTransitive(a, b, c);
      BeforeAsymmetric(a, c);
    }
  }

  /** No element is ordered before one that precedes it. */
  ghost predicate SortedLongestFirst(s: seq<string>) {
    forall i, j :: 0 <= i < j < |s| ==> !Before(s[j], s[i])
  }

  lemma SortedCons(x: string, s: seq<string>)
    requires SortedLongestFirst(s)
    requires forall k :: 0 <= k < |s| ==> !Before(s[k], x)
    ensures SortedLongestFirst([x] + s)
  {
    var r := [x] + s;
    forall i, j | 0 <= i < j < |r| ensures !Before(r[j], r[i]) {
      if i > 0 { assert r[i] == s[i - 1] && r[j] == s[j - 1]; }
    }
  }

  /** `x` goes in front of a sorted sequence whose head it does not follow. */
  lemma InsertInFront(x: string, s: seq<string>)
    requires SortedLongestFirst(s) && s != [] && !Before(s[0], x)
    ensures SortedLongestFirst([x] + s)
  {
    forall k | 0 <= k < |s| ensures !Before(s[k], x) {
      if k > 0 { NotAfterTransitive(x, s[0], s[k]); }
    }
    SortedCons(x, s);
  }

  /** The head of `s` stays in front when `x` goes into the sorted tail. */
  lemma InsertBehind(x: string, s: seq<string>, rest: seq<string>)
    requires SortedLongestFirst(s) && s != [] && Before(s[0], x)
    requires SortedLongestFirst(rest) && multiset(rest) == multiset(s[1..]) + multiset{x}
    ensures SortedLongestFirst([s[0]] + rest)
  {
    forall k | 0 <= k < |rest| ensures !Before(rest[k], s[0]) {
      assert rest[k] in multiset(rest);
      if rest[k] == x {
        BeforeAsymmetric(s[0], x);
      } else {
        assert rest[k] in s[1..];
        var j :| 0 <= j < |s[1..]| && s[1..][j] == rest[k];
        assert s[j + 1] == rest[k];
      }
    }
    SortedCons(s[0], rest);
  }

  function Insert(x: string, s: seq<string>): (r: seq<string>)
    requires SortedLongestFirst(s)
    ensures SortedLongestFirst(r)
    ensures multiset(r) == multiset(s) + multiset{x}
    decreases |s|
  {
    if s == [] then [x]
    else if !Before(s[0], x) then
      InsertInFront(x, s);
      [x] + s
    else
      SortedTail(s);
      var rest := Insert(x, s[1..]);
      InsertBehind(x, s, rest);
      assert s == [s[0]] + s[1..];
      [s[0]] + rest
  }

  /** `sorted(isOrderedBefore: Before)`. */
  function SortLongestFirst(xs: seq<string>): (r: seq<string>)
    ensures SortedLongestFirst(r)
    ensures multiset(r) == multiset(xs)
    decreases |xs|
  {
    if xs == [] then []
    else
      assert xs == [xs[0]] + xs[1..];
      Insert(xs[0], SortLongestFirst(xs[1..]))
  }

  lemma SortedTail(s: seq<string>)
    requires SortedLongestFirst(s) && s != []
    ensures SortedLongestFirst(s[1..])
  {
    forall i, j | 0 <= i < j < |s| - 1 ensures !Before(s[1..][j], s[1..][i]) {
      assert s[1..][j] == s[j + 1] && s[1..][i] == s[i + 1];
    }
  }

  lemma SortedHeadFirst(s: seq<string>, x: string)
    requires SortedLongestFirst(s) && x in s
    ensures !Before(x, s[0])
  {
    var i :| 0 <= i < |s| && s[i] == x;
    if i == 0 { LexLessIrreflexive(x); }
  }

  /**
   * Two sorted arrangements of the same pieces are equal: `Before` is a
   * strict total order, so the result does not depend on the sorting
   * algorithm or its stability.
   */
  lemma {:induction false} SortedPermutationUnique(a: seq<string>, b: seq<string>)
    requires SortedLongestFirst(a) && SortedLongestFirst(b)
    requires multiset(a) == multiset(b)
    ensures a == b
    decreases |a|
  {
    assert |a| == |multiset(a)| == |multiset(b)| == |b|;
    if a != [] {
      assert a[0] in multiset(b) && b[0] in multiset(a);
      SortedHeadFirst(a, b[0]);
      SortedHeadFirst(b, a[0]);
      BeforeTotal(a[0], b[0]);
      var h := a[0];
      assert h == b[0];
      assert a == [h] + a[1..] && b == [h] + b[1..];
      assert multiset(a[1..]) == multiset(a) - multiset{h};
      assert multiset(b[1..]) == multiset(b) - multiset{h};
      SortedTail(a);
      SortedTail(b);
      SortedPermutationUnique(a[1..], b[1..]);
    }
  }

  /**
   * `sortedSubAttributesFor(attr:)` with its defaults: the ','-separated
   * pieces of the attribute, longest first, equal lengths in ascending
   * order; no attribute gives no pieces.
   */
  function SortedSubAttributes(e: Element, attr: string): (r: seq<string>)
    ensures attr !in e.attrs ==> r == []
    ensures attr in e.attrs ==> multiset(r) == multiset(Split(e.attrs[attr], ','))
    ensures SortedLongestFirst(r)
    ensures forall k :: 0 <= k < |r| ==> r[k] != "" && ',' !in r[k]
  {
    match Attr(e, attr)
    case None => []
    case Some(v) =>
      var r := SortLongestFirst(Split(v, ','));
      assert forall k :: 0 <= k < |r| ==> r[k] in multiset(Split(v, ','));
      r
  }

  /** Any sorted arrangement of the attribute's pieces is the result. */
  lemma SortedSubAttributesUnique(e: Element, attr: string, s: seq<string>)
    requires attr in e.attrs
    requires SortedLongestFirst(s) && multiset(s) == multiset(Split(e.attrs[attr], ','))
    ensures SortedSubAttributes(e, attr) == s
  {
    SortedPermutationUnique(SortedSubAttributes(e, attr), s);
  }

  /** `identifier-prefixes="Gtk,G"` yields `["Gtk", "G"]`. */
  lemma SortedSubAttributesExample()
    ensures SortedSubAttributes(Element("namespace", map["identifier-prefixes" := "Gtk,G"], {}, [], ""),
                                "identifier-prefixes") == ["Gtk", "G"]
  {
    var v := "Gtk,G";
    assert v[3] == ',' && ',' !in v[..3];
    assert IndexOf(v, ',') == 3;
    assert v[..3] == "Gtk" && v[4..] == "G";
    assert Split(v, ',') == ["Gtk", "G"];
    assert !Before("G", "Gtk");
    assert Insert("Gtk", ["G"]) == ["Gtk", "G"];
    assert SortLongestFirst(["G"]) == ["G"];
    assert SortLongestFirst(["Gtk", "G"]) == ["Gtk", "G"];
  }
}
