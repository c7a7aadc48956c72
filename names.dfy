/**
 * The naming helpers of gir.swift: `String.withoutNameSpace` and the
 * `Thing.priv` / `Thing.node` extension that strips type-struct suffixes.
 */
module Names {
  import opened Wrappers
  import opened Text

  /** The offset of the last `c` in `s`, if any. */
  function LastIndexOf(s: string, c: char): (r: Option<nat>)
    ensures r.None? <==> c !in s
    ensures r.Some? ==> r.value < |s| && s[r.value] == c && c !in s[r.value + 1..]
    decreases |s|
  {
    if s == [] then None
    else if s[|s| - 1] == c then Some(|s| - 1)
    else
      var r := LastIndexOf(s[..|s| - 1], c);
      assert s == s[..|s| - 1] + [s[|s| - 1]];
      r
  }

  /**
   * `withoutNameSpace`: the text after the last '.', or the whole string
   * when it has none; that is, the longest suffix without a '.'.
   */
  function WithoutNameSpace(s: string): (r: string)
    ensures '.' !in r
    ensures HasSuffix(s, r)
    ensures '.' !in s ==> r == s
    ensures '.' in s ==> |r| < |s| && s[|s| - |r| - 1] == '.'
  {
    match LastIndexOf(s, '.')
    case None => s
    case Some(dot) => s[dot + 1..]
  }

  /** `priv`: the name without its "Private" suffix, nil for a public name. */
  function Priv(name: string): (r: Option<string>)
    ensures r.Some? <==> HasSuffix(name, "Private")
    ensures r.Some? ==> r.value + "Private" == name
  {
    RemoveSuffix(name, "Private")
  }

  /**
   * `node`: the name without a trailing "Class" or "Iface" (tried in that
   * order), keeping a "Private" that followed it; otherwise the name itself.
   */
  function Node(name: string): (r: string)
    ensures r == name || |r| + 5 == |name|
  {
    var nodeName := Priv(name).GetOr(name);
    var privateSuffix := if Priv(name).Some? then "Private" else "";
    match RemoveSuffix(nodeName, "Class")
    case Some(n) => n + privateSuffix
    case None =>
      match RemoveSuffix(nodeName, "Iface")
      case Some(n) => n + privateSuffix
      case None => name
  }

  lemma SuffixAppend(p: string, u: string, t: string)
    ensures HasSuffix(p + t, u + t) <==> HasSuffix(p, u)
  {
    if |u| <= |p| {
      assert (p + t)[|p + t| - |u + t|..] == p[|p| - |u|..] + t;
    }
    if HasSuffix(p + t, u + t) {
      assert (p + t)[|p + t| - |u + t|..] == p[|p| - |u|..] + t;
      assert p[|p| - |u|..] == (p + t)[|p + t| - |u + t|..][..|u|];
    }
  }

  /** `node` drops a final "Class" or "Iface". */
  lemma NodeStripsSuffix(n: string)
    ensures Node(n + "Class") == n
    ensures Node(n + "Iface") == n
  {
    var c, f := n + "Class", n + "Iface";
    assert c[|c| - 1] == 's' && f[|f| - 4] == 'f';
    assert !HasSuffix(c, "Private") && !HasSuffix(f, "Private");
    assert c[..|n|] == n && f[..|n|] == n;
  }

  /** `node` drops "Class" or "Iface" in front of "Private" and puts "Private" back. */
  lemma NodeStripsPrivateSuffix(n: string)
    ensures Node(n + "ClassPrivate") == n + "Private"
    ensures Node(n + "IfacePrivate") == n + "Private"
  {
    assert n + "ClassPrivate" == (n + "Class") + "Private";
    assert n + "IfacePrivate" == (n + "Iface") + "Private";
    assert ((n + "Class") + "Private")[..|n| + 5] == n + "Class";
    assert ((n + "Iface") + "Private")[..|n| + 5] == n + "Iface";
    assert (n + "Class")[..|n|] == n && (n + "Iface")[..|n|] == n;
  }

  /** A name that ends in none of the suffixes is its own key. */
  lemma NodeKeepsPlainName(name: string)
    requires !HasSuffix(name, "Class") && !HasSuffix(name, "Iface")
    requires !HasSuffix(name, "ClassPrivate") && !HasSuffix(name, "IfacePrivate")
    ensures Node(name) == name
  {
    match Priv(name)
    case None =>
      assert RemoveSuffix(name, "Class").None? && RemoveSuffix(name, "Iface").None?;
    case Some(p) =>
      assert name == p + "Private";
      assert !HasSuffix(p, "Class") by {
        SuffixAppend(p, "Class", "Private");
        assert "Class" + "Private" == "ClassPrivate";
      }
      assert !HasSuffix(p, "Iface") by {
        SuffixAppend(p, "Iface", "Private");
        assert "Iface" + "Private" == "IfacePrivate";
      }
      assert RemoveSuffix(p, "Class").None? && RemoveSuffix(p, "Iface").None?;
  }
}
