/** The container chain of a distinguished name (api/odm/policy.py). */
module DistinguishedNames {
  import opened Text

  // A character is escaped when a backslash that is not itself escaped stands
  // right before it.
  predicate Escaped(s: string, i: nat)
    requires i <= |s|
    decreases i
  {
    i > 0 && s[i - 1] == '\\' && !Escaped(s, i - 1)
  }

  predicate IsCut(s: string, i: nat)
    requires i < |s|
  {
    s[i] == ',' && !Escaped(s, i)
  }

  // The components of s[..n] that a cut has closed, and the open one after them.
  function Closed(s: string, n: nat): seq<string>
    requires n <= |s|
  {
    if n == 0 then []
    else if IsCut(s, n - 1) then Closed(s, n - 1) + [Open(s, n - 1)]
    else Closed(s, n - 1)
  }

  function Open(s: string, n: nat): string
    requires n <= |s|
  {
    if n == 0 || IsCut(s, n - 1) then "" else Open(s, n - 1) + [s[n - 1]]
  }

  // An empty component at the very end is dropped.
  function Parts(s: string): seq<string> {
    Closed(s, |s|) + (if Open(s, |s|) == "" then [] else [Open(s, |s|)])
  }

  method SplitDn(dn: string) returns (parts: seq<string>)
    ensures parts == Parts(dn)
  {
    parts := [];
    var current := "";
    var escaped := false;
    for i := 0 to |dn|
      invariant parts == Closed(dn, i)
      invariant current == Open(dn, i)
      invariant escaped == Escaped(dn, i)
    {
      var c := dn[i];
      if escaped {
        current := current + [c];
        escaped := false;
      } else if c == '\\' {
        current := current + [c];
        escaped := true;
      } else if c == ',' {
        parts := parts + [current];
        current := "";
      } else {
        current := current + [c];
      }
    }
    if current != "" {
      parts := parts + [current];
    }
  }

  // ",".join(parts)
  function Join(parts: seq<string>): string {
    if |parts| == 0 then ""
    else if |parts| == 1 then parts[0]
    else parts[0] + "," + Join(parts[1..])
  }

  // A tail, then that tail with ever more of the components put in front of
  // it from the right: all of them but the first.
  function Tails(parts: seq<string>, tail: string): (r: seq<string>)
    ensures |r| == |parts|
  {
    if |parts| == 0 then []
    else [tail] + Tails(parts[..|parts| - 1], parts[|parts| - 1] + "," + tail)
  }

  predicate UnderBase(dn: string, base: string) {
    |base| <= |dn| && Lower(dn[|dn| - |base|..]) == Lower(base)
  }

  function Relative(dn: string, base: string): string
    requires UnderBase(dn, base)
  {
    if |dn| > |base| then dn[..|dn| - (|base| + 1)] else ""
  }

  function Chain(dn: string, base: string): seq<string> {
    if !UnderBase(dn, base) then []
    else
      var parts := Parts(Relative(dn, base));
      if |parts| == 0 then [base] else Tails(parts, base)
  }

  // A chain built so far, and what the components still to come will add.
  ghost function Built(chain: seq<string>, left: seq<string>): seq<string>
    requires |chain| > 0
  {
    chain[..|chain| - 1] + Tails(left, chain[|chain| - 1])
  }

  lemma TailsSnoc(parts: seq<string>, last: string, tail: string)
    ensures Tails(parts + [last], tail) == [tail] + Tails(parts, last + "," + tail)
  {
    assert (parts + [last])[..|parts|] == parts;
  }

  lemma BuiltStep(chain: seq<string>, all: seq<string>, index: nat)
    requires |chain| > 0 && index + 1 < |all|
    ensures Built(chain, all[..index + 2])
      == Built(chain + [all[index + 1] + "," + chain[|chain| - 1]], all[..index + 1])
  {
    SliceSnoc(all, 0, index + 2);
    var tail := chain[|chain| - 1];
    TailsSnoc(all[..index + 1], all[index + 1], tail);
    assert chain == chain[..|chain| - 1] + [tail];
  }

  lemma JoinStep(parts: seq<string>, base: string, index: nat)
    requires index < |parts|
    ensures Join(parts[index..] + [base]) == parts[index] + "," + Join(parts[index + 1..] + [base])
  {
    assert (parts[index..] + [base])[1..] == parts[index + 1..] + [base];
  }

  // The loop of container_chain: `all` is the split name, whose first
  // component is the object's own and is left out.
  method Climb(all: seq<string>, base: string) returns (chain: seq<string>)
    requires |all| > 0
    ensures chain == Tails(all, base)
  {
    var parts := all[1..];
    chain := [base];
    var index := |parts|;
    assert parts[index..] + [base] == [base] && all[..index + 1] == all;
    while index > 0
      invariant 0 <= index <= |parts|
      invariant |chain| > 0 && chain[|chain| - 1] == Join(parts[index..] + [base])
      invariant Built(chain, all[..index + 1]) == Tails(all, base)
    {
      index := index - 1;
      BuiltStep(chain, all, index);
      JoinStep(parts, base, index);
      chain := chain + [Join(parts[index..] + [base])];
    }
  }

  method ContainerChain(dn: string, base: string) returns (chain: seq<string>)
    ensures chain == Chain(dn, base)
  {
    if |dn| < |base| || Lower(dn[|dn| - |base|..]) != Lower(base) {
      return [];
    }
    var relative := if |dn| > |base| then dn[..|dn| - (|base| + 1)] else "";
    var parts := SplitDn(relative);
    if |parts| == 0 {
      return [base];
    }
    chain := Climb(parts, base);
  }

  // ------------------------------------------------------------ meaning ----

  // The containers above an object: what is left of its name after each
  // unescaped comma before position n, the shortest first.
  function Ancestors(dn: string, n: nat): seq<string>
    requires n <= |dn|
  {
    if n == 0 then []
    else (if IsCut(dn, n - 1) then [dn[n..]] else []) + Ancestors(dn, n - 1)
  }

  lemma OpenStep(dn: string, n: nat)
    requires 0 < n <= |dn|
    ensures Open(dn, n - 1) + dn[n - 1..]
         == if IsCut(dn, n - 1) then Open(dn, n - 1) + "," + dn[n..] else Open(dn, n) + dn[n..]
  {
    assert dn[n - 1..] == [dn[n - 1]] + dn[n..];
  }

  // Splitting loses nothing: the components put back together from the right
  // are what follows each cut.
  lemma {:induction false} AncestorsAreTails(dn: string, n: nat)
    requires n <= |dn|
    ensures Ancestors(dn, n) == Tails(Closed(dn, n), Open(dn, n) + dn[n..])
  {
    if n > 0 {
      AncestorsAreTails(dn, n - 1);
      OpenStep(dn, n);
      if IsCut(dn, n - 1) {
        TailsSnoc(Closed(dn, n - 1), Open(dn, n - 1), dn[n..]);
        assert Open(dn, n) + dn[n..] == dn[n..];
      }
    }
  }

  lemma {:induction false} SamePrefix(s: string, t: string, n: nat)
    requires n <= |s| <= |t| && t[..|s|] == s
    ensures Escaped(s, n) == Escaped(t, n)
    ensures Closed(s, n) == Closed(t, n) && Open(s, n) == Open(t, n)
  {
    if n > 0 {
      SamePrefix(s, t, n - 1);
      assert s[n - 1] == t[..|s|][n - 1] == t[n - 1];
    }
  }

  // When the chain is right: the comma in front of the base separates (it is
  // not escaped), and no empty component stands before it.
  predicate CutsCleanly(rel: string) {
    !Escaped(rel, |rel|) && (rel == "" || !IsCut(rel, |rel| - 1))
  }

  lemma SplitOffBase(rel: string, tail: string, base: string)
    requires Lower(tail) == Lower(base)
    ensures UnderBase(rel + "," + tail, base) && Relative(rel + "," + tail, base) == rel
  {
    var dn := rel + "," + tail;
    assert |tail| == |Lower(tail)| == |base|;
    assert dn[|dn| - |base|..] == tail;
    assert dn[..|dn| - (|base| + 1)] == rel;
  }

  lemma {:induction false} TailsFold(parts: seq<string>, t: string, u: string)
    requires Lower(t) == Lower(u)
    ensures Map(Lower, Tails(parts, t)) == Map(Lower, Tails(parts, u))
  {
    if |parts| > 0 {
      var last := parts[|parts| - 1] + ",";
      LowerConcat(last, t);
      LowerConcat(last, u);
      TailsFold(parts[..|parts| - 1], last + t, last + u);
      MapConcat(Lower, [t], Tails(parts[..|parts| - 1], last + t));
      MapConcat(Lower, [u], Tails(parts[..|parts| - 1], last + u));
    }
  }

  lemma CleanAncestors(rel: string, tail: string)
    requires CutsCleanly(rel) && rel != ""
    ensures Ancestors(rel + "," + tail, |rel| + 1) == Tails(Parts(rel), tail)
  {
    var dn := rel + "," + tail;
    var last := Open(rel, |rel|);
    SamePrefix(rel, dn, |rel|);
    AncestorsAreTails(dn, |rel|);
    assert dn[|rel| + 1..] == tail && dn[|rel|..] == "," + tail;
    assert last + ("," + tail) == last + "," + tail;
    TailsSnoc(Closed(rel, |rel|), last, tail);
  }

  lemma HeadOnly(tail: string)
    ensures Ancestors("" + "," + tail, 1) == [tail]
  {
    var dn := "" + "," + tail;
    assert dn[1..] == tail;
    assert Ancestors(dn, 0) == [] && IsCut(dn, 0);
  }

  lemma MessyAncestors(rel: string, tail: string)
    requires !CutsCleanly(rel)
    ensures |Parts(rel)| > 0 && |Ancestors(rel + "," + tail, |rel| + 1)| != |Parts(rel)|
  {
    var dn := rel + "," + tail;
    SamePrefix(rel, dn, |rel|);
    AncestorsAreTails(dn, |rel| + 1);
  }

  /** The chain of a name that ends in a comma and the base is the list of its
      ancestors, head first, exactly when that comma separates and the
      component before it is not an empty one after another comma. */
  lemma ChainIsAncestors(rel: string, tail: string, base: string)
    requires Lower(tail) == Lower(base)
    ensures Map(Lower, Chain(rel + "," + tail, base)) == Map(Lower, Ancestors(rel + "," + tail, |rel| + 1))
      <==> CutsCleanly(rel)
    ensures tail == base && CutsCleanly(rel)
      ==> Chain(rel + "," + tail, base) == Ancestors(rel + "," + tail, |rel| + 1)
  {
    SplitOffBase(rel, tail, base);
    if CutsCleanly(rel) {
      if rel == "" {
        HeadOnly(tail);
      } else {
        CleanAncestors(rel, tail);
      }
      TailsFold(Parts(rel), tail, base);
    } else {
      MessyAncestors(rel, tail);
      var chain, above := Map(Lower, Chain(rel + "," + tail, base)), Map(Lower, Ancestors(rel + "," + tail, |rel| + 1));
      assert |chain| != |above|;
    }
  }

  // Both ways of failing happen: an escaped comma in front of the base, which
  // the chain takes for a cut, and an empty last component, which it drops.
  lemma ChainMissesAncestors()
    ensures Chain("CN=a\\" + "," + "DC=x", "DC=x") != Ancestors("CN=a\\" + "," + "DC=x", 6)
    ensures Chain("CN=a," + "," + "DC=x", "DC=x") != Ancestors("CN=a," + "," + "DC=x", 6)
  {
    assert "CN=a\\"[4] == '\\' && Escaped("CN=a\\", 5);
    assert "CN=a,"[4] == ',' && !Escaped("CN=a,", 4);
    ChainIsAncestors("CN=a\\", "DC=x", "DC=x");
    ChainIsAncestors("CN=a,", "DC=x", "DC=x");
  }

  lemma {:induction false} TailsGrow(parts: seq<string>, tail: string)
    ensures forall i :: 0 <= i < |parts| ==> |Tails(parts, tail)[i]| >= |tail|
    ensures forall i, j :: 0 <= i < j < |parts| ==> |Tails(parts, tail)[i]| < |Tails(parts, tail)[j]|
  {
    if |parts| > 0 {
      TailsGrow(parts[..|parts| - 1], parts[|parts| - 1] + "," + tail);
    }
  }

  // Each container's name is longer than the one before it, so no chain
  // visits a container twice, however the names are cased.
  lemma ChainHasNoRepeats(dn: string, base: string)
    ensures var chain := Chain(dn, base);
      forall i, j :: 0 <= i < j < |chain| ==> Lower(chain[i]) != Lower(chain[j])
  {
    var chain := Chain(dn, base);
    if UnderBase(dn, base) {
      TailsGrow(Parts(Relative(dn, base)), base);
    }
    forall i, j | 0 <= i < j < |chain| ensures Lower(chain[i]) != Lower(chain[j]) {
      assert |Lower(chain[i])| < |Lower(chain[j])|;
    }
  }

  // ------------------------------------------------------ in plain terms ----

  /** A character is escaped when an odd number of backslashes stands right
      before it. */
  lemma {:induction false} EscapedExactly(s: string, i: nat, k: nat)
    requires k <= i <= |s| && (forall j :: i - k <= j < i ==> s[j] == '\\') && (k < i ==> s[i - k - 1] != '\\')
    ensures Escaped(s, i) <==> k % 2 == 1
  {
    if k > 0 {
      EscapedExactly(s, i - 1, k - 1);
    }
  }

  // The comma at i separates.
  predicate Separates(dn: string, i: int) {
    0 <= i < |dn| && dn[i] == ',' && !Escaped(dn, i)
  }

  /** The ancestors of a name are what follows each comma that is not escaped,
      shortest first. */
  lemma {:induction false} AncestorsExactly(dn: string, n: nat, a: string)
    requires n <= |dn|
    ensures a in Ancestors(dn, n) <==> exists i :: 0 <= i < n && Separates(dn, i) && a == dn[i + 1..]
  {
    if n > 0 {
      AncestorsExactly(dn, n - 1, a);
      assert IsCut(dn, n - 1) <==> Separates(dn, n - 1);
    }
  }

  lemma {:induction false} AncestorsGrow(dn: string, n: nat)
    requires n <= |dn|
    ensures forall k :: 0 <= k < |Ancestors(dn, n)| ==> |Ancestors(dn, n)[k]| >= |dn| - n
    ensures forall j, k :: 0 <= j < k < |Ancestors(dn, n)| ==> |Ancestors(dn, n)[j]| < |Ancestors(dn, n)[k]|
  {
    if n > 0 {
      AncestorsGrow(dn, n - 1);
    }
  }

  /** A name that does not end in the base has no chain; the base itself, and
      what is only one component and it, has the base alone. What stands in
      front of the base is not looked at, and taken for a comma. */
  lemma ChainOfOthers(dn: string, base: string, rel: string, c: char)
    ensures |dn| < |base| || Lower(dn[|dn| - |base|..]) != Lower(base) ==> Chain(dn, base) == []
    ensures Lower(dn) == Lower(base) ==> Chain(dn, base) == [base]
    ensures Chain(rel + [c] + base, base) == Chain(rel + "," + base, base)
  {
    assert Lower(dn) == Lower(base) ==> |dn| == |base| && dn[0..] == dn;
    var a, b := rel + [c] + base, rel + "," + base;
    assert a[|a| - |base|..] == base && b[|b| - |base|..] == base;
    assert a[..|a| - (|base| + 1)] == rel && b[..|b| - (|base| + 1)] == rel;
  }
}
