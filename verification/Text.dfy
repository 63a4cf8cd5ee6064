/** Options and results, and the few operations on text the other modules share. */
module Text {

  datatype Option<+T> = None | Some(value: T)

  datatype Result<+T, +F> = Ok(value: T) | Err(fault: F)

  function Lookup<V>(m: map<string, V>, key: string): Option<V> {
    if key in m then Some(m[key]) else None
  }

  function LookupOr<V>(m: map<string, V>, key: string, default: V): V {
    if key in m then m[key] else default
  }

  // Case folding over the ASCII letters only.
  function LowerChar(c: char): char {
    if 'A' <= c <= 'Z' then (c as int + 32) as char else c
  }

  function Lower(s: string): (r: string)
    ensures |r| == |s|
    ensures forall i :: 0 <= i < |s| ==> r[i] == LowerChar(s[i])
  {
    seq(|s|, i requires 0 <= i < |s| => LowerChar(s[i]))
  }

  // Some names, whatever their case.
  function Folded(names: seq<string>): set<string> {
    set n | n in names :: Lower(n)
  }

  lemma LowerConcat(a: string, b: string)
    ensures Lower(a + b) == Lower(a) + Lower(b)
  {
  }

  predicate IsSpace(c: char) {
    c == ' ' || '\t' <= c <= '\r'
  }

  // The text without white space at either end.
  function Strip(s: string): string {
    if |s| > 0 && IsSpace(s[0]) then Strip(s[1..])
    else if |s| > 0 && IsSpace(s[|s| - 1]) then Strip(s[..|s| - 1])
    else s
  }

  // The letters, and the white space, that are meant.
  lemma CharactersExactly(c: char)
    ensures 'A' <= c <= 'Z' ==> LowerChar(c) == "abcdefghijklmnopqrstuvwxyz"[c as int - 'A' as int]
    ensures !('A' <= c <= 'Z') ==> LowerChar(c) == c
    ensures IsSpace(c) <==> c == ' ' || c == '\t' || c == '\n' || c as int == 11 || c as int == 12 || c == '\r'
  {
  }

  // What is left by taking off only white space, and all of it, at both ends.
  ghost predicate StripsTo(s: string, i: nat, j: nat) {
    && i <= j <= |s| && Strip(s) == s[i..j]
    && (forall k :: 0 <= k < i || j <= k < |s| ==> IsSpace(s[k]))
    && (i < j ==> !IsSpace(s[i]) && !IsSpace(s[j - 1]))
  }

  lemma StripsFront(s: string, i: nat, j: nat)
    requires |s| > 0 && IsSpace(s[0]) && StripsTo(s[1..], i, j)
    ensures StripsTo(s, i + 1, j + 1)
  {
    assert s[1..][i..j] == s[i + 1..j + 1];
    assert forall k :: 1 <= k < |s| ==> s[k] == s[1..][k - 1];
  }

  lemma StripsBack(s: string, i: nat, j: nat)
    requires |s| > 0 && !IsSpace(s[0]) && IsSpace(s[|s| - 1]) && StripsTo(s[..|s| - 1], i, j)
    ensures StripsTo(s, i, j)
  {
    assert s[..|s| - 1][i..j] == s[i..j];
    assert forall k :: 0 <= k < |s| - 1 ==> s[k] == s[..|s| - 1][k];
  }

  lemma {:induction false} StripMeans(s: string) returns (i: nat, j: nat)
    ensures StripsTo(s, i, j)
    decreases |s|
  {
    i, j := 0, |s|;
    if |s| > 0 && IsSpace(s[0]) {
      i, j := StripMeans(s[1..]);
      StripsFront(s, i, j);
      i, j := i + 1, j + 1;
    } else if |s| > 0 && IsSpace(s[|s| - 1]) {
      i, j := StripMeans(s[..|s| - 1]);
      StripsBack(s, i, j);
    }
  }

  // The text before the first c, all of it when there is none.
  function UpTo(s: string, c: char): string {
    if |s| == 0 || s[0] == c then "" else [s[0]] + UpTo(s[1..], c)
  }

  lemma {:induction false} UpToFirst(head: string, rest: string, c: char)
    requires c !in head && (rest == "" || rest[0] == c)
    ensures UpTo(head + rest, c) == head
  {
    if |head| > 0 {
      UpToFirst(head[1..], rest, c);
      assert (head + rest)[1..] == head[1..] + rest;
    } else {
      assert head + rest == rest;
    }
  }

  lemma UpToPrefix(text: string, c: char)
    ensures UpTo(text, c) <= text && c !in UpTo(text, c)
    ensures |UpTo(text, c)| < |text| ==> text[|UpTo(text, c)|] == c
  {
    if |text| > 0 && text[0] != c {
      UpToPrefix(text[1..], c);
    }
  }

  lemma UpToAll(text: string, c: char)
    requires c !in text
    ensures UpTo(text, c) == text
  {
    UpToFirst(text, "", c);
    assert text + "" == text;
  }

  // What a pattern that ends in `$` is matched against: a newline at the very
  // end does not count.
  function Chopped(s: string): string {
    if |s| > 0 && s[|s| - 1] == '\n' then s[..|s| - 1] else s
  }

  lemma SliceSnoc<T>(s: seq<T>, i: nat, n: nat)
    requires i < n <= |s|
    ensures s[i..n] == s[i..n - 1] + [s[n - 1]]
  {
  }

  lemma Associative<T>(a: seq<T>, b: seq<T>, c: seq<T>)
    ensures a + b + c == a + (b + c)
  {
  }

  function Map<A, B>(f: A -> B, s: seq<A>): (r: seq<B>)
    ensures |r| == |s|
    ensures forall i :: 0 <= i < |s| ==> r[i] == f(s[i])
  {
    seq(|s|, i requires 0 <= i < |s| => f(s[i]))
  }

  lemma MapConcat<A, B>(f: A -> B, s: seq<A>, t: seq<A>)
    ensures Map(f, s + t) == Map(f, s) + Map(f, t)
  {
  }

  function Filter<T>(keep: T -> bool, s: seq<T>): seq<T> {
    if |s| == 0 then []
    else Filter(keep, s[..|s| - 1]) + (if keep(s[|s| - 1]) then [s[|s| - 1]] else [])
  }

  lemma {:induction false} FilterMember<T>(keep: T -> bool, s: seq<T>, x: T)
    ensures x in Filter(keep, s) <==> x in s && keep(x)
  {
    if |s| > 0 {
      FilterMember(keep, s[..|s| - 1], x);
      assert s == s[..|s| - 1] + [s[|s| - 1]];
    }
  }

  lemma FilterSnoc<T>(keep: T -> bool, s: seq<T>, x: T)
    ensures keep(x) ==> Filter(keep, s + [x]) == Filter(keep, s) + [x]
    ensures !keep(x) ==> Filter(keep, s + [x]) == Filter(keep, s)
  {
    assert (s + [x])[..|s|] == s;
  }

  // Whether every element stands in the relation to every later one.
  ghost predicate Pairwise<T>(r: (T, T) -> bool, s: seq<T>) {
    forall i, j :: 0 <= i < j < |s| ==> r(s[i], s[j])
  }

  lemma {:induction false} FilterPairwise<T>(r: (T, T) -> bool, keep: T -> bool, s: seq<T>)
    requires Pairwise(r, s)
    ensures Pairwise(r, Filter(keep, s))
  {
    if |s| > 0 {
      var rest := Filter(keep, s[..|s| - 1]);
      FilterPairwise(r, keep, s[..|s| - 1]);
      forall i | 0 <= i < |rest| ensures r(rest[i], s[|s| - 1]) {
        FilterMember(keep, s[..|s| - 1], rest[i]);
      }
    }
  }
}
