/** A stable sort by key, as Python's `sorted` with a `key` is. */
module StableSort {
  import opened Text

  datatype Key = Key(major: int, minor: int)

  // Keys compare as tuples do: by the first part, then by the second.
  predicate Less(a: Key, b: Key) {
    a.major < b.major || (a.major == b.major && a.minor < b.minor)
  }

  // Before the first element whose key is not smaller.
  function Insert<T>(key: T -> Key, x: T, s: seq<T>): seq<T> {
    if |s| == 0 || !Less(key(s[0]), key(x)) then [x] + s
    else [s[0]] + Insert(key, x, s[1..])
  }

  function Sort<T>(key: T -> Key, s: seq<T>): seq<T> {
    if |s| == 0 then [] else Insert(key, s[0], Sort(key, s[1..]))
  }

  lemma {:induction false} InsertKeeps<T>(key: T -> Key, x: T, s: seq<T>)
    ensures multiset(Insert(key, x, s)) == multiset{x} + multiset(s)
  {
    if |s| == 0 || !Less(key(s[0]), key(x)) {
    } else {
      InsertKeeps(key, x, s[1..]);
      assert s == [s[0]] + s[1..];
    }
  }

  lemma {:induction false} SortKeeps<T>(key: T -> Key, s: seq<T>)
    ensures multiset(Sort(key, s)) == multiset(s)
    ensures |Sort(key, s)| == |s|
  {
    if |s| > 0 {
      SortKeeps(key, s[1..]);
      InsertKeeps(key, s[0], Sort(key, s[1..]));
      assert s == [s[0]] + s[1..];
    }
    assert |multiset(Sort(key, s))| == |multiset(s)|;
  }

  lemma SortMember<T>(key: T -> Key, s: seq<T>, x: T)
    ensures x in Sort(key, s) <==> x in s
  {
    SortKeeps(key, s);
    assert x in Sort(key, s) <==> x in multiset(Sort(key, s));
    assert x in s <==> x in multiset(s);
  }

  // What a stable sort leaves between an element and a later one: a smaller
  // key, or the same key and the order they came in.
  ghost function Ranked<T>(key: T -> Key, r: (T, T) -> bool): (T, T) -> bool {
    (x, y) => Less(key(x), key(y)) || (key(x) == key(y) && r(x, y))
  }

  lemma RankedMeans<T>(key: T -> Key, r: (T, T) -> bool, x: T, y: T)
    requires Ranked(key, r)(x, y)
    ensures Less(key(x), key(y)) || (key(x) == key(y) && r(x, y))
  {
  }

  lemma {:induction false} InsertRanked<T>(key: T -> Key, r: (T, T) -> bool, x: T, s: seq<T>)
    requires Pairwise(Ranked(key, r), s)
    requires forall i :: 0 <= i < |s| ==> r(x, s[i])
    ensures Pairwise(Ranked(key, r), Insert(key, x, s))
  {
    if |s| == 0 {
    } else if !Less(key(s[0]), key(x)) {
      forall j | 0 <= j < |s| ensures Ranked(key, r)(x, s[j]) {
        assert Less(key(x), key(s[0])) || key(x) == key(s[0]);
        assert r(x, s[j]);
        if j > 0 {
          assert Ranked(key, r)(s[0], s[j]);
          assert Less(key(s[0]), key(s[j])) || key(s[0]) == key(s[j]);
        }
        assert Less(key(x), key(s[j])) || key(x) == key(s[j]);
      }
    } else {
      InsertRanked(key, r, x, s[1..]);
      var rest := Insert(key, x, s[1..]);
      InsertKeeps(key, x, s[1..]);
      forall j | 0 <= j < |rest| ensures Ranked(key, r)(s[0], rest[j]) {
        assert rest[j] in multiset(rest);
        assert rest[j] == x || rest[j] in s[1..];
      }
    }
  }

  lemma {:induction false} SortRanked<T>(key: T -> Key, r: (T, T) -> bool, s: seq<T>)
    requires Pairwise(r, s)
    ensures Pairwise(Ranked(key, r), Sort(key, s))
  {
    if |s| > 0 {
      SortRanked(key, r, s[1..]);
      var rest := Sort(key, s[1..]);
      forall i | 0 <= i < |rest| ensures r(s[0], rest[i]) {
        SortMember(key, s[1..], rest[i]);
      }
      InsertRanked(key, r, s[0], Sort(key, s[1..]));
    }
  }

  lemma {:induction false} InsertMap<A(!new), B>(f: A -> B, kb: B -> Key, ka: A -> Key, x: A, s: seq<A>)
    requires forall y :: ka(y) == kb(f(y))
    ensures Insert(kb, f(x), Map(f, s)) == Map(f, Insert(ka, x, s))
  {
    if |s| == 0 || !Less(ka(s[0]), ka(x)) {
    } else {
      InsertMap(f, kb, ka, x, s[1..]);
      assert Map(f, s)[1..] == Map(f, s[1..]);
    }
  }

  // Sorting commutes with relabelling the elements.
  lemma {:induction false} SortMap<A(!new), B>(f: A -> B, kb: B -> Key, ka: A -> Key, s: seq<A>)
    requires forall y :: ka(y) == kb(f(y))
    ensures Sort(kb, Map(f, s)) == Map(f, Sort(ka, s))
  {
    if |s| > 0 {
      SortMap(f, kb, ka, s[1..]);
      assert Map(f, s)[1..] == Map(f, s[1..]);
      InsertMap(f, kb, ka, s[0], Sort(ka, s[1..]));
    }
  }
}
