/** Which policy object decides a setting (api/odm/policy.py): resolving the
    order and then letting later objects overwrite earlier ones comes to
    picking, for each entry and each key, the placement with the highest
    precedence that speaks on it. */
module PolicyWinner {
  import opened Text
  import opened PolicyModel
  import opened PolicyOrder
  import opened PolicyMerge

  function Says<T>(x: Domain, said: Gpo -> Option<T>, p: Placement): Option<T> {
    said(GpoOf(x, p))
  }

  // p has a say on the question and beats every other placement that does.
  ghost predicate Wins<T>(x: Domain, said: Gpo -> Option<T>, p: Placement) {
    && Applies(x, p) && Says(x, said, p).Some?
    && forall q :: Applies(x, q) && Says(x, said, q).Some? && q != p ==> Beats(x, p, q)
  }

  ghost predicate IsLast<T>(x: Domain, said: Gpo -> Option<T>, s: seq<Placement>, k: int) {
    0 <= k < |s| && Says(x, said, s[k]).Some? && forall j :: k < j < |s| ==> Says(x, said, s[j]).None?
  }

  lemma LastSaidSnoc<T>(x: Domain, said: Gpo -> Option<T>, s: seq<Placement>)
    requires |s| > 0
    ensures LastSaid(said, Map(GpoAt(x), s))
      == if Says(x, said, s[|s| - 1]).Some? then Says(x, said, s[|s| - 1])
         else LastSaid(said, Map(GpoAt(x), s[..|s| - 1]))
  {
    assert Map(GpoAt(x), s)[..|s| - 1] == Map(GpoAt(x), s[..|s| - 1]);
  }

  lemma {:induction false} LastOfPlacements<T>(x: Domain, said: Gpo -> Option<T>, s: seq<Placement>)
    ensures var last := LastSaid(said, Map(GpoAt(x), s));
      if last.None? then forall k :: 0 <= k < |s| ==> Says(x, said, s[k]).None?
      else exists k :: IsLast(x, said, s, k) && Says(x, said, s[k]) == last
  {
    if |s| > 0 {
      var front := s[..|s| - 1];
      LastOfPlacements(x, said, front);
      LastSaidSnoc(x, said, s);
      if Says(x, said, s[|s| - 1]).Some? {
        assert IsLast(x, said, s, |s| - 1);
      } else if LastSaid(said, Map(GpoAt(x), front)).Some? {
        var k :| IsLast(x, said, front, k) && Says(x, said, front[k]) == LastSaid(said, Map(GpoAt(x), front));
        assert IsLast(x, said, s, k);
      }
    }
  }

  /** Overwriting in the order of application leaves what the winner says, and
      leaves nothing exactly when nobody has a say. */
  lemma WinnerDecides<T>(x: Domain, said: Gpo -> Option<T>)
    ensures var last := LastSaid(said, Map(GpoAt(x), Ordered(x)));
      && (last.None? <==> forall p :: Applies(x, p) ==> Says(x, said, p).None?)
      && (last.Some? ==> exists p :: Wins(x, said, p))
      && forall p :: Wins(x, said, p) ==> Says(x, said, p) == last
  {
    var s := Ordered(x);
    var last := LastSaid(said, Map(GpoAt(x), s));
    LastOfPlacements(x, said, s);
    forall p ensures p in s <==> Applies(x, p) {
      OrderedMembers(x, p);
    }
    if last.Some? {
      var k :| IsLast(x, said, s, k) && Says(x, said, s[k]) == last;
      LastWins(x, said, k);
      forall p | Wins(x, said, p) ensures p == s[k] {
        OneWinner(x, said, p, s[k]);
      }
    }
  }

  lemma LastWins<T>(x: Domain, said: Gpo -> Option<T>, k: nat)
    requires IsLast(x, said, Ordered(x), k)
    ensures Wins(x, said, Ordered(x)[k])
  {
    var s := Ordered(x);
    OrderedMembers(x, s[k]);
    OrderedByPrecedence(x);
    forall q | Applies(x, q) && Says(x, said, q).Some? && q != s[k] ensures Beats(x, s[k], q) {
      OrderedMembers(x, q);
      var i :| 0 <= i < |s| && s[i] == q;
      assert i < k;
    }
  }

  lemma OneWinner<T>(x: Domain, said: Gpo -> Option<T>, p: Placement, q: Placement)
    requires Wins(x, said, p) && Wins(x, said, q)
    ensures p == q
  {
    assert p == q || (Beats(x, p, q) && Beats(x, q, p));
  }

  // The settings of the document an agent is handed, and why objects that
  // were considered are not in it.
  method EffectiveSettings(x: Domain)
    returns (merged: Merged, lists: map<string, seq<Item>>, skipped: seq<Skip>)
    ensures forall c :: Agrees(merged, Seen(x), Map(GpoAt(x), Ordered(x)), c)
    ensures forall c :: c in merged.lists ==> Tidy(c, merged.lists[c])
    ensures lists.Keys == merged.lists.Keys && forall c :: c in lists ==> lists[c] == merged.lists[c].Values()
    ensures skipped == Map(RefusedAs(x), Refused(x)) + Map(BlockedAs(x), Inherited(x))
  {
    var ordered;
    ordered, skipped := ResolveOrder(x);
    merged := MergeSettings(Seen(x), ordered);
    forall c | c in merged.lists ensures Tidy(c, merged.lists[c]) {
      assert Agrees(merged, Seen(x), ordered, c);
      ListIsTidy(Seen(x), ordered, c);
    }
    lists := FlattenLists(merged);
  }

  function Seen(x: Domain): Audience {
    Audience(x.matching, Some(x.target))
  }

  /** The entry left under an identity of a list category is the one the
      winner has for it, it is listed once, and none is left exactly when no
      applying object has one. */
  lemma ListEntryIsWinners(x: Domain, category: string, id: string, merged: Merged)
    requires Agrees(merged, Seen(x), Map(GpoAt(x), Ordered(x)), category)
    ensures var now := ItemAt(Lookup(merged.lists, category), id); var said := ItemSaid(Seen(x), category, id);
      && (now.None? <==> forall p :: Applies(x, p) ==> Says(x, said, p).None?)
      && (now.Some? ==> exists p :: Wins(x, said, p))
      && forall p :: Wins(x, said, p) ==> now == Says(x, said, p)
    ensures category in merged.lists ==> Tidy(category, merged.lists[category])
  {
    ListIsLastSaid(Seen(x), Map(GpoAt(x), Ordered(x)), category, id);
    ListIsTidy(Seen(x), Map(GpoAt(x), Ordered(x)), category);
    WinnerDecides(x, ItemSaid(Seen(x), category, id));
  }

  /** What a key of a dictionary category holds is of the kind the winner for
      the key set, and when that is not fields it is just what the winner set. */
  lemma DictKeyIsWinners(x: Domain, category: string, key: string, merged: Merged)
    requires Agrees(merged, Seen(x), Map(GpoAt(x), Ordered(x)), category)
    ensures var now := SubAt(Lookup(merged.dicts, category), key); var said := SubSaid(category, key);
      && (now.None? <==> forall p :: Applies(x, p) ==> Says(x, said, p).None?)
      && (now.Some? ==> exists p :: Wins(x, said, p))
      && forall p :: Wins(x, said, p) ==> SameKind(now, Says(x, said, p))
  {
    DictIsLastSaid(Map(GpoAt(x), Ordered(x)), category, key, "");
    WinnerDecides(x, SubSaid(category, key));
  }

  /** Each field one level below a key comes from the winner for that field,
      among the objects that set it or that set the key to no fields at all. */
  lemma DictFieldIsWinners(x: Domain, category: string, key: string, field: string, merged: Merged)
    requires Agrees(merged, Seen(x), Map(GpoAt(x), Ordered(x)), category)
    ensures var now := FieldOf(SubAt(Lookup(merged.dicts, category), key), field);
      var said := FieldSaid(category, key, field);
      && (now.Some? ==> exists p :: Wins(x, said, p))
      && (forall p :: Wins(x, said, p) ==> now == Says(x, said, p).value)
      && ((forall p :: Applies(x, p) ==> Says(x, said, p).None?) ==> now.None?)
  {
    DictIsLastSaid(Map(GpoAt(x), Ordered(x)), category, key, field);
    WinnerDecides(x, FieldSaid(category, key, field));
  }

  lemma PlainIsWinners(x: Domain, category: string, merged: Merged)
    requires Agrees(merged, Seen(x), Map(GpoAt(x), Ordered(x)), category)
    ensures var now := Lookup(merged.plain, category); var said := PlainSaid(category);
      && (now.None? <==> forall p :: Applies(x, p) ==> Says(x, said, p).None?)
      && forall p :: Wins(x, said, p) ==> now == Says(x, said, p)
  {
    PlainIsLastSaid(Map(GpoAt(x), Ordered(x)), category);
    WinnerDecides(x, PlainSaid(category));
  }
}
