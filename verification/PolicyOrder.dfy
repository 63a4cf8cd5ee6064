/** The order Group Policy objects are applied in (api/odm/policy.py,
    resolve_order), and what that order means. */
module PolicyOrder {
  import opened Text
  import opened StableSort
  import opened PolicyModel

  // What resolve_order is given.
  datatype Domain = Domain(
    chain: seq<string>, links: seq<Link>, gpos: map<string, Gpo>, blocked: set<string>,
    target: Target, matching: Matching)

  // A link met at one depth of the chain, named by its place in `links`.
  datatype Placement = Placement(depth: nat, index: nat)

  datatype Skip = Skip(guid: string, name: string, reason: string)

  ghost predicate Met(x: Domain, p: Placement) {
    && p.depth < |x.chain| && p.index < |x.links|
    && Lower(x.links[p.index].target) == Lower(x.chain[p.depth])
    && x.links[p.index].gpo in x.gpos
  }

  function LinkOf(x: Domain, p: Placement): Link {
    if p.index < |x.links| then x.links[p.index] else Link("", "", 0, false, false)
  }

  const NOBODY := Gpo("", "", false, map[], [], Targeting([], "", [], []))

  function GpoOf(x: Domain, p: Placement): Gpo {
    if LinkOf(x, p).gpo in x.gpos then x.gpos[LinkOf(x, p).gpo] else NOBODY
  }

  // None when the link's object is applied as far as the link and its scope
  // go, else why not.
  function WhyNot(x: Domain, p: Placement): Option<string> {
    if !LinkOf(x, p).enabled then Some("link disabled")
    else OutOfScope(x.matching, GpoOf(x, p), x.target)
  }

  // The index of the deepest blocked container, -1 when none is.
  function DeepestBlocked(x: Domain, n: nat): (r: int)
    requires n <= |x.chain|
    ensures -1 <= r < n
  {
    if n == 0 then -1
    else if Lower(x.chain[n - 1]) in (set b | b in x.blocked :: Lower(b)) then n - 1
    else DeepestBlocked(x, n - 1)
  }

  predicate CutOff(x: Domain, p: Placement) {
    !LinkOf(x, p).enforced && p.depth < DeepestBlocked(x, |x.chain|)
  }

  // --------------------------------------------------- the order itself ----

  // The links on one container, in the order they are listed.
  function LinksAt(x: Domain, depth: nat, n: nat): seq<Placement>
    requires depth < |x.chain| && n <= |x.links|
  {
    if n == 0 then []
    else if Lower(x.links[n - 1].target) == Lower(x.chain[depth])
    then LinksAt(x, depth, n - 1) + [Placement(depth, n - 1)]
    else LinksAt(x, depth, n - 1)
  }

  function ByLinkOrder(x: Domain): Placement -> Key {
    (p: Placement) => Key(-LinkOf(x, p).order, 0)
  }

  function Highest(): Placement -> Key {
    (p: Placement) => Key(-(p.depth as int), 0)
  }

  function Here(x: Domain, depth: nat): seq<Placement>
    requires depth < |x.chain|
  {
    Sort(ByLinkOrder(x), LinksAt(x, depth, |x.links|))
  }

  function Visits(x: Domain, n: nat): seq<Placement>
    requires n <= |x.chain|
  {
    if n == 0 then []
    else Visits(x, n - 1) + Here(x, n - 1)
  }

  function IsNormal(x: Domain): Placement -> bool {
    (p: Placement) => LinkOf(x, p).gpo in x.gpos && WhyNot(x, p).None? && !LinkOf(x, p).enforced
  }

  function IsEnforced(x: Domain): Placement -> bool {
    (p: Placement) => LinkOf(x, p).gpo in x.gpos && WhyNot(x, p).None? && LinkOf(x, p).enforced
  }

  function IsRefused(x: Domain): Placement -> bool {
    (p: Placement) => LinkOf(x, p).gpo in x.gpos && WhyNot(x, p).Some?
  }

  function IsCutOff(x: Domain): Placement -> bool {
    (p: Placement) => p.depth < DeepestBlocked(x, |x.chain|)
  }

  function IsKept(x: Domain): Placement -> bool {
    (p: Placement) => p.depth >= DeepestBlocked(x, |x.chain|)
  }

  function Ordered(x: Domain): seq<Placement> {
    var all := Visits(x, |x.chain|);
    Filter(IsKept(x), Filter(IsNormal(x), all)) + Sort(Highest(), Filter(IsEnforced(x), all))
  }

  function Refused(x: Domain): seq<Placement> {
    Filter(IsRefused(x), Visits(x, |x.chain|))
  }

  function Inherited(x: Domain): seq<Placement> {
    Filter(IsCutOff(x), Filter(IsNormal(x), Visits(x, |x.chain|)))
  }

  // ------------------------------------------------------------ meaning ----

  // Which of two placements has the higher precedence. An enforced link beats
  // one that is not; among enforced links the one nearer the head, among the
  // others the one nearer the object; on one container the lower link order,
  // and on a tie the link listed later.
  ghost predicate Beats(x: Domain, p: Placement, q: Placement) {
    if LinkOf(x, p).enforced != LinkOf(x, q).enforced then LinkOf(x, p).enforced
    else if p.depth != q.depth then LinkOf(x, p).enforced == (p.depth < q.depth)
    else if LinkOf(x, p).order != LinkOf(x, q).order then LinkOf(x, p).order < LinkOf(x, q).order
    else p.index > q.index
  }

  // A link that has a say: met in the chain, in scope, and not cut off by a
  // blocked container below it unless it is enforced.
  ghost predicate Applies(x: Domain, p: Placement) {
    Met(x, p) && WhyNot(x, p).None? && !CutOff(x, p)
  }

  ghost function Listed(): (Placement, Placement) -> bool {
    (p: Placement, q: Placement) => p.index < q.index
  }

  ghost function MetFirst(x: Domain): (Placement, Placement) -> bool {
    (p: Placement, q: Placement) =>
      p.depth < q.depth || (p.depth == q.depth && (
        LinkOf(x, p).order > LinkOf(x, q).order || (LinkOf(x, p).order == LinkOf(x, q).order && p.index < q.index)))
  }

  ghost function Weaker(x: Domain): (Placement, Placement) -> bool {
    (p: Placement, q: Placement) => Beats(x, q, p)
  }

  lemma {:induction false} LinksAtMembers(x: Domain, depth: nat, n: nat, p: Placement)
    requires depth < |x.chain| && n <= |x.links|
    ensures p in LinksAt(x, depth, n) <==>
      p.depth == depth && p.index < n && Lower(x.links[p.index].target) == Lower(x.chain[depth])
  {
    if n > 0 {
      LinksAtMembers(x, depth, n - 1, p);
    }
  }

  lemma {:induction false} LinksAtListed(x: Domain, depth: nat, n: nat)
    requires depth < |x.chain| && n <= |x.links|
    ensures Pairwise(Listed(), LinksAt(x, depth, n))
  {
    if n > 0 {
      LinksAtListed(x, depth, n - 1);
      var before := LinksAt(x, depth, n - 1);
      forall i | 0 <= i < |before| ensures before[i].index < n - 1 {
        LinksAtMembers(x, depth, n - 1, before[i]);
      }
    }
  }

  // Where a placement comes from: a link on that container of the chain.
  ghost predicate OnContainer(x: Domain, p: Placement, depth: nat) {
    && p.depth == depth < |x.chain| && p.index < |x.links|
    && Lower(x.links[p.index].target) == Lower(x.chain[depth])
  }

  lemma HereMembers(x: Domain, depth: nat, p: Placement)
    requires depth < |x.chain|
    ensures p in Here(x, depth) <==> OnContainer(x, p, depth)
  {
    LinksAtMembers(x, depth, |x.links|, p);
    SortMember(ByLinkOrder(x), LinksAt(x, depth, |x.links|), p);
  }

  lemma InEither(a: seq<Placement>, b: seq<Placement>, p: Placement)
    ensures p in a + b <==> p in a || p in b
  {
  }

  lemma {:induction false} VisitsMembers(x: Domain, n: nat, p: Placement)
    requires n <= |x.chain|
    ensures p in Visits(x, n) <==> p.depth < n && OnContainer(x, p, p.depth)
  {
    if n > 0 {
      var before, here := Visits(x, n - 1), Here(x, n - 1);
      assert Visits(x, n) == before + here;
      InEither(before, here, p);
      assert p in before <==> p.depth < n - 1 && OnContainer(x, p, p.depth) by {
        VisitsMembers(x, n - 1, p);
      }
      assert p in here <==> OnContainer(x, p, n - 1) by {
        HereMembers(x, n - 1, p);
      }
    }
  }

  // On one container: the higher link order first, and on a tie the link
  // listed first.
  lemma HereOrder(x: Domain, depth: nat)
    requires depth < |x.chain|
    ensures MetAt(x, Here(x, depth), depth)
  {
    var listed := LinksAt(x, depth, |x.links|);
    var here := Sort(ByLinkOrder(x), listed);
    LinksAtListed(x, depth, |x.links|);
    SortRanked(ByLinkOrder(x), Listed(), listed);
    forall j | 0 <= j < |here| ensures here[j].depth == depth {
      SortMember(ByLinkOrder(x), listed, here[j]);
      LinksAtMembers(x, depth, |x.links|, here[j]);
    }
    forall i, j | 0 <= i < j < |here| ensures MetFirst(x)(here[i], here[j]) {
      var p, q := here[i], here[j];
      RankedMeans(ByLinkOrder(x), Listed(), p, q);
      assert ByLinkOrder(x)(p).major == -LinkOf(x, p).order && ByLinkOrder(x)(q).major == -LinkOf(x, q).order;
    }
  }

  // Met one after the other, and above the n-th container.
  ghost predicate MetAbove(x: Domain, s: seq<Placement>, n: nat) {
    Pairwise(MetFirst(x), s) && forall i :: 0 <= i < |s| ==> s[i].depth < n
  }

  ghost predicate MetAt(x: Domain, s: seq<Placement>, depth: nat) {
    Pairwise(MetFirst(x), s) && forall i :: 0 <= i < |s| ==> s[i].depth == depth
  }

  lemma OrderStep(x: Domain, before: seq<Placement>, here: seq<Placement>, depth: nat)
    requires MetAbove(x, before, depth) && MetAt(x, here, depth)
    ensures MetAbove(x, before + here, depth + 1)
  {
    PairwiseConcat(MetFirst(x), before, here);
  }

  // What the first n containers' links are, one container after the other.
  function Stacked(groups: seq<seq<Placement>>): seq<Placement> {
    if |groups| == 0 then [] else Stacked(groups[..|groups| - 1]) + groups[|groups| - 1]
  }

  // Each group was met on its own container.
  ghost predicate MetInTurn(x: Domain, groups: seq<seq<Placement>>) {
    |groups| == 0
    || (MetInTurn(x, groups[..|groups| - 1]) && MetAt(x, groups[|groups| - 1], |groups| - 1))
  }

  lemma {:induction false} StackedOrder(x: Domain, groups: seq<seq<Placement>>)
    requires MetInTurn(x, groups)
    ensures MetAbove(x, Stacked(groups), |groups|)
  {
    if |groups| > 0 {
      var n := |groups| - 1;
      StackedOrder(x, groups[..n]);
      OrderStep(x, Stacked(groups[..n]), groups[n], n);
    }
  }

  lemma StackOneMore(x: Domain, groups: seq<seq<Placement>>, here: seq<Placement>)
    requires MetInTurn(x, groups) && MetAt(x, here, |groups|)
    ensures Stacked(groups + [here]) == Stacked(groups) + here && MetInTurn(x, groups + [here])
  {
    assert (groups + [here])[..|groups|] == groups;
  }

  lemma {:induction false} VisitsStacked(x: Domain, n: nat) returns (groups: seq<seq<Placement>>)
    requires n <= |x.chain|
    ensures |groups| == n && Stacked(groups) == Visits(x, n) && MetInTurn(x, groups)
  {
    groups := [];
    if n > 0 {
      var before := VisitsStacked(x, n - 1);
      HereOrder(x, n - 1);
      StackOneMore(x, before, Here(x, n - 1));
      groups := before + [Here(x, n - 1)];
    }
  }

  lemma VisitsOrder(x: Domain, n: nat)
    requires n <= |x.chain|
    ensures MetAbove(x, Visits(x, n), n)
  {
    var groups := VisitsStacked(x, n);
    StackedOrder(x, groups);
  }

  lemma PairwiseConcat<T>(r: (T, T) -> bool, s: seq<T>, t: seq<T>)
    requires Pairwise(r, s) && Pairwise(r, t)
    requires forall i, j :: 0 <= i < |s| && 0 <= j < |t| ==> r(s[i], t[j])
    ensures Pairwise(r, s + t)
  {
  }

  lemma OrderedMembers(x: Domain, p: Placement)
    ensures p in Ordered(x) <==> Applies(x, p)
    ensures p in Refused(x) <==> Met(x, p) && WhyNot(x, p).Some?
    ensures p in Inherited(x) <==> Met(x, p) && WhyNot(x, p).None? && CutOff(x, p)
  {
    var all := Visits(x, |x.chain|);
    VisitsMembers(x, |x.chain|, p);
    FilterMember(IsNormal(x), all, p);
    FilterMember(IsKept(x), Filter(IsNormal(x), all), p);
    FilterMember(IsCutOff(x), Filter(IsNormal(x), all), p);
    FilterMember(IsEnforced(x), all, p);
    FilterMember(IsRefused(x), all, p);
    SortMember(Highest(), Filter(IsEnforced(x), all), p);
  }

  lemma NormalOrder(x: Domain)
    ensures Pairwise(Weaker(x), Filter(IsKept(x), Filter(IsNormal(x), Visits(x, |x.chain|))))
  {
    var all := Visits(x, |x.chain|);
    var normal := Filter(IsNormal(x), all);
    var kept := Filter(IsKept(x), normal);
    VisitsOrder(x, |x.chain|);
    FilterPairwise(MetFirst(x), IsNormal(x), all);
    FilterPairwise(MetFirst(x), IsKept(x), normal);
    forall i | 0 <= i < |kept| ensures !LinkOf(x, kept[i]).enforced {
      FilterMember(IsKept(x), normal, kept[i]);
      FilterMember(IsNormal(x), all, kept[i]);
    }
    forall i, j | 0 <= i < j < |kept| ensures Weaker(x)(kept[i], kept[j]) {
      assert MetFirst(x)(kept[i], kept[j]);
    }
  }

  lemma EnforcedOrder(x: Domain)
    ensures Pairwise(Weaker(x), Sort(Highest(), Filter(IsEnforced(x), Visits(x, |x.chain|))))
  {
    var all := Visits(x, |x.chain|);
    var enforced := Filter(IsEnforced(x), all);
    var last := Sort(Highest(), enforced);
    VisitsOrder(x, |x.chain|);
    FilterPairwise(MetFirst(x), IsEnforced(x), all);
    SortRanked(Highest(), MetFirst(x), enforced);
    forall i | 0 <= i < |last| ensures LinkOf(x, last[i]).enforced {
      SortMember(Highest(), enforced, last[i]);
      FilterMember(IsEnforced(x), all, last[i]);
    }
    forall i, j | 0 <= i < j < |last| ensures Weaker(x)(last[i], last[j]) {
      var p, q := last[i], last[j];
      RankedMeans(Highest(), MetFirst(x), p, q);
      assert Highest()(p).major == -(p.depth as int) && Highest()(q).major == -(q.depth as int);
    }
  }

  /** The order of application is the order of precedence, weakest first. */
  lemma OrderedByPrecedence(x: Domain)
    ensures forall i, j :: 0 <= i < j < |Ordered(x)| ==> Beats(x, Ordered(x)[j], Ordered(x)[i])
  {
    var all := Visits(x, |x.chain|);
    var kept := Filter(IsKept(x), Filter(IsNormal(x), all));
    var last := Sort(Highest(), Filter(IsEnforced(x), all));
    NormalOrder(x);
    EnforcedOrder(x);
    forall i, j | 0 <= i < |kept| && 0 <= j < |last| ensures Weaker(x)(kept[i], last[j]) {
      FilterMember(IsKept(x), Filter(IsNormal(x), all), kept[i]);
      FilterMember(IsNormal(x), all, kept[i]);
      SortMember(Highest(), Filter(IsEnforced(x), all), last[j]);
      FilterMember(IsEnforced(x), all, last[j]);
    }
    PairwiseConcat(Weaker(x), kept, last);
    assert Ordered(x) == kept + last;
    forall i, j | 0 <= i < j < |Ordered(x)| ensures Beats(x, Ordered(x)[j], Ordered(x)[i]) {
      assert Weaker(x)(Ordered(x)[i], Ordered(x)[j]);
    }
  }

  lemma DeepestBlockedMeans(x: Domain, n: nat)
    requires n <= |x.chain|
    ensures var r := DeepestBlocked(x, n);
      && (r >= 0 ==> exists b :: b in x.blocked && Lower(b) == Lower(x.chain[r]))
      && forall d, b :: r < d < n && b in x.blocked ==> Lower(b) != Lower(x.chain[d])
  {
  }

  lemma {:induction false} NoTwice<T>(r: (T, T) -> bool, s: seq<T>, p: T)
    requires Pairwise(r, s) && !r(p, p)
    ensures multiset(s)[p] == if p in s then 1 else 0
  {
    if |s| > 0 {
      var front, last := s[..|s| - 1], s[|s| - 1];
      NoTwice(r, front, p);
      assert s == front + [last];
    }
  }

  lemma RefusedOnce(x: Domain, p: Placement)
    ensures multiset(Refused(x))[p] == if p in Refused(x) then 1 else 0
    ensures multiset(Inherited(x))[p] == if p in Inherited(x) then 1 else 0
  {
    var all := Visits(x, |x.chain|);
    VisitsOrder(x, |x.chain|);
    FilterPairwise(MetFirst(x), IsRefused(x), all);
    NoTwice(MetFirst(x), Refused(x), p);
    FilterPairwise(MetFirst(x), IsNormal(x), all);
    FilterPairwise(MetFirst(x), IsCutOff(x), Filter(IsNormal(x), all));
    NoTwice(MetFirst(x), Inherited(x), p);
  }

  lemma OrderedOnce(x: Domain, p: Placement)
    ensures multiset(Ordered(x))[p] == if p in Ordered(x) then 1 else 0
  {
    OrderedByPrecedence(x);
    forall i, j | 0 <= i < j < |Ordered(x)| ensures Weaker(x)(Ordered(x)[i], Ordered(x)[j]) {
      assert Beats(x, Ordered(x)[j], Ordered(x)[i]);
    }
    NoTwice(Weaker(x), Ordered(x), p);
  }

  /** Every link to a known object met in the chain ends up in exactly one
      place: applied, refused for itself, or cut off by a blocked container. */
  lemma PlacedOnce(x: Domain, p: Placement)
    ensures (multiset(Ordered(x)) + multiset(Refused(x)) + multiset(Inherited(x)))[p] == if Met(x, p) then 1 else 0
  {
    OrderedMembers(x, p);
    OrderedOnce(x, p);
    RefusedOnce(x, p);
  }

  // In a chain without repeats, such as container_chain gives, a link is met
  // at one depth only.
  lemma MetAtOneDepth(x: Domain, p: Placement, q: Placement)
    requires forall i, j :: 0 <= i < j < |x.chain| ==> Lower(x.chain[i]) != Lower(x.chain[j])
    requires Met(x, p) && Met(x, q) && p.index == q.index
    ensures p == q
  {
  }

  // ------------------------------------------------------ in plain terms ----

  // Some blocked container of the chain lies below the one at this depth.
  ghost predicate BlockedBelow(x: Domain, depth: nat) {
    exists d, b :: depth < d < |x.chain| && b in x.blocked && Lower(b) == Lower(x.chain[d])
  }

  lemma CutOffMeans(x: Domain, depth: nat)
    ensures depth < DeepestBlocked(x, |x.chain|) <==> BlockedBelow(x, depth)
  {
    DeepestBlockedMeans(x, |x.chain|);
    if depth < DeepestBlocked(x, |x.chain|) {
      var d := DeepestBlocked(x, |x.chain|);
      var b :| b in x.blocked && Lower(b) == Lower(x.chain[d]);
    }
  }

  /** A link has a say exactly when it is on a container of the chain, is
      enabled, and is to a known object that is enabled, whose filter allows
      the target and whose targeting the target meets; and it is enforced, or
      no blocked container lies below its own. */
  lemma AppliesExactly(x: Domain, p: Placement)
    ensures p in Ordered(x) <==>
      && p.depth < |x.chain| && p.index < |x.links|
      && var link := x.links[p.index];
      && Lower(link.target) == Lower(x.chain[p.depth])
      && link.enabled && link.gpo in x.gpos
      && var gpo := x.gpos[link.gpo];
      && gpo.enabled && Allows(gpo.filter, x.target) && Meets(x.matching, gpo.targeting, x.target)
      && (link.enforced || !BlockedBelow(x, p.depth))
  {
    OrderedMembers(x, p);
    CutOffMeans(x, p.depth);
    InScopeMeans(x.matching, GpoOf(x, p), x.target);
  }

  /** Of two links that have a say the one applied later is the one that is
      enforced; or, if both are, the one nearer the head, if neither is, the one
      nearer the object; on one container the lower link order; and then the
      one listed later. What is applied is the links' objects. */
  lemma LaterIsStronger(x: Domain)
    ensures forall k :: 0 <= k < |Ordered(x)| ==> Ordered(x)[k].index < |x.links| && Ordered(x)[k].depth < |x.chain|
    ensures forall i, j :: 0 <= i < j < |Ordered(x)| ==>
      var p, q := Ordered(x)[i], Ordered(x)[j];
      var l, m := x.links[p.index], x.links[q.index];
      || (!l.enforced && m.enforced)
      || (l.enforced && m.enforced && q.depth < p.depth)
      || (!l.enforced && !m.enforced && q.depth > p.depth)
      || (l.enforced == m.enforced && q.depth == p.depth && m.order < l.order)
      || (l.enforced == m.enforced && q.depth == p.depth && m.order == l.order && q.index > p.index)
    ensures var gpos := Map(GpoAt(x), Ordered(x));
      && |gpos| == |Ordered(x)|
      && forall k :: 0 <= k < |gpos| ==>
           var name := x.links[Ordered(x)[k].index].gpo; name in x.gpos && gpos[k] == x.gpos[name]
  {
    OrderedByPrecedence(x);
    forall k | 0 <= k < |Ordered(x)|
      ensures Ordered(x)[k].index < |x.links| && Ordered(x)[k].depth < |x.chain|
      ensures x.links[Ordered(x)[k].index].gpo in x.gpos
    {
      AppliesExactly(x, Ordered(x)[k]);
    }
  }

  // What is said of a link that is not applied.
  ghost predicate SaidOf(x: Domain, p: Placement, skip: Skip) {
    && p.index < |x.links| && x.links[p.index].gpo in x.gpos
    && var link, gpo := x.links[p.index], x.gpos[x.links[p.index].gpo];
    && skip.name == gpo.name
    && skip.guid == (if link.enabled then gpo.guid else link.gpo)
    && match (link.enabled, OutOfScope(x.matching, gpo, x.target))
       case (false, _) => skip.reason == "link disabled"
       case (true, Some(why)) => skip.reason == why
       case (true, None) => !link.enforced && BlockedBelow(x, p.depth) && skip.reason == "inheritance blocked"
  }

  /** Every link to a known object on a container of the chain that is not
      applied is skipped, and nothing else is; the reason is that it is
      disabled, or else the first the object's scope gives, or else the
      blocked container. */
  lemma SkippedExactly(x: Domain)
    ensures forall p :: p in Refused(x) + Inherited(x) <==>
      && p.depth < |x.chain| && p.index < |x.links|
      && Lower(x.links[p.index].target) == Lower(x.chain[p.depth])
      && x.links[p.index].gpo in x.gpos && p !in Ordered(x)
    ensures var skips := Map(RefusedAs(x), Refused(x)) + Map(BlockedAs(x), Inherited(x));
      && |skips| == |Refused(x) + Inherited(x)|
      && forall k :: 0 <= k < |skips| ==> SaidOf(x, (Refused(x) + Inherited(x))[k], skips[k])
  {
    var refused, inherited := Refused(x), Inherited(x);
    forall p ensures p in refused + inherited <==> Met(x, p) && !Applies(x, p) {
      OrderedMembers(x, p);
    }
    forall p ensures p in Ordered(x) <==> Applies(x, p) {
      OrderedMembers(x, p);
    }
    forall k | 0 <= k < |refused| ensures SaidOf(x, refused[k], RefusedAs(x)(refused[k])) {
      RefusedIsSaid(x, refused[k]);
    }
    forall k | 0 <= k < |inherited| ensures SaidOf(x, inherited[k], BlockedAs(x)(inherited[k])) {
      InheritedIsSaid(x, inherited[k]);
    }
  }

  lemma RefusedIsSaid(x: Domain, p: Placement)
    requires p in Refused(x)
    ensures SaidOf(x, p, RefusedAs(x)(p))
  {
    OrderedMembers(x, p);
  }

  lemma InheritedIsSaid(x: Domain, p: Placement)
    requires p in Inherited(x)
    ensures SaidOf(x, p, BlockedAs(x)(p))
  {
    OrderedMembers(x, p);
    CutOffMeans(x, p.depth);
  }

  // ----------------------------------------------------------- the code ----

  function LinkAt(x: Domain): Placement -> Link {
    (p: Placement) => LinkOf(x, p)
  }

  function Pair(x: Domain): Placement -> (nat, Gpo) {
    (p: Placement) => (p.depth, GpoOf(x, p))
  }

  function GpoAt(x: Domain): Placement -> Gpo {
    (p: Placement) => GpoOf(x, p)
  }

  function RefusedAs(x: Domain): Placement -> Skip {
    (p: Placement) => Skip(
      if LinkOf(x, p).enabled then GpoOf(x, p).guid else LinkOf(x, p).gpo,
      GpoOf(x, p).name,
      if WhyNot(x, p).Some? then WhyNot(x, p).value else "")
  }

  function BlockedAs(x: Domain): Placement -> Skip {
    (p: Placement) => Skip(GpoOf(x, p).guid, GpoOf(x, p).name, "inheritance blocked")
  }

  lemma LinksAtNext(x: Domain, depth: nat, n: nat)
    requires depth < |x.chain| && n < |x.links|
    ensures Map(LinkAt(x), LinksAt(x, depth, n + 1)) == Map(LinkAt(x), LinksAt(x, depth, n)) +
      if Lower(x.links[n].target) == Lower(x.chain[depth]) then [x.links[n]] else []
  {
  }

  method GroupLinks(x: Domain) returns (byTarget: map<string, seq<Link>>)
    ensures forall d :: 0 <= d < |x.chain| ==>
      LookupOr(byTarget, Lower(x.chain[d]), []) == Map(LinkAt(x), LinksAt(x, d, |x.links|))
  {
    byTarget := map[];
    for i := 0 to |x.links|
      invariant forall d :: 0 <= d < |x.chain| ==>
        LookupOr(byTarget, Lower(x.chain[d]), []) == Map(LinkAt(x), LinksAt(x, d, i))
    {
      var link := x.links[i];
      forall d | 0 <= d < |x.chain|
        ensures Map(LinkAt(x), LinksAt(x, d, i + 1)) == Map(LinkAt(x), LinksAt(x, d, i)) +
          if Lower(link.target) == Lower(x.chain[d]) then [link] else []
      {
        LinksAtNext(x, d, i);
      }
      byTarget := byTarget[Lower(link.target) := LookupOr(byTarget, Lower(link.target), []) + [link]];
    }
  }

  // What the walk down the chain has collected once it has met `met`.
  ghost predicate Collected(
    x: Domain, met: seq<Placement>,
    normal: seq<(nat, Gpo)>, enforced: seq<(nat, Gpo)>, skipped: seq<Skip>)
  {
    && normal == Map(Pair(x), Filter(IsNormal(x), met))
    && enforced == Map(Pair(x), Filter(IsEnforced(x), met))
    && skipped == Map(RefusedAs(x), Filter(IsRefused(x), met))
  }

  lemma MapFilterSnoc<A, B>(f: A -> B, keep: A -> bool, s: seq<A>, a: A)
    ensures keep(a) ==> Map(f, Filter(keep, s + [a])) == Map(f, Filter(keep, s)) + [f(a)]
    ensures !keep(a) ==> Map(f, Filter(keep, s + [a])) == Map(f, Filter(keep, s))
  {
    FilterSnoc(keep, s, a);
    if keep(a) {
      MapConcat(f, Filter(keep, s), [a]);
    }
  }

  method Meet(
    x: Domain, ghost met: seq<Placement>, ghost p: Placement, link: Link, depth: nat,
    normal: seq<(nat, Gpo)>, enforced: seq<(nat, Gpo)>, skipped: seq<Skip>)
    returns (normal': seq<(nat, Gpo)>, enforced': seq<(nat, Gpo)>, skipped': seq<Skip>)
    requires Collected(x, met, normal, enforced, skipped)
    requires link == LinkOf(x, p) && depth == p.depth
    ensures Collected(x, met + [p], normal', enforced', skipped')
  {
    MapFilterSnoc(Pair(x), IsNormal(x), met, p);
    MapFilterSnoc(Pair(x), IsEnforced(x), met, p);
    MapFilterSnoc(RefusedAs(x), IsRefused(x), met, p);
    normal', enforced', skipped' := normal, enforced, skipped;
    if link.gpo !in x.gpos {
      return;
    }
    var gpo := x.gpos[link.gpo];
    if !link.enabled {
      skipped' := skipped + [Skip(link.gpo, gpo.name, "link disabled")];
      return;
    }
    var why := OutOfScope(x.matching, gpo, x.target);
    if why.Some? {
      skipped' := skipped + [Skip(gpo.guid, gpo.name, why.value)];
      return;
    }
    if link.enforced {
      enforced' := enforced + [(depth, gpo)];
    } else {
      normal' := normal + [(depth, gpo)];
    }
  }

  // One container of the walk: its links, highest link order first.
  method Visit(x: Domain, depth: nat, links: seq<Link>, ghost met: seq<Placement>, ghost here: seq<Placement>,
    normal: seq<(nat, Gpo)>, enforced: seq<(nat, Gpo)>, skipped: seq<Skip>)
    returns (normal': seq<(nat, Gpo)>, enforced': seq<(nat, Gpo)>, skipped': seq<Skip>)
    requires Collected(x, met, normal, enforced, skipped)
    requires links == Map(LinkAt(x), here) && forall k :: 0 <= k < |here| ==> here[k].depth == depth
    ensures Collected(x, met + here, normal', enforced', skipped')
  {
    normal', enforced', skipped' := normal, enforced, skipped;
    assert met + here[..0] == met;
    for k := 0 to |links|
      invariant Collected(x, met + here[..k], normal', enforced', skipped')
    {
      normal', enforced', skipped' :=
        Meet(x, met + here[..k], here[k], links[k], depth, normal', enforced', skipped');
      SliceSnoc(here, 0, k + 1);
      assert met + here[..k + 1] == met + here[..k] + [here[k]];
    }
    assert here[..|here|] == here;
  }

  function Descending(): Link -> Key {
    (l: Link) => Key(-l.order, 0)
  }

  lemma SortedHere(x: Domain, depth: nat)
    requires depth < |x.chain|
    ensures Sort(Descending(), Map(LinkAt(x), LinksAt(x, depth, |x.links|)))
      == Map(LinkAt(x), Here(x, depth))
  {
    forall p: Placement ensures ByLinkOrder(x)(p) == Descending()(LinkAt(x)(p)) {
    }
    SortMap(LinkAt(x), Descending(), ByLinkOrder(x), LinksAt(x, depth, |x.links|));
  }

  method Walk(x: Domain)
    returns (normal: seq<(nat, Gpo)>, enforced: seq<(nat, Gpo)>, skipped: seq<Skip>)
    ensures Collected(x, Visits(x, |x.chain|), normal, enforced, skipped)
  {
    var byTarget := GroupLinks(x);
    normal, enforced, skipped := [], [], [];
    for depth := 0 to |x.chain|
      invariant Collected(x, Visits(x, depth), normal, enforced, skipped)
    {
      SortedHere(x, depth);
      HereOrder(x, depth);
      var links := Sort(Descending(), LookupOr(byTarget, Lower(x.chain[depth]), []));
      normal, enforced, skipped := Visit(x, depth, links, Visits(x, depth),
        Here(x, depth), normal, enforced, skipped);
    }
  }

  method FindDeepestBlocked(x: Domain) returns (deepest: int)
    ensures deepest == DeepestBlocked(x, |x.chain|)
  {
    var blocked := set b | b in x.blocked :: Lower(b);
    deepest := -1;
    for index := 0 to |x.chain|
      invariant deepest == DeepestBlocked(x, index)
    {
      if Lower(x.chain[index]) in blocked {
        deepest := index;
      }
    }
  }

  method DropInherited(x: Domain, deepest: int, normal: seq<(nat, Gpo)>, ghost met: seq<Placement>)
    returns (kept: seq<(nat, Gpo)>, skipped: seq<Skip>)
    requires deepest == DeepestBlocked(x, |x.chain|) && normal == Map(Pair(x), met)
    ensures kept == Map(Pair(x), Filter(IsKept(x), met))
    ensures skipped == Map(BlockedAs(x), Filter(IsCutOff(x), met))
  {
    kept, skipped := [], [];
    assert met[..0] == [];
    for k := 0 to |normal|
      invariant kept == Map(Pair(x), Filter(IsKept(x), met[..k]))
      invariant skipped == Map(BlockedAs(x), Filter(IsCutOff(x), met[..k]))
    {
      SliceSnoc(met, 0, k + 1);
      MapFilterSnoc(Pair(x), IsKept(x), met[..k], met[k]);
      MapFilterSnoc(BlockedAs(x), IsCutOff(x), met[..k], met[k]);
      if normal[k].0 < deepest {
        skipped := skipped + [Skip(normal[k].1.guid, normal[k].1.name, "inheritance blocked")];
      } else {
        kept := kept + [normal[k]];
      }
    }
    assert met[..|normal|] == met;
  }

  function ByDepth(): ((nat, Gpo)) -> Key {
    (e: (nat, Gpo)) => Key(-(e.0 as int), 0)
  }

  function Second(): ((nat, Gpo)) -> Gpo {
    (e: (nat, Gpo)) => e.1
  }

  lemma Seconds(x: Domain, s: seq<Placement>)
    ensures Map(Second(), Map(Pair(x), s)) == Map(GpoAt(x), s)
  {
  }

  lemma SortedEnforced(x: Domain, s: seq<Placement>)
    ensures Sort(ByDepth(), Map(Pair(x), s)) == Map(Pair(x), Sort(Highest(), s))
  {
    forall p: Placement ensures Highest()(p) == ByDepth()(Pair(x)(p)) {
    }
    SortMap(Pair(x), ByDepth(), Highest(), s);
  }

  // The objects that apply, weakest first, and those skipped with the reason.
  method ResolveOrder(x: Domain) returns (ordered: seq<Gpo>, skipped: seq<Skip>)
    ensures ordered == Map(GpoAt(x), Ordered(x))
    ensures skipped == Map(RefusedAs(x), Refused(x)) + Map(BlockedAs(x), Inherited(x))
  {
    var normal, enforced, refused := Walk(x);
    ghost var all := Visits(x, |x.chain|);
    ghost var applied, forced := Filter(IsKept(x), Filter(IsNormal(x), all)), Filter(IsEnforced(x), all);
    var deepest := FindDeepestBlocked(x);
    var kept, inherited := DropInherited(x, deepest, normal, Filter(IsNormal(x), all));
    var last := Sort(ByDepth(), enforced);
    SortedEnforced(x, forced);
    Seconds(x, applied);
    Seconds(x, Sort(Highest(), forced));
    MapConcat(GpoAt(x), applied, Sort(Highest(), forced));
    ordered := Map(Second(), kept) + Map(Second(), last);
    skipped := refused + inherited;
  }
}
