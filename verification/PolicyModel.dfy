/** What Group Policy resolution works on (api/odm/policy.py). Settings have the
    shape the schema gives them: a category is a list, a dictionary or a plain
    value wherever it occurs. */
module PolicyModel {
  import opened Text

  datatype Targeting = Targeting(os: seq<string>, pattern: string, groups: seq<string>, ranges: seq<string>)

  datatype Item = Item(fields: map<string, string>, targeting: Targeting)

  // A dictionary's values are merged one level deep, so what is below that
  // level stays text.
  datatype Sub = Leaf(text: string) | Fields(fields: map<string, string>)

  datatype Value =
    | Entries(items: seq<Item>)
    | Dictionary(keys: map<string, Sub>)
    | Plain(text: string)

  datatype Gpo = Gpo(
    guid: string, name: string, enabled: bool, settings: map<string, Value>,
    filter: seq<string>, targeting: Targeting)

  datatype Link = Link(gpo: string, target: string, order: int, enforced: bool, enabled: bool)

  datatype Target = Target(
    dn: string, hostname: string, os: string, addresses: seq<string>, groups: seq<string>)

  // The two library decisions targeting rests on: whether a name matches a
  // shell pattern, and whether an address lies in a network. A malformed
  // address or network is in nothing.
  datatype Matching = Matching(glob: (string, string) -> bool, within: (string, string) -> bool)

  predicate InRanges(w: Matching, addresses: seq<string>, ranges: seq<string>) {
    exists a, r :: a in addresses && r in ranges && w.within(a, r)
  }

  // None when the targeting lets the target through, else the reason not.
  function Refusal(w: Matching, t: Targeting, target: Target): Option<string> {
    if t.os != [] && target.os !in t.os then Some("os targeting")
    else if t.pattern != "" && !w.glob(Lower(target.hostname), Lower(t.pattern)) then Some("hostname targeting")
    else if t.groups != [] && Folded(t.groups) !! Folded(target.groups) then Some("group targeting")
    else if t.ranges != [] && !InRanges(w, target.addresses, t.ranges) then Some("ip targeting")
    else None
  }

  function OutOfScope(w: Matching, gpo: Gpo, target: Target): Option<string> {
    if !gpo.enabled then Some("gpo disabled")
    else if gpo.filter != [] && Lower(target.dn) !in Folded(gpo.filter)
            && Folded(gpo.filter) !! Folded(target.groups)
    then Some("security filtering")
    else Refusal(w, gpo.targeting, target)
  }

  ghost predicate Shared(names: seq<string>, others: seq<string>) {
    exists a, b :: a in names && b in others && Lower(a) == Lower(b)
  }

  lemma FoldedShared(names: seq<string>, others: seq<string>)
    ensures Folded(names) !! Folded(others) <==> !Shared(names, others)
  {
    if Shared(names, others) {
      var a, b :| a in names && b in others && Lower(a) == Lower(b);
      assert Lower(a) in Folded(names) && Lower(b) in Folded(others);
    } else {
      forall n | n in Folded(names) ensures n !in Folded(others) {
        var a :| a in names && Lower(a) == n;
      }
    }
  }

  // What item-level targeting asks of a target.
  ghost predicate Meets(w: Matching, t: Targeting, target: Target) {
    && (t.os == [] || target.os in t.os)
    && (t.pattern == "" || w.glob(Lower(target.hostname), Lower(t.pattern)))
    && (t.groups == [] || Shared(t.groups, target.groups))
    && (t.ranges == [] || exists a, r :: a in target.addresses && r in t.ranges && w.within(a, r))
  }

  // What a security filter asks of a target.
  ghost predicate Allows(filter: seq<string>, target: Target) {
    filter == [] || Shared(filter, [target.dn]) || Shared(filter, target.groups)
  }

  /** An object is in scope when it is enabled, its security filter (if it has
      one) names the target or one of its groups in whatever case, and every
      kind of targeting it states is met by one of the values listed. */
  lemma InScopeMeans(w: Matching, gpo: Gpo, target: Target)
    ensures OutOfScope(w, gpo, target).None? <==>
      && gpo.enabled
      && (gpo.filter == [] || Shared(gpo.filter, [target.dn]) || Shared(gpo.filter, target.groups))
      && Refusal(w, gpo.targeting, target).None?
    ensures Refusal(w, gpo.targeting, target).None? <==>
      var t := gpo.targeting;
      && (t.os == [] || target.os in t.os)
      && (t.pattern == "" || w.glob(Lower(target.hostname), Lower(t.pattern)))
      && (t.groups == [] || Shared(t.groups, target.groups))
      && (t.ranges == [] || exists a, r :: a in target.addresses && r in t.ranges && w.within(a, r))
    ensures Meets(w, gpo.targeting, target) <==> Refusal(w, gpo.targeting, target).None?
    ensures gpo.enabled && Allows(gpo.filter, target) && Meets(w, gpo.targeting, target)
       <==> OutOfScope(w, gpo, target).None?
  {
    FoldedShared(gpo.filter, target.groups);
    FoldedShared(gpo.targeting.groups, target.groups);
    FoldedShared(gpo.filter, [target.dn]);
    assert Folded([target.dn]) == {Lower(target.dn)} by {
      assert target.dn in [target.dn];
    }
  }

  /** The reason given is the first that holds, in the order the object, the
      filter, the system, the name, the groups and the addresses are asked. */
  lemma ReasonMeans(w: Matching, gpo: Gpo, target: Target)
    ensures var t, why := gpo.targeting, OutOfScope(w, gpo, target);
      if !gpo.enabled then why == Some("gpo disabled")
      else if !Allows(gpo.filter, target) then why == Some("security filtering")
      else if t.os != [] && target.os !in t.os then why == Some("os targeting")
      else if t.pattern != "" && !w.glob(Lower(target.hostname), Lower(t.pattern))
      then why == Some("hostname targeting")
      else if t.groups != [] && !Shared(t.groups, target.groups) then why == Some("group targeting")
      else if !Meets(w, t, target) then why == Some("ip targeting")
      else why == None
  {
    InScopeMeans(w, gpo, target);
    FoldedShared(gpo.filter, target.groups);
    FoldedShared(gpo.targeting.groups, target.groups);
    FoldedShared(gpo.filter, [target.dn]);
  }
}
