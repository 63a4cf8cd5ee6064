/** Network access rules compiled to a policy evaluated in order
    (api/odm/radius.py), and what that policy decides. */
module Radius {
  import opened Text
  import opened StableSort

  datatype Rule = Rule(enabled: bool, access: string, ordering: int, groupName: string, groupDn: string,
                       networks: seq<string>, kind: string, vlan: int)

  // A rule allows unless it denies; a VLAN of 0 counts as none.
  predicate Denies(r: Rule) {
    r.access == "deny"
  }

  predicate SetsVlan(r: Rule) {
    !Denies(r) && r.vlan != 0
  }

  // ---------------------------------------------------- the policy written ----

  datatype Condition =
    | NotRejectedYet
    | GroupIs(group: string)
    | NetworkIn(names: seq<string>)
    | IsMachine
    | IsPerson

  datatype Action = Reject | Accept | ReplyVlan(vlan: int)

  // An if statement: all the conditions, then the actions.
  datatype Block = Block(conditions: seq<Condition>, actions: seq<Action>)

  datatype Fault = BadNetwork(name: string) | BadVlan(vlan: int)

  predicate Letter(c: char) {
    'a' <= c <= 'z' || 'A' <= c <= 'Z' || '0' <= c <= '9'
  }

  predicate GoodNetwork(name: string) {
    && 0 < |name| <= 63 && Letter(name[0])
    && forall i :: 1 <= i < |name| ==> Letter(name[i]) || name[i] in " ._:-"
  }

  predicate NonEmpty(name: string) {
    name != ""
  }

  predicate NotQuote(c: char) {
    c != '"'
  }

  // The networks a rule names, stripped; a name of only white space stays, as the empty name.
  function Networks(r: Rule): seq<string> {
    Map(Strip, Filter(NonEmpty, r.networks))
  }

  function Group(r: Rule): string {
    Filter(NotQuote, if r.groupName != "" then r.groupName else r.groupDn)
  }

  // What the code refuses to write.
  predicate Renders(r: Rule) {
    && (forall name :: name in Networks(r) && name != "" ==> GoodNetwork(name))
    && (SetsVlan(r) ==> 1 <= r.vlan <= 4094)
  }

  function Conditions(r: Rule): seq<Condition> {
    [NotRejectedYet, GroupIs(Group(r))]
    + (if Networks(r) != [] then [NetworkIn(Networks(r))] else [])
    + (if r.kind == "computer" then [IsMachine] else if r.kind == "user" then [IsPerson] else [])
  }

  function Actions(r: Rule): seq<Action> {
    if Denies(r) then [Reject] else if r.vlan == 0 then [Accept] else [Accept, ReplyVlan(r.vlan)]
  }

  function BlockOf(r: Rule): Block {
    Block(Conditions(r), Actions(r))
  }

  // ------------------------------------------------------------ the order ----

  // A rule is named by its place in the list.
  function At(rules: seq<Rule>, i: nat): Rule {
    if i < |rules| then rules[i] else Rule(false, "", 0, "", "", [], "", 0)
  }

  function KeyAt(rules: seq<Rule>): nat -> Key {
    (i: nat) => Key(if Denies(At(rules, i)) then 0 else 1, At(rules, i).ordering)
  }

  function EnabledAt(rules: seq<Rule>): nat -> bool {
    (i: nat) => At(rules, i).enabled
  }

  function Places(n: nat): seq<nat> {
    seq(n, (i: nat) => i)
  }

  // Denials first, then by the operator's number, then as listed.
  function Order(rules: seq<Rule>): seq<nat> {
    Sort(KeyAt(rules), Filter(EnabledAt(rules), Places(|rules|)))
  }

  function WrittenAt(rules: seq<Rule>): nat -> Block {
    (i: nat) => BlockOf(At(rules, i))
  }

  function Rendered(rules: seq<Rule>): seq<Block> {
    Map(WrittenAt(rules), Order(rules))
  }

  lemma OrderMembers(rules: seq<Rule>, i: nat)
    ensures i in Order(rules) <==> i < |rules| && rules[i].enabled
  {
    SortMember(KeyAt(rules), Filter(EnabledAt(rules), Places(|rules|)), i);
    FilterMember(EnabledAt(rules), Places(|rules|), i);
    if i < |rules| {
      assert Places(|rules|)[i] == i;
    }
  }

  method FirstBad(networks: seq<string>) returns (bad: Option<string>)
    ensures bad.None? <==> forall name :: name in networks && name != "" ==> GoodNetwork(name)
  {
    for i := 0 to |networks|
      invariant forall j :: 0 <= j < i ==> networks[j] == "" || GoodNetwork(networks[j])
    {
      if networks[i] != "" && !GoodNetwork(networks[i]) {
        assert networks[i] in networks;
        return Some(networks[i]);
      }
    }
    return None;
  }

  method WriteConditions(r: Rule) returns (c: Result<seq<Condition>, Fault>)
    ensures c.Ok? <==> forall name :: name in Networks(r) && name != "" ==> GoodNetwork(name)
    ensures c.Ok? ==> c.value == Conditions(r)
  {
    var conditions := [NotRejectedYet, GroupIs(Group(r))];
    var networks := Networks(r);
    var bad := FirstBad(networks);
    if bad.Some? {
      return Err(BadNetwork(bad.value));
    }
    if networks != [] {
      conditions := conditions + [NetworkIn(networks)];
    }
    if r.kind == "computer" {
      conditions := conditions + [IsMachine];
    } else if r.kind == "user" {
      conditions := conditions + [IsPerson];
    }
    return Ok(conditions);
  }

  method WriteBlock(r: Rule) returns (b: Result<Block, Fault>)
    ensures b.Ok? <==> Renders(r)
    ensures b.Ok? ==> b.value == BlockOf(r)
  {
    var conditions := WriteConditions(r);
    if conditions.Err? {
      return Err(conditions.fault);
    }
    var actions := [Reject];
    if r.access != "deny" {
      actions := [Accept];
      if r.vlan != 0 {
        if !(1 <= r.vlan <= 4094) {
          return Err(BadVlan(r.vlan));
        }
        actions := actions + [ReplyVlan(r.vlan)];
      }
    }
    return Ok(Block(conditions.value, actions));
  }

  method RenderPolicies(rules: seq<Rule>) returns (r: Result<seq<Block>, Fault>)
    ensures r.Ok? <==> forall i :: 0 <= i < |rules| && rules[i].enabled ==> Renders(rules[i])
    ensures r.Ok? ==> r.value == Rendered(rules)
  {
    var ordered := Order(rules);
    var blocks: seq<Block> := [];
    for k := 0 to |ordered|
      invariant |blocks| == k
      invariant forall j :: 0 <= j < k ==> Renders(At(rules, ordered[j])) && blocks[j] == BlockOf(At(rules, ordered[j]))
    {
      OrderMembers(rules, ordered[k]);
      var block := WriteBlock(rules[ordered[k]]);
      if block.Err? {
        return Err(block.fault);
      }
      blocks := blocks + [block.value];
    }
    forall i | 0 <= i < |rules| && rules[i].enabled ensures Renders(rules[i]) {
      OrderMembers(rules, i);
      var j :| 0 <= j < |ordered| && ordered[j] == i;
      assert Renders(At(rules, ordered[j]));
    }
    return Ok(blocks);
  }

  // -------------------------------------------------------- evaluating it ----

  datatype Auth = Unset | Other | Accepted | Rejected

  datatype Request = Request(group: string, network: string, user: string)

  datatype Verdict = No | Yes(vlan: Option<int>)

  // What surrounds the policy: the Auth-Type it starts with, and whether an
  // absent attribute counts as different from Reject.
  datatype Setting = Setting(auth: Auth, absentDiffers: bool)

  predicate Differs(auth: Auth, absentDiffers: bool) {
    auth != Rejected && (auth == Unset ==> absentDiffers)
  }

  predicate IsHost(user: string) {
    "host/" <= user || (|user| > 0 && user[|user| - 1] == '$')
  }

  predicate Holds(c: Condition, q: Request, auth: Auth, absentDiffers: bool) {
    match c
    case NotRejectedYet => Differs(auth, absentDiffers)
    case GroupIs(group) => q.group == group
    case NetworkIn(names) => q.network in names
    case IsMachine => IsHost(q.user)
    case IsPerson => !IsHost(q.user)
  }

  predicate AllHold(cs: seq<Condition>, q: Request, auth: Auth, absentDiffers: bool) {
    forall c :: c in cs ==> Holds(c, q, auth, absentDiffers)
  }

  function VlanOf(actions: seq<Action>, vlan: Option<int>): Option<int> {
    if |actions| > 1 && actions[1].ReplyVlan? then Some(actions[1].vlan) else vlan
  }

  // Runs the blocks in order: a reject ends the policy, an accept is noted,
  // and what was not accepted by the end is rejected.
  function Run(blocks: seq<Block>, q: Request, s: Setting, vlan: Option<int>): Verdict {
    if |blocks| == 0 then (if s.auth == Accepted then Yes(vlan) else No)
    else if !AllHold(blocks[0].conditions, q, s.auth, s.absentDiffers) then Run(blocks[1..], q, s, vlan)
    else if |blocks[0].actions| > 0 && blocks[0].actions[0] == Reject then No
    else Run(blocks[1..], q, s.(auth := Accepted), VlanOf(blocks[0].actions, vlan))
  }

  // --------------------------------------------------- what rules should mean ----

  predicate Matches(r: Rule, q: Request) {
    && r.enabled && q.group == Group(r)
    && ((forall name :: name in r.networks ==> name == "")
        || exists name :: name in r.networks && name != "" && Strip(name) == q.network)
    && (r.kind == "computer" ==> IsHost(q.user)) && (r.kind == "user" ==> !IsHost(q.user))
  }

  ghost predicate Denied(rules: seq<Rule>, q: Request) {
    exists i :: 0 <= i < |rules| && Matches(rules[i], q) && Denies(rules[i])
  }

  ghost predicate Allowed(rules: seq<Rule>, q: Request) {
    exists i :: 0 <= i < |rules| && Matches(rules[i], q) && !Denies(rules[i])
  }

  predicate GivesVlan(rules: seq<Rule>, q: Request, i: nat) {
    i < |rules| && Matches(rules[i], q) && SetsVlan(rules[i])
  }

  // A later place than another: a higher number, or the same one further down the list.
  predicate Later(rules: seq<Rule>, i: nat, j: nat) {
    At(rules, i).ordering > At(rules, j).ordering || (At(rules, i).ordering == At(rules, j).ordering && i > j)
  }

  // The last matching rule that sets a VLAN decides it.
  ghost predicate VlanIsLast(rules: seq<Rule>, q: Request, vlan: Option<int>) {
    match vlan
    case None => forall i: nat :: !GivesVlan(rules, q, i)
    case Some(v) =>
      exists i: nat :: && GivesVlan(rules, q, i) && rules[i].vlan == v
                       && forall j: nat :: GivesVlan(rules, q, j) && j != i ==> Later(rules, i, j)
  }

  // Deny overrides allow, and no rule means no.
  ghost predicate Means(rules: seq<Rule>, q: Request, v: Verdict) {
    if Denied(rules, q) || !Allowed(rules, q) then v == No
    else v.Yes? && VlanIsLast(rules, q, v.vlan)
  }

  // ----------------------------------------------------------------- proofs ----

  lemma NetworkMember(r: Rule, name: string)
    ensures name in Networks(r) <==> exists n :: n in r.networks && n != "" && Strip(n) == name
  {
    var kept := Filter(NonEmpty, r.networks);
    if name in Networks(r) {
      var i :| 0 <= i < |kept| && Strip(kept[i]) == name;
      FilterMember(NonEmpty, r.networks, kept[i]);
    }
    if n :| n in r.networks && n != "" && Strip(n) == name {
      FilterMember(NonEmpty, r.networks, n);
      var i :| 0 <= i < |kept| && kept[i] == n;
      assert Networks(r)[i] == name;
    }
  }

  lemma NoNetworks(r: Rule)
    ensures Networks(r) == [] <==> forall name :: name in r.networks ==> name == ""
  {
    if Networks(r) != [] {
      NetworkMember(r, Networks(r)[0]);
    }
    if n :| n in r.networks && n != "" {
      NetworkMember(r, Strip(n));
    }
  }

  lemma ConditionsMean(r: Rule, q: Request, auth: Auth, absentDiffers: bool)
    ensures AllHold(Conditions(r), q, auth, absentDiffers)
        <==> && Differs(auth, absentDiffers) && q.group == Group(r)
             && (Networks(r) == [] || q.network in Networks(r))
             && (r.kind == "computer" ==> IsHost(q.user)) && (r.kind == "user" ==> !IsHost(q.user))
  {
    var networks := if Networks(r) != [] then [NetworkIn(Networks(r))] else [];
    var kinds := if r.kind == "computer" then [IsMachine] else if r.kind == "user" then [IsPerson] else [];
    var first := [NotRejectedYet, GroupIs(Group(r))];
    BothHold(first + networks, kinds, q, auth, absentDiffers);
    BothHold(first, networks, q, auth, absentDiffers);
    OneHolds(NotRejectedYet, q, auth, absentDiffers);
    OneHolds(GroupIs(Group(r)), q, auth, absentDiffers);
    OneHolds(NetworkIn(Networks(r)), q, auth, absentDiffers);
    OneHolds(if r.kind == "computer" then IsMachine else IsPerson, q, auth, absentDiffers);
    BothHold([NotRejectedYet], [GroupIs(Group(r))], q, auth, absentDiffers);
    assert first == [NotRejectedYet] + [GroupIs(Group(r))];
  }

  lemma OneHolds(c: Condition, q: Request, auth: Auth, absentDiffers: bool)
    ensures AllHold([c], q, auth, absentDiffers) <==> Holds(c, q, auth, absentDiffers)
    ensures AllHold([], q, auth, absentDiffers)
  {
    assert c in [c];
  }

  lemma BothHold(a: seq<Condition>, b: seq<Condition>, q: Request, auth: Auth, absentDiffers: bool)
    ensures AllHold(a + b, q, auth, absentDiffers)
        <==> AllHold(a, q, auth, absentDiffers) && AllHold(b, q, auth, absentDiffers)
  {
    assert forall c :: c in a + b <==> c in a || c in b;
  }

  lemma BlockMatches(r: Rule, q: Request, auth: Auth, absentDiffers: bool)
    requires r.enabled
    ensures AllHold(Conditions(r), q, auth, absentDiffers) <==> Differs(auth, absentDiffers) && Matches(r, q)
  {
    ConditionsMean(r, q, auth, absentDiffers);
    NoNetworks(r);
    NetworkMember(r, q.network);
  }

  // What the blocks do, said about the places they were written from.
  function Decide(rules: seq<Rule>, order: seq<nat>, q: Request, accepted: bool, vlan: Option<int>): Verdict {
    if |order| == 0 then (if accepted then Yes(vlan) else No)
    else if !Matches(At(rules, order[0]), q) then Decide(rules, order[1..], q, accepted, vlan)
    else if Denies(At(rules, order[0])) then No
    else Decide(rules, order[1..], q, true, VlanOf(Actions(At(rules, order[0])), vlan))
  }

  lemma {:induction false} RunDecides(rules: seq<Rule>, order: seq<nat>, q: Request, s: Setting, vlan: Option<int>)
    requires forall i :: i in order ==> At(rules, i).enabled
    requires Differs(s.auth, s.absentDiffers)
    ensures Run(Map(WrittenAt(rules), order), q, s, vlan) == Decide(rules, order, q, s.auth == Accepted, vlan)
  {
    if |order| > 0 {
      var r := At(rules, order[0]);
      assert Map(WrittenAt(rules), order)[1..] == Map(WrittenAt(rules), order[1..]);
      BlockMatches(r, q, s.auth, s.absentDiffers);
      if !Matches(r, q) {
        RunDecides(rules, order[1..], q, s, vlan);
      } else if !Denies(r) {
        RunDecides(rules, order[1..], q, s.(auth := Accepted), VlanOf(Actions(r), vlan));
      }
    }
  }

  // A policy whose guard never holds accepts only what was accepted before.
  lemma {:induction false} ClosedDecides(rules: seq<Rule>, order: seq<nat>, q: Request, s: Setting, vlan: Option<int>)
    requires !Differs(s.auth, s.absentDiffers)
    ensures Run(Map(WrittenAt(rules), order), q, s, vlan) == No
  {
    if |order| > 0 {
      var r := At(rules, order[0]);
      assert Map(WrittenAt(rules), order)[1..] == Map(WrittenAt(rules), order[1..]);
      ConditionsMean(r, q, s.auth, s.absentDiffers);
      ClosedDecides(rules, order[1..], q, s, vlan);
    }
  }

  lemma {:induction false} DenyWins(
    rules: seq<Rule>, order: seq<nat>, q: Request, accepted: bool, vlan: Option<int>, k: nat)
    requires k < |order| && Matches(At(rules, order[k]), q) && Denies(At(rules, order[k]))
    ensures Decide(rules, order, q, accepted, vlan) == No
  {
    var r := At(rules, order[0]);
    if k > 0 && !(Matches(r, q) && Denies(r)) {
      DenyWins(rules, order[1..], q, accepted || Matches(r, q),
               if Matches(r, q) then VlanOf(Actions(r), vlan) else vlan, k - 1);
    }
  }

  predicate MatchesNone(rules: seq<Rule>, order: seq<nat>, q: Request, denying: bool) {
    forall k :: 0 <= k < |order| && Matches(At(rules, order[k]), q) ==> Denies(At(rules, order[k])) != denying
  }

  // The VLAN of the last of the first n places that gives one.
  function LastVlan(rules: seq<Rule>, order: seq<nat>, n: nat, q: Request, vlan: Option<int>): Option<int>
    requires n <= |order|
  {
    if n == 0 then vlan
    else if GivesVlan(rules, q, order[n - 1]) then Some(At(rules, order[n - 1]).vlan)
    else LastVlan(rules, order, n - 1, q, vlan)
  }

  lemma {:induction false} LastVlanRest(rules: seq<Rule>, order: seq<nat>, n: nat, q: Request, vlan: Option<int>)
    requires 0 < n <= |order|
    ensures LastVlan(rules, order, n, q, vlan)
         == LastVlan(rules, order[1..], n - 1, q,
                     if GivesVlan(rules, q, order[0]) then Some(At(rules, order[0]).vlan) else vlan)
  {
    if n > 1 {
      LastVlanRest(rules, order, n - 1, q, vlan);
      assert order[1..][n - 2] == order[n - 1];
    }
  }

  lemma {:induction false} AllowsDecide(
    rules: seq<Rule>, order: seq<nat>, q: Request, accepted: bool, vlan: Option<int>)
    requires forall i :: i in order ==> i < |rules|
    requires MatchesNone(rules, order, q, true)
    ensures Decide(rules, order, q, accepted, vlan)
         == if accepted || !MatchesNone(rules, order, q, false)
            then Yes(LastVlan(rules, order, |order|, q, vlan)) else No
  {
    if |order| > 0 {
      var r := At(rules, order[0]);
      var took := Matches(r, q);
      assert forall i :: i in order[1..] ==> i in order;
      LastVlanRest(rules, order, |order|, q, vlan);
      RestMatches(rules, order, q);
      AllowsDecide(rules, order[1..], q, accepted || took, if took then VlanOf(Actions(r), vlan) else vlan);
    }
  }

  lemma RestMatches(rules: seq<Rule>, order: seq<nat>, q: Request)
    requires |order| > 0
    ensures forall d :: MatchesNone(rules, order, q, d) <==>
      && MatchesNone(rules, order[1..], q, d)
      && (Matches(At(rules, order[0]), q) ==> Denies(At(rules, order[0])) != d)
  {
    forall d | MatchesNone(rules, order[1..], q, d)
      && (Matches(At(rules, order[0]), q) ==> Denies(At(rules, order[0])) != d)
      ensures MatchesNone(rules, order, q, d)
    {
      forall k | 0 <= k < |order| && Matches(At(rules, order[k]), q) ensures Denies(At(rules, order[k])) != d {
        if k > 0 {
          assert order[k] == order[1..][k - 1];
        }
      }
    }
    forall d | MatchesNone(rules, order, q, d) ensures MatchesNone(rules, order[1..], q, d) {
      forall k | 0 <= k < |order[1..]| && Matches(At(rules, order[1..][k]), q)
        ensures Denies(At(rules, order[1..][k])) != d
      {
        assert order[1..][k] == order[k + 1];
      }
    }
  }

  lemma {:induction false} NoVlanMeans(rules: seq<Rule>, order: seq<nat>, n: nat, q: Request, j: nat)
    requires j < n <= |order| && LastVlan(rules, order, n, q, None) == None
    ensures !GivesVlan(rules, q, order[j])
  {
    if j < n - 1 {
      NoVlanMeans(rules, order, n - 1, q, j);
    }
  }

  lemma {:induction false} LastVlanMeans(rules: seq<Rule>, order: seq<nat>, n: nat, q: Request) returns (k: nat)
    requires n <= |order| && LastVlan(rules, order, n, q, None).Some?
    ensures k < n && GivesVlan(rules, q, order[k])
    ensures At(rules, order[k]).vlan == LastVlan(rules, order, n, q, None).value
    ensures forall j :: k < j < n ==> !GivesVlan(rules, q, order[j])
  {
    if GivesVlan(rules, q, order[n - 1]) {
      k := n - 1;
    } else {
      k := LastVlanMeans(rules, order, n - 1, q);
    }
  }

  ghost function Before(): (nat, nat) -> bool {
    (i: nat, j: nat) => i < j
  }

  lemma OrderRanked(rules: seq<Rule>)
    ensures Pairwise(Ranked(KeyAt(rules), Before()), Order(rules))
  {
    assert Pairwise(Before(), Places(|rules|));
    FilterPairwise(Before(), EnabledAt(rules), Places(|rules|));
    SortRanked(KeyAt(rules), Before(), Filter(EnabledAt(rules), Places(|rules|)));
  }

  lemma LaterInOrder(rules: seq<Rule>, j: nat, k: nat)
    requires j < k < |Order(rules)|
    requires !Denies(At(rules, Order(rules)[j])) && !Denies(At(rules, Order(rules)[k]))
    ensures Later(rules, Order(rules)[k], Order(rules)[j])
  {
    OrderRanked(rules);
    RankedMeans(KeyAt(rules), Before(), Order(rules)[j], Order(rules)[k]);
  }

  lemma VlanDecided(rules: seq<Rule>, q: Request)
    ensures VlanIsLast(rules, q, LastVlan(rules, Order(rules), |Order(rules)|, q, None))
  {
    var order := Order(rules);
    if LastVlan(rules, order, |order|, q, None).Some? {
      var k := LastVlanMeans(rules, order, |order|, q);
      forall j: nat | GivesVlan(rules, q, j) && j != order[k] ensures Later(rules, order[k], j) {
        OrderMembers(rules, j);
        var n :| 0 <= n < |order| && order[n] == j;
        LaterInOrder(rules, n, k);
      }
    } else {
      forall j: nat ensures !GivesVlan(rules, q, j) {
        OrderMembers(rules, j);
        if n :| 0 <= n < |order| && order[n] == j {
          NoVlanMeans(rules, order, |order|, q, n);
        }
      }
    }
  }

  lemma OrderMatches(rules: seq<Rule>, q: Request)
    ensures Denied(rules, q) <==> !MatchesNone(rules, Order(rules), q, true)
    ensures Allowed(rules, q) <==> !MatchesNone(rules, Order(rules), q, false)
  {
    var order := Order(rules);
    forall i: nat | i < |rules| && Matches(rules[i], q)
      ensures exists k :: 0 <= k < |order| && order[k] == i
    {
      OrderMembers(rules, i);
    }
    forall k | 0 <= k < |order| ensures order[k] < |rules| {
      OrderMembers(rules, order[k]);
    }
  }

  // What the policy decides, wherever it is started from.
  lemma WhatIsDecided(rules: seq<Rule>, q: Request, s: Setting)
    ensures var v := Run(Rendered(rules), q, s, None);
      && (!Differs(s.auth, s.absentDiffers) ==> v == No)
      && (Differs(s.auth, s.absentDiffers) ==>
            if Denied(rules, q) then v == No
            else if Allowed(rules, q) then v.Yes? && VlanIsLast(rules, q, v.vlan)
            else v.Yes? == (s.auth == Accepted))
  {
    var order := Order(rules);
    forall i | i in order ensures i < |rules| && At(rules, i).enabled {
      OrderMembers(rules, i);
    }
    if Differs(s.auth, s.absentDiffers) {
      RunDecides(rules, order, q, s, None);
      OrderMatches(rules, q);
      if Denied(rules, q) {
        var k :| 0 <= k < |order| && Matches(At(rules, order[k]), q) && Denies(At(rules, order[k]));
        DenyWins(rules, order, q, s.auth == Accepted, None, k);
      } else {
        AllowsDecide(rules, order, q, s.auth == Accepted, None);
        VlanDecided(rules, q);
      }
    } else {
      ClosedDecides(rules, order, q, s, None);
    }
  }

  const PLAIN := Rule(true, "allow", 100, "staff", "", [], "", 0)
  const STAFF := Request("staff", "", "alice")

  lemma PlainAllows()
    ensures Allowed([PLAIN], STAFF) && !Denied([PLAIN], STAFF)
  {
    assert Group(PLAIN) == "staff" by {
      assert Filter(NotQuote, "staff") == "staff" by {
        assert "staff"[..4] == "staf" && "staf"[..3] == "sta" && "sta"[..2] == "st" && "st"[..1] == "s";
      }
    }
    assert Matches([PLAIN][0], STAFF);
  }

  /** Whatever the rules and their order, the policy means deny overrides
      allow and nothing matched means no, exactly when its guard can hold at
      the start and the request was not accepted before. */
  lemma DenyOverridesAllow(s: Setting)
    ensures (forall rules: seq<Rule>, q: Request :: Means(rules, q, Run(Rendered(rules), q, s, None)))
        <==> s.auth == Other || (s.auth == Unset && s.absentDiffers)
  {
    if Differs(s.auth, s.absentDiffers) && s.auth != Accepted {
      forall rules: seq<Rule>, q: Request ensures Means(rules, q, Run(Rendered(rules), q, s, None)) {
        WhatIsDecided(rules, q, s);
      }
    } else if s.auth == Accepted {
      WhatIsDecided([], STAFF, s);
      assert !Means([], STAFF, Run(Rendered([]), STAFF, s, None));
    } else {
      WhatIsDecided([PLAIN], STAFF, s);
      PlainAllows();
      assert !Means([PLAIN], STAFF, Run(Rendered([PLAIN]), STAFF, s, None));
    }
  }

  // A VLAN replied is always one the network has.
  lemma VlanInRange(rules: seq<Rule>, q: Request, s: Setting)
    requires forall i :: 0 <= i < |rules| && rules[i].enabled ==> Renders(rules[i])
    ensures var v := Run(Rendered(rules), q, s, None);
      v.Yes? && v.vlan.Some? && Allowed(rules, q) ==> 1 <= v.vlan.value <= 4094
  {
    WhatIsDecided(rules, q, s);
  }

  // ------------------------------------------------------ in plain terms ----

  lemma {:induction false} FilterAll<T>(keep: T -> bool, s: seq<T>)
    requires forall x :: x in s ==> keep(x)
    ensures Filter(keep, s) == s
  {
    if |s| > 0 {
      FilterAll(keep, s[..|s| - 1]);
      assert s == s[..|s| - 1] + [s[|s| - 1]];
    }
  }

  /** A rule is for the group it names, and only without a name for the one its
      distinguished name says; quotes are taken out of either. */
  lemma GroupMeans(r: Rule)
    ensures '"' !in Group(r)
    ensures r.groupName != "" && '"' !in r.groupName ==> Group(r) == r.groupName
    ensures r.groupName == "" && '"' !in r.groupDn ==> Group(r) == r.groupDn
    ensures forall c :: c != '"' ==> (c in Group(r) <==> c in if r.groupName != "" then r.groupName else r.groupDn)
  {
    var text := if r.groupName != "" then r.groupName else r.groupDn;
    forall c ensures c in Group(r) <==> c in text && c != '"' {
      FilterMember(NotQuote, text, c);
    }
    if '"' !in text {
      FilterAll(NotQuote, text);
    }
  }

  /** A rule is about a request exactly when it is enabled, the request is of
      its group, comes from one of the networks it names (if it names any but
      the empty one), and is from a computer or a person as it says. */
  lemma MatchesExactly(r: Rule, q: Request)
    ensures Matches(r, q) <==>
      && r.enabled && q.group == Group(r)
      && ((forall n :: n in r.networks ==> n == "") || exists n :: n in r.networks && n != "" && Strip(n) == q.network)
      && (r.kind == "computer" ==> "host/" <= q.user || (|q.user| > 0 && q.user[|q.user| - 1] == '$'))
      && (r.kind == "user" ==> !("host/" <= q.user) && (|q.user| > 0 ==> q.user[|q.user| - 1] != '$'))
  {
  }

  predicate IsLabel(name: string) {
    && 1 <= |name| <= 63
    && ('a' <= name[0] <= 'z' || 'A' <= name[0] <= 'Z' || '0' <= name[0] <= '9')
    && forall c :: c in name ==>
         'a' <= c <= 'z' || 'A' <= c <= 'Z' || '0' <= c <= '9' || c in [' ', '.', '_', ':', '-']
  }

  /** A rule is refused exactly when a network it names is no name of a network
      once stripped, or when it allows with a VLAN out of range. */
  lemma RendersExactly(r: Rule)
    ensures Renders(r) <==>
      && (forall n :: n in r.networks && n != "" ==> Strip(n) == "" || IsLabel(Strip(n)))
      && (r.access != "deny" && r.vlan != 0 ==> 1 <= r.vlan <= 4094)
  {
    forall n | n in r.networks && n != "" {
      NetworkMember(r, Strip(n));
    }
    forall name | name in Networks(r) ensures exists n :: n in r.networks && n != "" && Strip(n) == name {
      NetworkMember(r, name);
    }
    forall name: string ensures GoodNetwork(name) <==> IsLabel(name) {
      LabelMeans(name);
    }
  }

  lemma LabelMeans(name: string)
    ensures GoodNetwork(name) <==> IsLabel(name)
  {
    if GoodNetwork(name) {
      forall c | c in name
        ensures 'a' <= c <= 'z' || 'A' <= c <= 'Z' || '0' <= c <= '9' || c in [' ', '.', '_', ':', '-']
      {
        var i :| 0 <= i < |name| && name[i] == c;
      }
    } else if IsLabel(name) {
      forall i | 1 <= i < |name| ensures Letter(name[i]) || name[i] in " ._:-" {
        assert name[i] in name;
      }
    }
  }

  // The two kinds of rule about a request.
  ghost predicate SaysNo(rules: seq<Rule>, i: nat, q: Request) {
    i < |rules| && Matches(rules[i], q) && rules[i].access == "deny"
  }

  ghost predicate SaysYes(rules: seq<Rule>, i: nat, q: Request) {
    i < |rules| && Matches(rules[i], q) && rules[i].access != "deny"
  }

  // Of the allowing rules about the request that have a VLAN, the one with the
  // highest number, and on a tie the one listed last.
  ghost predicate SetsIt(rules: seq<Rule>, q: Request, i: nat) {
    && SaysYes(rules, i, q) && rules[i].vlan != 0
    && forall j: nat :: SaysYes(rules, j, q) && rules[j].vlan != 0 && j != i ==>
         rules[i].ordering > rules[j].ordering || (rules[i].ordering == rules[j].ordering && i > j)
  }

  lemma WhoSays(rules: seq<Rule>, q: Request)
    ensures Denied(rules, q) <==> exists i: nat :: SaysNo(rules, i, q)
    ensures Allowed(rules, q) <==> exists i: nat :: SaysYes(rules, i, q)
  {
    if Denied(rules, q) {
      var i :| 0 <= i < |rules| && Matches(rules[i], q) && Denies(rules[i]);
      assert SaysNo(rules, i, q);
    }
    if Allowed(rules, q) {
      var i :| 0 <= i < |rules| && Matches(rules[i], q) && !Denies(rules[i]);
      assert SaysYes(rules, i, q);
    }
  }

  lemma WhichVlan(rules: seq<Rule>, q: Request, vlan: Option<int>)
    requires VlanIsLast(rules, q, vlan)
    ensures match vlan
            case None => forall i: nat :: SaysYes(rules, i, q) ==> rules[i].vlan == 0
            case Some(v) => exists i: nat :: SetsIt(rules, q, i) && rules[i].vlan == v
  {
    forall i: nat ensures GivesVlan(rules, q, i) <==> SaysYes(rules, i, q) && rules[i].vlan != 0 {
    }
    if vlan.Some? {
      var i: nat :| GivesVlan(rules, q, i) && rules[i].vlan == vlan.value
        && forall j: nat :: GivesVlan(rules, q, j) && j != i ==> Later(rules, i, j);
      forall j: nat | SaysYes(rules, j, q) && rules[j].vlan != 0 && j != i
        ensures rules[i].ordering > rules[j].ordering || (rules[i].ordering == rules[j].ordering && i > j)
      {
        assert GivesVlan(rules, q, j);
      }
      assert SetsIt(rules, q, i);
    }
  }

  /** Started as it should be, the policy says no exactly when some rule about
      the request denies or none allows; and what it accepts goes on the VLAN
      of the last allowing rule that has one. */
  lemma VerdictExactly(rules: seq<Rule>, q: Request, s: Setting)
    requires s.auth == Other || (s.auth == Unset && s.absentDiffers)
    ensures Run(Rendered(rules), q, s, None) == No
       <==> (exists i: nat :: SaysNo(rules, i, q)) || !(exists i: nat :: SaysYes(rules, i, q))
    ensures match Run(Rendered(rules), q, s, None)
            case No => true
            case Yes(None) => forall i: nat :: SaysYes(rules, i, q) ==> rules[i].vlan == 0
            case Yes(Some(v)) => exists i: nat :: SetsIt(rules, q, i) && rules[i].vlan == v
  {
    WhatIsDecided(rules, q, s);
    WhoSays(rules, q);
    match Run(Rendered(rules), q, s, None)
    case Yes(vlan) => WhichVlan(rules, q, vlan);
    case No =>
  }

  ghost predicate WrittenBefore(rules: seq<Rule>, i: nat, j: nat) {
    && i < |rules| && j < |rules|
    && if rules[i].access == "deny" then
         rules[j].access == "deny" ==>
           rules[i].ordering < rules[j].ordering || (rules[i].ordering == rules[j].ordering && i < j)
       else
         && rules[j].access != "deny"
         && (rules[i].ordering < rules[j].ordering || (rules[i].ordering == rules[j].ordering && i < j))
  }

  /** The rules are written with the denials first, then by their number, and
      on a tie as listed; each enabled one once, and no other. */
  lemma OrderExactly(rules: seq<Rule>)
    ensures forall i: nat :: i in Order(rules) <==> i < |rules| && rules[i].enabled
    ensures forall j, k :: 0 <= j < k < |Order(rules)| ==> WrittenBefore(rules, Order(rules)[j], Order(rules)[k])
  {
    forall i: nat ensures i in Order(rules) <==> i < |rules| && rules[i].enabled {
      OrderMembers(rules, i);
    }
    OrderRanked(rules);
    forall j, k | 0 <= j < k < |Order(rules)|
      ensures WrittenBefore(rules, Order(rules)[j], Order(rules)[k])
    {
      assert Order(rules)[j] in Order(rules) && Order(rules)[k] in Order(rules);
      RankedMeans(KeyAt(rules), Before(), Order(rules)[j], Order(rules)[k]);
    }
  }
}
