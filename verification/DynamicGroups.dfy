/** Groups defined by a query (api/odm/dynamicgroups.py): checking the
    conditions, and compiling them to the text of a search filter. */
module DynamicGroups {
  import opened Text
  import opened LdapFilter

  datatype Condition = Condition(attribute: string, operator: string, value: string)

  datatype Fault = TooMany | NoneGiven | UnknownAttribute | UnknownOperator | NoValue | TooLong | UnknownKind

  const ATTRIBUTES: set<string> := {
    "department", "title", "company", "physicalDeliveryOfficeName", "description",
    "userPrincipalName", "sAMAccountName", "operatingSystem", "dNSHostName"
  }

  const OPERATORS: set<string> := {"is", "is not", "starts with", "contains", "is set", "is not set"}

  const MOST_CONDITIONS := 16
  const LONGEST_VALUE := 256

  predicate NeedsValue(operator: string) {
    operator != "is set" && operator != "is not set"
  }

  // ------------------------------------------------------------- checking ----

  // What a cleaned condition is: its parts are known ones, and it carries a
  // value exactly when its operator compares with one.
  predicate Clean(c: Condition) {
    && c.attribute in ATTRIBUTES && c.operator in OPERATORS && |c.value| <= LONGEST_VALUE
    && (NeedsValue(c.operator) <==> c.value != "")
  }

  // The condition with a value only where one is compared.
  function Cleaned(c: Condition): Condition {
    if NeedsValue(c.operator) then c else c.(value := "")
  }

  // The first thing wrong with one condition, checked in the code's order.
  function FaultOf(c: Condition): (r: Option<Fault>)
    ensures r.None? <==> Clean(Cleaned(c))
  {
    if c.attribute !in ATTRIBUTES then Some(UnknownAttribute)
    else if c.operator !in OPERATORS then Some(UnknownOperator)
    else if NeedsValue(c.operator) && c.value == "" then Some(NoValue)
    else if |Cleaned(c).value| > LONGEST_VALUE then Some(TooLong)
    else None
  }

  // An absent key of a submitted condition is "" here.
  method Validate(conditions: seq<Condition>) returns (r: Result<seq<Condition>, Fault>)
    ensures r.Ok? <==>
            && 0 < |conditions| <= 16
            && forall i :: 0 <= i < |conditions| ==> Clean(Cleaned(conditions[i]))
    ensures r.Ok? ==> r.value == Map(Cleaned, conditions) && forall c :: c in r.value ==> Clean(c)
    ensures |conditions| > 16 ==> r == Err(TooMany)
    ensures conditions == [] ==> r == Err(NoneGiven)
    ensures 0 < |conditions| <= 16 && r.Err? ==>
              exists k :: && 0 <= k < |conditions| && FaultOf(conditions[k]) == Some(r.fault)
                          && forall j :: 0 <= j < k ==> FaultOf(conditions[j]) == None
  {
    if |conditions| > MOST_CONDITIONS {
      return Err(TooMany);
    }
    var cleaned: seq<Condition> := [];
    for i := 0 to |conditions|
      invariant |cleaned| == i
      invariant forall j :: 0 <= j < i ==> FaultOf(conditions[j]) == None
      invariant forall j :: 0 <= j < i ==> cleaned[j] == Cleaned(conditions[j])
    {
      var c := conditions[i];
      assert conditions[i] == c;
      if c.attribute !in ATTRIBUTES {
        return Err(UnknownAttribute);
      }
      if c.operator !in OPERATORS {
        return Err(UnknownOperator);
      }
      var value := c.value;
      if c.operator == "is set" || c.operator == "is not set" {
        value := "";
      } else if value == "" {
        return Err(NoValue);
      }
      if |value| > LONGEST_VALUE {
        return Err(TooLong);
      }
      cleaned := cleaned + [Condition(c.attribute, c.operator, value)];
    }
    if cleaned == [] {
      return Err(NoneGiven);
    }
    assert cleaned == Map(Cleaned, conditions);
    return Ok(cleaned);
  }

  // ------------------------------------------------------ what is meant ----

  // The filter one condition stands for.
  function Intended(c: Condition): Filter {
    match c.operator
    case "is" => Equal(c.attribute, c.value)
    case "is not" => Not(Equal(c.attribute, c.value))
    case "starts with" => Substrings(c.attribute, c.value, [], "")
    case "contains" => Substrings(c.attribute, "", [c.value], "")
    case "is set" => Present(c.attribute)
    case _ => Not(Present(c.attribute))
  }

  function KindFilter(kind: string): Filter {
    if kind == "user" then And([Equal("objectCategory", "person"), Equal("objectClass", "user")])
    else Equal("objectClass", "computer")
  }

  function Tree(kind: string, conditions: seq<Condition>, matchAll: bool): Filter {
    var parts := Map(Intended, conditions);
    And([KindFilter(kind), if matchAll then And(parts) else Or(parts)])
  }

  // ---------------------------------------------------------- compiling ----

  // The text written for one condition.
  function Written(c: Condition): string {
    var value := Escape(c.value);
    match c.operator
    case "is" => "(" + c.attribute + "=" + value + ")"
    case "is not" => "(!(" + c.attribute + "=" + value + "))"
    case "starts with" => "(" + c.attribute + "=" + value + "*)"
    case "contains" => "(" + c.attribute + "=*" + value + "*)"
    case "is set" => "(" + c.attribute + "=*)"
    case _ => "(!(" + c.attribute + "=*))"
  }

  // Python's "".join.
  function Joined(parts: seq<string>): string {
    if |parts| == 0 then "" else parts[0] + Joined(parts[1..])
  }

  function ClassText(name: string, value: string): string {
    "(" + name + "=" + value + ")"
  }

  function KindText(kind: string): string {
    if kind == "user" then
      "(&" + (ClassText("objectCategory", "person") + (ClassText("objectClass", "user") + ")"))
    else ClassText("objectClass", "computer")
  }

  function Combined(conditions: seq<Condition>, matchAll: bool): string {
    (if matchAll then "(&" else "(|") + (Joined(Map(Written, conditions)) + ")")
  }

  function FilterText(kind: string, conditions: seq<Condition>, matchAll: bool): string {
    "(&" + (KindText(kind) + (Combined(conditions, matchAll) + ")"))
  }

  predicate Known(c: Condition) {
    c.attribute in ATTRIBUTES && c.operator in OPERATORS
  }

  method WriteCondition(c: Condition) returns (r: Result<string, Fault>)
    ensures r.Ok? <==> Known(c)
    ensures r.Ok? ==> r.value == Written(c)
  {
    if c.attribute !in ATTRIBUTES {
      return Err(UnknownAttribute);
    }
    var value := Escape(c.value);
    match c.operator {
      case "is" => return Ok("(" + c.attribute + "=" + value + ")");
      case "is not" => return Ok("(!(" + c.attribute + "=" + value + "))");
      case "starts with" => return Ok("(" + c.attribute + "=" + value + "*)");
      case "contains" => return Ok("(" + c.attribute + "=*" + value + "*)");
      case "is set" => return Ok("(" + c.attribute + "=*)");
      case "is not set" => return Ok("(!(" + c.attribute + "=*))");
      case _ => return Err(UnknownOperator);
    }
  }

  method WriteAll(conditions: seq<Condition>) returns (r: Result<seq<string>, Fault>)
    ensures r.Ok? <==> forall c :: c in conditions ==> Known(c)
    ensures r.Ok? ==> r.value == Map(Written, conditions)
  {
    var parts: seq<string> := [];
    for i := 0 to |conditions|
      invariant |parts| == i
      invariant forall j :: 0 <= j < i ==> Known(conditions[j]) && parts[j] == Written(conditions[j])
    {
      var part := WriteCondition(conditions[i]);
      if part.Err? {
        assert conditions[i] in conditions;
        return Err(part.fault);
      }
      parts := parts + [part.value];
    }
    return Ok(parts);
  }

  method BuildFilter(kind: string, conditions: seq<Condition>, matchAll: bool) returns (r: Result<string, Fault>)
    ensures r.Ok? <==> kind in {"user", "computer"} && forall c :: c in conditions ==> Known(c)
    ensures r.Ok? ==> r.value == FilterText(kind, conditions, matchAll)
  {
    if kind != "user" && kind != "computer" {
      return Err(UnknownKind);
    }
    var parts := WriteAll(conditions);
    if parts.Err? {
      return Err(parts.fault);
    }
    var joined := Joined(parts.value);
    var combined := if matchAll then "(&" + (joined + ")") else "(|" + (joined + ")");
    return Ok("(&" + (KindText(kind) + (combined + ")")));
  }

  // ----------------------------------------------------- reading it back ----

  lemma LongAttributesAreNames(a: string)
    requires a == "userPrincipalName" || a == "operatingSystem"
    ensures IsName(a)
  {
  }

  lemma LongestAttributeIsName()
    ensures IsName("physicalDeliveryOfficeName")
  {
  }

  lemma AttributesAreNames(a: string)
    requires a in ATTRIBUTES
    ensures IsName(a)
  {
    if |a| > 20 {
      LongestAttributeIsName();
    } else if |a| > 14 {
      LongAttributesAreNames(a);
    }
  }

  // Reads "(name=" + value + end, where value has only escaped text in it.
  lemma ValueIsRead(name: string, front: string, v: string, end: string)
    requires IsName(name) && Scan(end).Some?
    requires front == "" || front == "*"
    ensures ParseFilter("(" + name + "=" + (front + (Escape(v) + end)))
         == (var s := Before(v, Scan(end).value);
             Some(Parsed(FromParts(name, if front == "" then s.parts else [""] + s.parts), s.rest[1..])))
  {
    ScanEscaped(v, end);
    var text := front + (Escape(v) + end);
    if front == "" {
      assert text == Escape(v) + end;
    } else {
      assert text[1..] == Escape(v) + end;
    }
    ItemIsRead(name, text);
  }

  lemma EndIsRead(tail: string)
    ensures Scan(")" + tail) == Some(Scanned([""], ")" + tail))
    ensures Scan("*)" + tail) == Some(Scanned(["", ""], ")" + tail))
    ensures (")" + tail)[1..] == tail
  {
    assert ("*)" + tail)[1..] == ")" + tail;
    assert [""] + [""] == ["", ""];
  }

  lemma EqualIsRead(name: string, v: string, tail: string)
    requires IsName(name)
    ensures ParseFilter("(" + name + "=" + ("" + (Escape(v) + (")" + tail)))) == Some(Parsed(Equal(name, v), tail))
  {
    EndIsRead(tail);
    ValueIsRead(name, "", v, ")" + tail);
    assert v + "" == v;
  }

  lemma PrefixIsRead(name: string, v: string, tail: string)
    requires IsName(name)
    ensures ParseFilter("(" + name + "=" + ("" + (Escape(v) + ("*)" + tail))))
         == Some(Parsed(if v == "" then Present(name) else Substrings(name, v, [], ""), tail))
  {
    EndIsRead(tail);
    ValueIsRead(name, "", v, "*)" + tail);
    var parts := Before(v, Scan("*)" + tail).value).parts;
    assert v + "" == v;
    assert parts == [v, ""];
    assert parts[1..1] == [];
  }

  lemma InnerIsRead(name: string, v: string, tail: string)
    requires IsName(name)
    ensures ParseFilter("(" + name + "=" + ("*" + (Escape(v) + ("*)" + tail))))
         == Some(Parsed(Substrings(name, "", [v], ""), tail))
  {
    EndIsRead(tail);
    ValueIsRead(name, "*", v, "*)" + tail);
    assert v + "" == v;
    var parts := [""] + Before(v, Scan("*)" + tail).value).parts;
    assert parts == ["", v, ""];
    assert parts[1..2] == [v];
  }

  // The filter the text of one condition is read back as. An empty prefix
  // is the one value that turns into something else.
  function Meant(c: Condition): Filter {
    if c.operator == "starts with" && c.value == "" then Present(c.attribute) else Intended(c)
  }

  lemma Regroup(name: string, front: string, value: string, end: string, tail: string)
    ensures "(" + name + "=" + front + value + end + tail == "(" + name + "=" + (front + (value + (end + tail)))
  {
  }

  lemma TextIsRead(name: string, v: string, tail: string)
    requires IsName(name)
    ensures ParseFilter("(" + name + "=" + Escape(v) + ")" + tail) == Some(Parsed(Equal(name, v), tail))
    ensures ParseFilter("(" + name + "=" + Escape(v) + "*)" + tail)
         == Some(Parsed(if v == "" then Present(name) else Substrings(name, v, [], ""), tail))
    ensures ParseFilter("(" + name + "=*" + Escape(v) + "*)" + tail)
         == Some(Parsed(Substrings(name, "", [v], ""), tail))
  {
    EqualIsRead(name, v, tail);
    PrefixIsRead(name, v, tail);
    InnerIsRead(name, v, tail);
    Regroup(name, "", Escape(v), ")", tail);
    Regroup(name, "", Escape(v), "*)", tail);
    Regroup(name, "*", Escape(v), "*)", tail);
    assert "(" + name + "=" + "" == "(" + name + "=";
    assert "(" + name + "=" + "*" == "(" + name + "=*";
  }

  lemma PresenceIsRead(name: string, tail: string)
    requires IsName(name)
    ensures ParseFilter("(" + name + "=*)" + tail) == Some(Parsed(Present(name), tail))
  {
    TextIsRead(name, "", tail);
    assert "(" + name + "=" + "" + "*)" == "(" + name + "=*)";
  }

  lemma NotEqualIsRead(name: string, v: string, tail: string)
    requires IsName(name)
    ensures ParseFilter("(!(" + name + "=" + Escape(v) + "))" + tail) == Some(Parsed(Not(Equal(name, v)), tail))
  {
    TextIsRead(name, v, ")" + tail);
    NotIsRead("(" + name + "=" + Escape(v) + ")" + (")" + tail), Equal(name, v), tail);
    NegatedText(name, Escape(v), tail);
  }

  lemma NegatedText(name: string, value: string, tail: string)
    ensures "(!(" + name + "=" + value + "))" + tail == "(!" + ("(" + name + "=" + value + ")" + (")" + tail))
  {
  }

  lemma AbsenceIsRead(name: string, tail: string)
    requires IsName(name)
    ensures ParseFilter("(!(" + name + "=*))" + tail) == Some(Parsed(Not(Present(name)), tail))
  {
    PresenceIsRead(name, ")" + tail);
    NotIsRead("(" + name + "=*)" + (")" + tail), Present(name), tail);
    assert "(!(" + name + "=*))" + tail == "(!" + ("(" + name + "=*)" + (")" + tail));
  }

  lemma WrittenIsRead(name: string, operator: string, v: string, tail: string)
    requires IsName(name) && operator in OPERATORS
    ensures var c := Condition(name, operator, v);
      ParseFilter(Written(c) + tail) == Some(Parsed(Meant(c), tail))
  {
    match operator
    case "is" => TextIsRead(name, v, tail);
    case "is not" => NotEqualIsRead(name, v, tail);
    case "starts with" => TextIsRead(name, v, tail);
    case "contains" => TextIsRead(name, v, tail);
    case "is set" => PresenceIsRead(name, tail);
    case _ => AbsenceIsRead(name, tail);
  }

  lemma ConditionIsRead(c: Condition, tail: string)
    requires Known(c)
    ensures ParseFilter(Written(c) + tail) == Some(Parsed(Meant(c), tail))
  {
    AttributesAreNames(c.attribute);
    WrittenIsRead(c.attribute, c.operator, c.value, tail);
  }

  lemma {:induction false} ConditionsAreRead(conditions: seq<Condition>, tail: string)
    requires forall c :: c in conditions ==> Known(c)
    ensures ParseList(Joined(Map(Written, conditions)) + (")" + tail))
         == Some(ParsedList(Map(Meant, conditions), ")" + tail))
  {
    if |conditions| == 0 {
      assert Joined(Map(Written, conditions)) + (")" + tail) == ")" + tail;
    } else {
      var rest := Joined(Map(Written, conditions[1..])) + (")" + tail);
      ConditionsAreRead(conditions[1..], tail);
      ConditionIsRead(conditions[0], rest);
      FirstOf(conditions);
      MoreIsRead(Written(conditions[0]), Meant(conditions[0]), rest,
        ParsedList(Map(Meant, conditions[1..]), ")" + tail));
      Associative(Written(conditions[0]), Joined(Map(Written, conditions[1..])), ")" + tail);
    }
  }

  lemma FirstOf(conditions: seq<Condition>)
    requires |conditions| > 0
    ensures Joined(Map(Written, conditions)) == Written(conditions[0]) + Joined(Map(Written, conditions[1..]))
    ensures Map(Meant, conditions) == [Meant(conditions[0])] + Map(Meant, conditions[1..])
    ensures |Written(conditions[0])| > 0 && Written(conditions[0])[0] == '('
  {
    assert Map(Written, conditions)[1..] == Map(Written, conditions[1..]);
  }

  // What the whole text is read back as.
  function MeantTree(kind: string, conditions: seq<Condition>, matchAll: bool): Filter {
    var parts := Map(Meant, conditions);
    And([KindFilter(kind), if matchAll then And(parts) else Or(parts)])
  }

  lemma PlainText(v: string)
    requires v in {"person", "user", "computer"}
    ensures Escape(v) == v
  {
    EscapePlain(v);
  }

  lemma {:induction false} EscapePlain(v: string)
    requires forall i :: 0 <= i < |v| ==> IsAttributeChar(v[i])
    ensures Escape(v) == v
  {
    if |v| > 0 {
      EscapePlain(v[1..]);
    }
  }

  lemma ClassIsRead(name: string, v: string, tail: string)
    requires name in {"objectCategory", "objectClass"} && v in {"person", "user", "computer"}
    ensures ParseFilter(ClassText(name, v) + tail) == Some(Parsed(Equal(name, v), tail))
  {
    PlainText(v);
    ClassName(name);
    TextIsRead(name, v, tail);
  }

  lemma ClassName(name: string)
    requires name in {"objectCategory", "objectClass"}
    ensures IsName(name)
  {
  }

  // Two filters side by side, as the code always joins them.
  lemma TwoAreRead(a: string, f: Filter, b: string, g: Filter, tail: string)
    requires |a| > 0 && a[0] == '(' && |b| > 0 && b[0] == '('
    requires ParseFilter(b + (")" + tail)) == Some(Parsed(g, ")" + tail))
    requires ParseFilter(a + (b + (")" + tail))) == Some(Parsed(f, b + (")" + tail)))
    ensures ParseFilter("(&" + (a + (b + (")" + tail)))) == Some(Parsed(And([f, g]), tail))
  {
    var end := ")" + tail;
    assert ParseList(end) == Some(ParsedList([], end));
    MoreIsRead(b, g, end, ParsedList([], end));
    assert [g] + [] == [g];
    MoreIsRead(a, f, b + end, ParsedList([g], end));
    assert [f] + [g] == [f, g];
    ListIsRead('&', a + (b + end), [f, g], tail);
  }

  lemma BothRegroup(a: string, b: string, tail: string)
    ensures "(&" + (a + (b + ")")) + tail == "(&" + (a + (b + (")" + tail)))
  {
  }

  lemma KindIsRead(kind: string, tail: string)
    requires kind in {"user", "computer"}
    ensures ParseFilter(KindText(kind) + tail) == Some(Parsed(KindFilter(kind), tail))
  {
    if kind == "user" {
      var person, user := ClassText("objectCategory", "person"), ClassText("objectClass", "user");
      ClassIsRead("objectClass", "user", ")" + tail);
      ClassIsRead("objectCategory", "person", user + (")" + tail));
      TwoAreRead(person, Equal("objectCategory", "person"), user, Equal("objectClass", "user"), tail);
      BothRegroup(person, user, tail);
    } else {
      ClassIsRead("objectClass", "computer", tail);
    }
  }

  lemma CombinedIsRead(conditions: seq<Condition>, matchAll: bool, tail: string)
    requires conditions != [] && forall c :: c in conditions ==> Known(c)
    ensures var parts := Map(Meant, conditions);
      ParseFilter(Combined(conditions, matchAll) + tail)
      == Some(Parsed(if matchAll then And(parts) else Or(parts), tail))
  {
    var sign := if matchAll then '&' else '|';
    var joined := Joined(Map(Written, conditions));
    ConditionsAreRead(conditions, tail);
    ListIsRead(sign, joined + (")" + tail), Map(Meant, conditions), tail);
    ListRegroup(sign, joined, tail);
  }

  lemma ListRegroup(sign: char, joined: string, tail: string)
    ensures ['(', sign] + (joined + ")") + tail == ['(', sign] + (joined + (")" + tail))
  {
  }

  lemma BothAreRead(a: string, f: Filter, b: string, g: Filter)
    requires |a| > 0 && a[0] == '(' && |b| > 0 && b[0] == '('
    requires ParseFilter(b + ")") == Some(Parsed(g, ")"))
    requires ParseFilter(a + (b + ")")) == Some(Parsed(f, b + ")"))
    ensures Parse("(&" + (a + (b + ")"))) == Some(And([f, g]))
  {
    assert ")" + "" == ")";
    TwoAreRead(a, f, b, g, "");
  }

  // The text is read back whole, whatever characters the values hold.
  lemma TextIsReadBack(kind: string, conditions: seq<Condition>, matchAll: bool)
    requires kind in {"user", "computer"}
    requires conditions != [] && forall c :: c in conditions ==> Known(c)
    ensures Parse(FilterText(kind, conditions, matchAll)) == Some(MeantTree(kind, conditions, matchAll))
  {
    var parts := Map(Meant, conditions);
    CombinedIsRead(conditions, matchAll, ")");
    KindIsRead(kind, Combined(conditions, matchAll) + ")");
    BothAreRead(KindText(kind), KindFilter(kind), Combined(conditions, matchAll),
                if matchAll then And(parts) else Or(parts));
  }

  lemma NoneAreRead(a: string, f: Filter, b: string)
    requires |a| > 0 && a[0] == '(' && |b| > 0 && b[0] == '('
    requires ParseFilter(b + ")") == None
    requires ParseFilter(a + (b + ")")) == Some(Parsed(f, b + ")"))
    ensures Parse("(&" + (a + (b + ")"))) == None
  {
    assert ParseList(a + (b + ")")) == None;
    assert ("(&" + (a + (b + ")")))[2..] == a + (b + ")");
  }

  lemma NoConditionsNoFilter(kind: string, matchAll: bool)
    requires kind in {"user", "computer"}
    ensures Parse(FilterText(kind, [], matchAll)) == None
  {
    var sign := if matchAll then '&' else '|';
    ConditionsAreRead([], ")");
    ListIsRead(sign, Joined(Map(Written, [])) + (")" + ")"), [], ")");
    ListRegroup(sign, Joined(Map(Written, [])), ")");
    KindIsRead(kind, Combined([], matchAll) + ")");
    NoneAreRead(KindText(kind), KindFilter(kind), Combined([], matchAll));
  }

  predicate EmptyPrefix(c: Condition) {
    c.operator == "starts with" && c.value == ""
  }

  lemma MeantIsIntended(conditions: seq<Condition>)
    ensures Map(Meant, conditions) == Map(Intended, conditions)
        <==> forall c :: c in conditions ==> !EmptyPrefix(c)
  {
    if c :| c in conditions && EmptyPrefix(c) {
      var i :| 0 <= i < |conditions| && conditions[i] == c;
      assert Map(Meant, conditions)[i] == Present(c.attribute);
      assert Map(Intended, conditions)[i] == Substrings(c.attribute, "", [], "");
    } else {
      assert forall i :: 0 <= i < |conditions| ==> !EmptyPrefix(conditions[i]);
    }
  }

  /** The text for known conditions parses back to the intended tree, whatever
      characters the values hold, exactly when there are conditions and none
      asks for an empty prefix, which reads as presence. */
  lemma ReadsAsIntended(kind: string, conditions: seq<Condition>, matchAll: bool)
    requires kind in {"user", "computer"} && forall c :: c in conditions ==> Known(c)
    ensures Parse(FilterText(kind, conditions, matchAll)) == Some(Tree(kind, conditions, matchAll))
        <==> conditions != [] && forall c :: c in conditions ==> !EmptyPrefix(c)
  {
    if conditions == [] {
      NoConditionsNoFilter(kind, matchAll);
    } else {
      TextIsReadBack(kind, conditions, matchAll);
      MeantIsIntended(conditions);
    }
  }

  // ------------------------------------------------------------- meaning ----

  // Whether an entry meets one condition, said without filters.
  ghost predicate Meets(entry: Entry, c: Condition, fold: string -> string) {
    var values, wanted := Values(entry, c.attribute), fold(c.value);
    match c.operator
    case "is" => exists w :: w in values && fold(w) == wanted
    case "is not" => forall w :: w in values ==> fold(w) != wanted
    case "starts with" => exists w :: w in values && wanted <= fold(w)
    case "contains" => exists w :: w in values && Within(wanted, fold(w))
    case "is set" => values != []
    case _ => values == []
  }

  ghost predicate Within(part: string, whole: string) {
    exists i :: 0 <= i <= |whole| - |part| && whole[i..][..|part|] == part
  }

  ghost predicate OfKind(kind: string, entry: Entry, fold: string -> string) {
    if kind == "user" then
      && (exists w :: w in Values(entry, "objectCategory") && fold(w) == fold("person"))
      && (exists w :: w in Values(entry, "objectClass") && fold(w) == fold("user"))
    else exists w :: w in Values(entry, "objectClass") && fold(w) == fold("computer")
  }

  // What a query asks of an entry.
  ghost predicate Answers(
    kind: string, conditions: seq<Condition>, matchAll: bool, entry: Entry, fold: string -> string)
  {
    && OfKind(kind, entry, fold)
    && (if matchAll then forall c :: c in conditions ==> Meets(entry, c, fold)
        else exists c :: c in conditions && Meets(entry, c, fold))
  }

  lemma ContainsMeans(wanted: string, s: string)
    ensures InOrder([wanted], "", s) <==> Within(wanted, s)
  {
    var parts := [wanted];
    assert parts[1..] == [] && parts[0] == wanted;
    forall t: string ensures InOrder(parts[1..], "", t) {
    }
    if Within(wanted, s) {
      var i :| 0 <= i <= |s| - |wanted| && s[i..][..|wanted|] == wanted;
      assert InOrder(parts[1..], "", s[i + |wanted|..]);
      assert s[i..][..|parts[0]|] == parts[0];
    }
  }

  lemma InnerMeans(entry: Entry, a: string, value: string, fold: string -> string)
    requires fold("") == ""
    ensures Eval(Substrings(a, "", [value], ""), entry, fold)
        <==> exists w :: w in Values(entry, a) && Within(fold(value), fold(w))
  {
    assert AllFolded(fold, [value]) == [fold(value)];
    forall w: string ensures InOrder([fold(value)], "", fold(w)[0..]) <==> Within(fold(value), fold(w)) {
      assert fold(w)[0..] == fold(w);
      ContainsMeans(fold(value), fold(w));
    }
  }

  lemma PrefixMeans(entry: Entry, a: string, value: string, fold: string -> string)
    requires fold("") == ""
    ensures Eval(Substrings(a, value, [], ""), entry, fold)
        <==> exists w :: w in Values(entry, a) && fold(value) <= fold(w)
  {
    assert AllFolded(fold, []) == [];
    assert forall t: string :: InOrder([], "", t);
  }

  lemma IntendedMeans(entry: Entry, c: Condition, fold: string -> string)
    requires Known(c) && fold("") == ""
    ensures Eval(Intended(c), entry, fold) <==> Meets(entry, c, fold)
  {
    match c.operator
    case "starts with" => PrefixMeans(entry, c.attribute, c.value, fold);
    case "contains" => InnerMeans(entry, c.attribute, c.value, fold);
    case _ =>
  }

  lemma KindMeans(kind: string, entry: Entry, fold: string -> string)
    ensures Eval(KindFilter(kind), entry, fold) <==> OfKind(kind, entry, fold)
  {
    var person, user := Equal("objectCategory", "person"), Equal("objectClass", "user");
    BothMean(person, user, entry, fold);
  }

  lemma BothMean(f: Filter, g: Filter, entry: Entry, fold: string -> string)
    ensures Eval(And([f, g]), entry, fold) <==> Eval(f, entry, fold) && Eval(g, entry, fold)
  {
    assert [f, g][0] == f && [f, g][1] == g;
  }

  lemma ListMeans(conditions: seq<Condition>, entry: Entry, fold: string -> string)
    requires fold("") == "" && forall c :: c in conditions ==> Known(c)
    ensures Eval(And(Map(Intended, conditions)), entry, fold) <==> forall c :: c in conditions ==> Meets(entry, c, fold)
    ensures Eval(Or(Map(Intended, conditions)), entry, fold) <==> exists c :: c in conditions && Meets(entry, c, fold)
  {
    var parts := Map(Intended, conditions);
    forall i | 0 <= i < |conditions|
      ensures conditions[i] in conditions && parts[i] in parts
      ensures Eval(parts[i], entry, fold) <==> Meets(entry, conditions[i], fold)
    {
      IntendedMeans(entry, conditions[i], fold);
    }
  }

  /** Searching with the text built for a validated query finds exactly the
      entries that answer the query, for any entry and any case folding. */
  lemma QueryMeans(kind: string, conditions: seq<Condition>, matchAll: bool, entry: Entry, fold: string -> string)
    requires kind in {"user", "computer"} && fold("") == ""
    requires conditions != [] && forall c :: c in conditions ==> Clean(c)
    ensures var f := Parse(FilterText(kind, conditions, matchAll));
      f.Some? && (Eval(f.value, entry, fold) <==> Answers(kind, conditions, matchAll, entry, fold))
  {
    ReadsAsIntended(kind, conditions, matchAll);
    var parts := Map(Intended, conditions);
    KindMeans(kind, entry, fold);
    ListMeans(conditions, entry, fold);
    BothMean(KindFilter(kind), if matchAll then And(parts) else Or(parts), entry, fold);
  }

  // ---------------------------------------------------------- membership ----

  // A dictionary from each folded name to the name as last written.
  function ByFolded(names: seq<string>): map<string, string> {
    if |names| == 0 then map[]
    else ByFolded(names[..|names| - 1])[Lower(names[|names| - 1]) := names[|names| - 1]]
  }

  datatype Change = Change(add: set<string>, remove: set<string>)

  // Who to add and who to remove; the code also sorts both.
  function MembershipChange(current: seq<string>, wanted: seq<string>): Change {
    var have, want := ByFolded(current), ByFolded(wanted);
    Change(set k | k in want.Keys - have.Keys :: want[k], set k | k in have.Keys - want.Keys :: have[k])
  }

  lemma {:induction false} ByFoldedMeans(names: seq<string>)
    ensures ByFolded(names).Keys == Folded(names)
    ensures forall k :: k in ByFolded(names) ==> ByFolded(names)[k] in names && Lower(ByFolded(names)[k]) == k
  {
    if |names| > 0 {
      var front, last := names[..|names| - 1], names[|names| - 1];
      ByFoldedMeans(front);
      assert names == front + [last];
      forall k ensures k in ByFolded(names) <==> k in Folded(names) {
        if k in Folded(names) {
          var n :| n in names && Lower(n) == k;
          assert n in front || n == last;
        }
      }
    }
  }

  /** The change adds wanted names nobody has and removes present ones nobody
      wants, in whatever case each is written, and made so, it leaves exactly
      who is wanted. */
  lemma ChangeIsRight(current: seq<string>, wanted: seq<string>)
    ensures var c := MembershipChange(current, wanted);
      && (forall a :: a in c.add ==> a in wanted && Lower(a) !in Folded(current))
      && (forall r :: r in c.remove ==> r in current && Lower(r) !in Folded(wanted))
      && (set a | a in c.add :: Lower(a)) == Folded(wanted) - Folded(current)
      && (set r | r in c.remove :: Lower(r)) == Folded(current) - Folded(wanted)
  {
    ByFoldedMeans(current);
    ByFoldedMeans(wanted);
    var have, want, c := ByFolded(current), ByFolded(wanted), MembershipChange(current, wanted);
    forall k | k in Folded(wanted) - Folded(current) ensures k in (set a | a in c.add :: Lower(a)) {
      assert want[k] in c.add && Lower(want[k]) == k;
    }
    forall k | k in Folded(current) - Folded(wanted) ensures k in (set r | r in c.remove :: Lower(r)) {
      assert have[k] in c.remove && Lower(have[k]) == k;
    }
  }

  /** Once the members are who is wanted, written in any case, there is nothing
      more to change, however often it is looked at. */
  lemma NothingMoreToChange(current: seq<string>, wanted: seq<string>)
    ensures MembershipChange(current, wanted) == Change({}, {}) <==> Folded(current) == Folded(wanted)
  {
    ChangeIsRight(current, wanted);
    var c := MembershipChange(current, wanted);
    if Folded(current) == Folded(wanted) {
      assert forall a :: a in c.add ==> Lower(a) in (set b | b in c.add :: Lower(b));
      assert forall r :: r in c.remove ==> Lower(r) in (set b | b in c.remove :: Lower(b));
    }
  }

  // ------------------------------------------------------ in plain terms ----

  predicate IsKnownAttribute(a: string) {
    || a == "department" || a == "title" || a == "company" || a == "physicalDeliveryOfficeName"
    || a == "description" || a == "userPrincipalName" || a == "sAMAccountName"
    || a == "operatingSystem" || a == "dNSHostName"
  }

  /** What is wrong with a condition, in the order it is looked for: an attribute
      or a comparison that is not one of those there are, no value where one is
      compared, and one of more than 256 characters. Otherwise it is kept as it
      is, without a value where none is compared. */
  lemma FaultExactly(c: Condition)
    ensures FaultOf(c) ==
      if !IsKnownAttribute(c.attribute) then Some(UnknownAttribute)
      else if c.operator == "is set" || c.operator == "is not set" then None
      else if c.operator != "is" && c.operator != "is not" && c.operator != "starts with" && c.operator != "contains"
      then Some(UnknownOperator)
      else if c.value == "" then Some(NoValue)
      else if |c.value| > 256 then Some(TooLong)
      else None
    ensures c.operator == "is set" || c.operator == "is not set" ==>
      Cleaned(c) == Condition(c.attribute, c.operator, "")
    ensures c.operator != "is set" && c.operator != "is not set" ==> Cleaned(c) == c
  {
  }

  /** The text of one condition, by its comparison. */
  lemma WrittenExactly(a: string, v: string)
    ensures Written(Condition(a, "is", v)) == "(" + a + "=" + Escape(v) + ")"
    ensures Written(Condition(a, "is not", v)) == "(!(" + a + "=" + Escape(v) + "))"
    ensures Written(Condition(a, "starts with", v)) == "(" + a + "=" + Escape(v) + "*)"
    ensures Written(Condition(a, "contains", v)) == "(" + a + "=*" + Escape(v) + "*)"
    ensures Written(Condition(a, "is set", v)) == "(" + a + "=*)"
    ensures Written(Condition(a, "is not set", v)) == "(!(" + a + "=*))"
  {
  }

  /** The text of a query: who it is about and the conditions, one after the
      other, joined by "and" or by "or". */
  lemma TextExactly(conditions: seq<Condition>, matchAll: bool)
    ensures var parts := (if matchAll then "(&" else "(|") + (Joined(Map(Written, conditions)) + ")");
      && FilterText("user", conditions, matchAll) == "(&" + (
           ("(&" + (("(" + "objectCategory" + "=" + "person" + ")")
                    + (("(" + "objectClass" + "=" + "user" + ")") + ")")))
           + (parts + ")"))
      && FilterText("computer", conditions, matchAll)
           == "(&" + (("(" + "objectClass" + "=" + "computer" + ")") + (parts + ")"))
  {
  }
}
