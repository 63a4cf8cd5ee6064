/** Computer names by policy: a template and the next number in it
    (api/odm/naming.py). A template is taken as split at its placeholder. */
module Naming {
  import opened Text
  import opened Numerals

  datatype Template = Template(prefix: string, width: nat, suffix: string)

  predicate IsNameChar(c: char) {
    'a' <= c <= 'z' || 'A' <= c <= 'Z' || IsDigit(c) || c == '-'
  }

  predicate IsTemplate(t: Template) {
    && t.width < 10
    && (forall i :: 0 <= i < |t.prefix| ==> IsNameChar(t.prefix[i]))
    && (forall i :: 0 <= i < |t.suffix| ==> IsNameChar(t.suffix[i]))
  }

  function Render(t: Template, n: nat): string {
    t.prefix + Pad(Print(n), t.width) + t.suffix
  }

  // The number in a text of the template, whatever the case of its letters.
  function NumberWithin(t: Template, s: string): Option<nat> {
    if |s| <= |t.prefix| + |t.suffix| then None
    else
      var digits := s[|t.prefix|..|s| - |t.suffix|];
      if Lower(s[..|t.prefix|]) == Lower(t.prefix) && AllDigits(digits)
         && Lower(s[|s| - |t.suffix|..]) == Lower(t.suffix)
      then Some(Read(digits)) else None
  }

  function NumberIn(t: Template, name: string): Option<nat> {
    NumberWithin(t, Chopped(name))
  }

  function Short(cn: string): string {
    UpTo(cn, '.')
  }

  lemma SplitsBack(prefix: string, digits: string, suffix: string)
    ensures var s := prefix + digits + suffix;
      && s[..|prefix|] == prefix && s[|prefix|..|s| - |suffix|] == digits && s[|s| - |suffix|..] == suffix
  {
  }

  /** A template's own names are recognised, and their number read back,
      whatever digits the template itself has around it and however it pads. */
  lemma NumberIsRead(t: Template, n: nat)
    requires IsTemplate(t)
    ensures NumberIn(t, Render(t, n)) == Some(n)
  {
    var digits := Pad(Print(n), t.width);
    var s := Render(t, n);
    PadRead(n, t.width);
    SplitsBack(t.prefix, digits, t.suffix);
    if |t.suffix| > 0 {
      assert s[|s| - 1] == t.suffix[|t.suffix| - 1];
    } else {
      assert s[|s| - 1] == digits[|digits| - 1];
    }
    assert Chopped(s) == s;
  }

  lemma RenderedHasNoDot(t: Template, n: nat)
    requires IsTemplate(t)
    ensures '.' !in Render(t, n)
  {
    PadRead(n, t.width);
    forall i | 0 <= i < |Render(t, n)| ensures Render(t, n)[i] != '.' {
      var digits := Pad(Print(n), t.width);
      assert |t.prefix| <= i < |t.prefix| + |digits| ==> Render(t, n)[i] == digits[i - |t.prefix|];
    }
  }

  lemma LowerLetter(a: char, b: char)
    requires LowerChar(a) == LowerChar(b)
    ensures IsDigit(a) || a == '\n' || a == '.' ==> a == b
  {
  }

  lemma LowerSlices(a: string, b: string, i: nat, j: nat)
    requires Lower(a) == Lower(b) && i <= j <= |a|
    ensures |a| == |b| && Lower(a[i..j]) == Lower(b[i..j])
    ensures AllDigits(a[i..j]) ==> a[i..j] == b[i..j]
  {
    assert |Lower(a)| == |a| && |Lower(b)| == |b|;
    forall k | 0 <= k < |a| ensures LowerChar(a[k]) == LowerChar(b[k]) {
      assert Lower(a)[k] == Lower(b)[k];
    }
    forall k | 0 <= k < j - i ensures AllDigits(a[i..j]) ==> a[i..j][k] == b[i..j][k] {
      LowerLetter(a[i + k], b[i + k]);
    }
  }

  lemma LowerChopped(a: string, b: string)
    requires Lower(a) == Lower(b)
    ensures Lower(Chopped(a)) == Lower(Chopped(b))
  {
    LowerSlices(a, b, 0, |a|);
    if |a| > 0 {
      LowerSlices(a, b, 0, |a| - 1);
      assert Lower(a)[|a| - 1] == Lower(b)[|a| - 1];
      LowerLetter(a[|a| - 1], b[|a| - 1]);
      LowerLetter(b[|a| - 1], a[|a| - 1]);
      assert a[0..|a| - 1] == a[..|a| - 1] && b[0..|a| - 1] == b[..|a| - 1];
    }
  }

  lemma LowerStarts(a: string, b: string, n: nat)
    requires Lower(a) == Lower(b) && n <= |a|
    ensures |a| == |b| && Lower(a[..n]) == Lower(b[..n])
  {
    LowerSlices(a, b, 0, n);
    assert a[0..n] == a[..n] && b[0..n] == b[..n];
  }

  lemma LowerEnds(a: string, b: string, n: nat)
    requires Lower(a) == Lower(b) && n <= |a|
    ensures |a| == |b| && Lower(a[n..]) == Lower(b[n..])
  {
    LowerSlices(a, b, n, |a|);
    assert a[n..|a|] == a[n..] && b[n..|b|] == b[n..];
  }

  lemma SameLetters(t: Template, s: string, u: string)
    requires Lower(s) == Lower(u) && NumberWithin(t, s).Some?
    ensures NumberWithin(t, u) == NumberWithin(t, s)
  {
    LowerStarts(s, u, |t.prefix|);
    LowerSlices(s, u, |t.prefix|, |s| - |t.suffix|);
    LowerEnds(s, u, |s| - |t.suffix|);
  }

  // Two names that differ in letter case only carry the same number.
  lemma CaseIsIgnored(t: Template, a: string, b: string)
    requires Lower(a) == Lower(b)
    ensures NumberIn(t, a) == NumberIn(t, b)
  {
    LowerChopped(a, b);
    if NumberIn(t, a).Some? {
      SameLetters(t, Chopped(a), Chopped(b));
    } else if NumberIn(t, b).Some? {
      SameLetters(t, Chopped(b), Chopped(a));
    }
  }

  // -------------------------------------------------------------- schemes ----

  // A template as the assignments use it: the number in a name, and the name
  // for a number.
  datatype Scheme = Scheme(template: Template, number: string -> Option<nat>, make: nat -> string)

  function SchemeOf(t: Template): Scheme {
    Scheme(t, (name: string) => NumberIn(t, name), (n: nat) => Render(t, n))
  }

  ghost predicate Lawful(s: Scheme) {
    && (forall n: nat :: s.number(s.make(n)) == Some(n) && '.' !in s.make(n))
    && (forall a: string, b: string :: Lower(a) == Lower(b) ==> s.number(a) == s.number(b))
  }

  /** What the assignments rest on, of any template. */
  lemma TemplatesAreLawful(t: Template)
    requires IsTemplate(t)
    ensures Lawful(SchemeOf(t))
  {
    var s := SchemeOf(t);
    forall n: nat ensures s.number(s.make(n)) == Some(n) && '.' !in s.make(n) {
      NumberIsRead(t, n);
      RenderedHasNoDot(t, n);
    }
    forall a: string, b: string | Lower(a) == Lower(b) ensures s.number(a) == s.number(b) {
      CaseIsIgnored(t, a, b);
    }
  }

  predicate Fits(s: Scheme, name: string) {
    s.number(name).Some?
  }

  // ------------------------------------------------------- the next number ----

  datatype Row = Row(dn: string, name: string, template: Template)

  predicate Below(s: Scheme, name: string, n: nat) {
    s.number(name).Some? ==> s.number(name).value < n
  }

  // What the pattern finds in each of a list of names.
  function NumbersIn(s: Scheme, names: seq<string>): (r: seq<Option<nat>>)
    ensures |r| == |names|
    ensures forall i :: 0 <= i < |names| ==> r[i] == s.number(names[i])
  {
    seq(|names|, i requires 0 <= i < |names| => s.number(names[i]))
  }

  // The names handed out under one template.
  function NamesUnder(s: Scheme, rows: seq<Row>): seq<string> {
    if |rows| == 0 then []
    else NamesUnder(s, rows[..|rows| - 1])
         + if rows[|rows| - 1].template == s.template then [rows[|rows| - 1].name] else []
  }

  lemma {:induction false} UnderMember(s: Scheme, rows: seq<Row>, name: string)
    ensures name in NamesUnder(s, rows)
        <==> exists i :: 0 <= i < |rows| && rows[i].template == s.template && rows[i].name == name
  {
    if |rows| > 0 {
      UnderMember(s, rows[..|rows| - 1], name);
    }
  }

  // The highest of some numbers, or where one starts when none is higher.
  function HighestOf(numbers: seq<Option<nat>>, start: nat): nat {
    if |numbers| == 0 then start
    else
      var before := HighestOf(numbers[..|numbers| - 1], start);
      match numbers[|numbers| - 1]
      case Some(n) => if n > before then n else before
      case None => before
  }

  lemma {:induction false} HighestMeans(numbers: seq<Option<nat>>, start: nat)
    ensures HighestOf(numbers, start) >= start
    ensures forall i :: 0 <= i < |numbers| && numbers[i].Some? ==> numbers[i].value <= HighestOf(numbers, start)
    ensures HighestOf(numbers, start) == start || Some(HighestOf(numbers, start)) in numbers
  {
    if |numbers| > 0 {
      HighestMeans(numbers[..|numbers| - 1], start);
    }
  }

  method Highest(numbers: seq<Option<nat>>, start: nat) returns (highest: nat)
    ensures highest == HighestOf(numbers, start)
  {
    highest := start;
    assert numbers[..0] == [];
    for k := 0 to |numbers|
      invariant highest == HighestOf(numbers[..k], start)
    {
      assert numbers[..k + 1][..k] == numbers[..k];
      if numbers[k].Some? && numbers[k].value > highest {
        highest := numbers[k].value;
      }
    }
    assert numbers[..|numbers|] == numbers;
  }

  function InDirectory(s: Scheme, found: seq<string>): seq<Option<nat>> {
    NumbersIn(s, Map(Short, found))
  }

  function GivenOut(s: Scheme, rows: seq<Row>): seq<Option<nat>> {
    NumbersIn(s, NamesUnder(s, rows))
  }

  function NextOf(s: Scheme, found: seq<string>, rows: seq<Row>): nat {
    HighestOf(GivenOut(s, rows), HighestOf(InDirectory(s, found), 0)) + 1
  }

  method NextNumber(s: Scheme, found: seq<string>, rows: seq<Row>) returns (n: nat)
    ensures n == NextOf(s, found, rows)
  {
    var highest := Highest(InDirectory(s, found), 0);
    highest := Highest(GivenOut(s, rows), highest);
    return highest + 1;
  }

  lemma NumbersBelow(s: Scheme, names: seq<string>, n: nat)
    requires forall i :: 0 <= i < |names| && NumbersIn(s, names)[i].Some? ==> NumbersIn(s, names)[i].value < n
    ensures forall i :: 0 <= i < |names| ==> Below(s, names[i], n)
  {
    forall i | 0 <= i < |names| ensures Below(s, names[i], n) {
      assert NumbersIn(s, names)[i] == s.number(names[i]);
    }
  }

  lemma GivenBelow(s: Scheme, rows: seq<Row>, n: nat)
    requires forall i :: 0 <= i < |NamesUnder(s, rows)| ==> Below(s, NamesUnder(s, rows)[i], n)
    ensures forall i :: 0 <= i < |rows| && rows[i].template == s.template ==> Below(s, rows[i].name, n)
  {
    forall i | 0 <= i < |rows| && rows[i].template == s.template ensures Below(s, rows[i].name, n) {
      UnderMember(s, rows, rows[i].name);
      var j :| 0 <= j < |NamesUnder(s, rows)| && NamesUnder(s, rows)[j] == rows[i].name;
    }
  }

  // The next number is one past the highest in use, in the directory or
  // handed out under the template; the first is 1.
  lemma NextIsOnePast(s: Scheme, found: seq<string>, rows: seq<Row>)
    ensures var n := NextOf(s, found, rows);
      && n > 0
      && (forall i :: 0 <= i < |found| ==> Below(s, Short(found[i]), n))
      && (forall i :: 0 <= i < |rows| && rows[i].template == s.template ==> Below(s, rows[i].name, n))
      && (n > 1 ==> Some(n - 1) in InDirectory(s, found) || Some(n - 1) in GivenOut(s, rows))
  {
    HighestMeans(InDirectory(s, found), 0);
    HighestMeans(GivenOut(s, rows), HighestOf(InDirectory(s, found), 0));
    var n := NextOf(s, found, rows);
    NumbersBelow(s, Map(Short, found), n);
    forall i | 0 <= i < |found| ensures Below(s, Short(found[i]), n) {
      assert Map(Short, found)[i] == Short(found[i]);
    }
    NumbersBelow(s, NamesUnder(s, rows), n);
    GivenBelow(s, rows, n);
  }

  // A number above every one in use gives a name that is nobody's.
  lemma NameIsNew(s: Scheme, n: nat, name: string)
    requires Lawful(s) && Below(s, name, n)
    ensures Lower(s.make(n)) != Lower(name)
  {
    assert s.number(s.make(n)) == Some(n);
  }

  // -------------------------------------------------------- the assignments ----

  datatype Answer = AlreadyFits | Named(name: string) | NameTaken

  // What looking a machine up may return: any row with its distinguished
  // name in whatever case, or none when there is none.
  predicate Finds(rows: seq<Row>, dn: string, at: Option<nat>) {
    match at
    case Some(i) => i < |rows| && Lower(rows[i].dn) == Lower(dn)
    case None => forall i :: 0 <= i < |rows| ==> Lower(rows[i].dn) != Lower(dn)
  }

  // The row for exactly this name is replaced, else one is added.
  function Put(rows: seq<Row>, row: Row): (r: seq<Row>)
    ensures row in r
    ensures forall i :: 0 <= i < |rows| && rows[i].dn != row.dn ==> i < |r| && r[i] == rows[i]
  {
    if i :| 0 <= i < |rows| && rows[i].dn == row.dn && forall j :: 0 <= j < i ==> rows[j].dn != row.dn
    then
      var after := rows[i := row];
      assert after[i] == row;
      after
    else
      var after := rows + [row];
      assert after[|rows|] == row;
      after
  }

  predicate NameFree(rows: seq<Row>, row: Row) {
    forall i :: 0 <= i < |rows| && rows[i].dn != row.dn ==> Lower(rows[i].name) != Lower(row.name)
  }

  // What a machine asks with, what the directory holds then, and the row its
  // lookup returns.
  datatype Ask = Ask(dn: string, current: string, found: seq<string>, at: Option<nat>)

  // Whether an ask is one that hands out a new number.
  predicate Issues(s: Scheme, rows: seq<Row>, e: Ask) {
    !Fits(s, e.current) && (e.at.None? || e.at.value >= |rows| || rows[e.at.value].template != s.template)
  }

  function NewRow(s: Scheme, rows: seq<Row>, e: Ask): Row {
    Row(e.dn, s.make(NextOf(s, e.found, rows)), s.template)
  }

  function AnswerTo(s: Scheme, rows: seq<Row>, e: Ask): Answer {
    if Fits(s, e.current) then AlreadyFits
    else if !Issues(s, rows, e) then Named(rows[e.at.value].name)
    else if NameFree(rows, NewRow(s, rows, e)) then Named(NewRow(s, rows, e).name)
    else NameTaken
  }

  function RowsAfter(s: Scheme, rows: seq<Row>, e: Ask): seq<Row> {
    if Issues(s, rows, e) && NameFree(rows, NewRow(s, rows, e)) then Put(rows, NewRow(s, rows, e)) else rows
  }

  // Every row of one machine under its new name.
  function Renamed(rows: seq<Row>, dn: string, newDn: string): (r: seq<Row>)
    ensures |r| == |rows|
    ensures forall i :: 0 <= i < |rows| ==>
      r[i] == if Lower(rows[i].dn) == Lower(dn) then rows[i].(dn := newDn) else rows[i]
  {
    seq(|rows|, i requires 0 <= i < |rows| =>
      if Lower(rows[i].dn) == Lower(dn) then rows[i].(dn := newDn) else rows[i])
  }

  predicate KeysDiffer(rows: seq<Row>) {
    forall i, j :: 0 <= i < j < |rows| ==> rows[i].dn != rows[j].dn
  }

  // The rows follow a machine that took a new name. An update that would give
  // two rows one key fails as a whole, and the failure is passed over.
  function Followed(rows: seq<Row>, dn: string, newDn: string): seq<Row> {
    if KeysDiffer(Renamed(rows, dn, newDn)) then Renamed(rows, dn, newDn) else rows
  }

  class Office {
    var rows: seq<Row>

    constructor ()
      ensures rows == []
    {
      rows := [];
    }

    // The name a machine should have, or none when it has one that fits.
    // Assigned once and remembered; refused only when another machine has
    // the name, by another template.
    method Assign(s: Scheme, e: Ask) returns (r: Answer)
      requires Finds(rows, e.dn, e.at)
      modifies this
      ensures r == AnswerTo(s, old(rows), e) && rows == RowsAfter(s, old(rows), e)
    {
      if Fits(s, e.current) {
        return AlreadyFits;
      }
      if e.at.Some? && rows[e.at.value].template == s.template {
        return Named(rows[e.at.value].name);
      }
      var n := NextNumber(s, e.found, rows);
      var row := Row(e.dn, s.make(n), s.template);
      if !NameFree(rows, row) {
        return NameTaken;
      }
      rows := Put(rows, row);
      return Named(row.name);
    }

    method Follow(dn: string, newDn: string)
      modifies this
      ensures rows == Followed(old(rows), dn, newDn)
    {
      var updated: seq<Row> := [];
      for i := 0 to |rows|
        invariant rows == old(rows) && |updated| == i
        invariant forall j :: 0 <= j < i ==> updated[j] == Renamed(rows, dn, newDn)[j]
      {
        var row := rows[i];
        updated := updated + [if Lower(row.dn) == Lower(dn) then row.(dn := newDn) else row];
      }
      assert updated == Renamed(rows, dn, newDn);
      if KeysDiffer(updated) {
        rows := updated;
      }
    }
  }

  // ------------------------------------------------------------- invariant ----

  // Rows in the order they were issued: one template, numbers strictly
  // increasing.
  ghost predicate Numbered(s: Scheme, rows: seq<Row>) {
    && (forall i :: 0 <= i < |rows| ==> rows[i].template == s.template && Fits(s, rows[i].name))
    && (forall i, j :: 0 <= i < j < |rows| ==> s.number(rows[i].name).value < s.number(rows[j].name).value)
  }

  // Rows keep their place, and the name and template they were issued with.
  ghost predicate Grown(rows: seq<Row>, after: seq<Row>) {
    && |rows| <= |after|
    && forall i :: 0 <= i < |rows| ==> after[i].name == rows[i].name && after[i].template == rows[i].template
  }

  lemma NumberedMore(s: Scheme, rows: seq<Row>, row: Row, n: nat)
    requires Numbered(s, rows) && row.template == s.template && s.number(row.name) == Some(n)
    requires forall i :: 0 <= i < |rows| ==> Below(s, rows[i].name, n)
    ensures Numbered(s, rows + [row])
  {
  }

  lemma NumberIsFree(s: Scheme, rows: seq<Row>, dn: string, n: nat)
    requires Lawful(s) && forall i :: 0 <= i < |rows| ==> Below(s, rows[i].name, n)
    ensures forall i :: 0 <= i < |rows| ==> Lower(rows[i].name) != Lower(s.make(n))
    ensures NameFree(rows, Row(dn, s.make(n), s.template))
  {
    forall i | 0 <= i < |rows| ensures Lower(rows[i].name) != Lower(s.make(n)) {
      NameIsNew(s, n, rows[i].name);
    }
  }

  lemma PutIsNew(rows: seq<Row>, row: Row)
    requires Finds(rows, row.dn, None)
    ensures Put(rows, row) == rows + [row]
  {
  }

  lemma NewRowFits(s: Scheme, rows: seq<Row>, row: Row, found: seq<string>)
    requires Lawful(s) && Numbered(s, rows) && row == Row(row.dn, s.make(NextOf(s, found, rows)), s.template)
    ensures NameFree(rows, row) && Numbered(s, rows + [row])
  {
    var n := NextOf(s, found, rows);
    NextIsOnePast(s, found, rows);
    NumberIsFree(s, rows, row.dn, n);
    NumberedMore(s, rows, row, n);
  }

  // With one template a new number always makes a free name and a new last row.
  lemma IssuingAdds(s: Scheme, rows: seq<Row>, e: Ask)
    requires Lawful(s) && Numbered(s, rows) && Finds(rows, e.dn, e.at) && Issues(s, rows, e)
    ensures RowsAfter(s, rows, e) == rows + [NewRow(s, rows, e)] && Numbered(s, rows + [NewRow(s, rows, e)])
    ensures AnswerTo(s, rows, e) == Named(NewRow(s, rows, e).name)
    ensures Finds(rows, NewRow(s, rows, e).dn, None)
  {
    NewRowFits(s, rows, NewRow(s, rows, e), e.found);
    PutIsNew(rows, NewRow(s, rows, e));
  }

  lemma AskKeeps(s: Scheme, rows: seq<Row>, e: Ask)
    requires Lawful(s) && Numbered(s, rows) && Finds(rows, e.dn, e.at)
    ensures Numbered(s, RowsAfter(s, rows, e)) && rows <= RowsAfter(s, rows, e)
    ensures KeysDiffer(rows) ==> KeysDiffer(RowsAfter(s, rows, e))
  {
    if Issues(s, rows, e) {
      IssuingAdds(s, rows, e);
      NewKeyDiffers(rows, NewRow(s, rows, e));
    }
  }

  lemma NewKeyDiffers(rows: seq<Row>, row: Row)
    requires Finds(rows, row.dn, None)
    ensures KeysDiffer(rows) ==> KeysDiffer(rows + [row])
  {
  }

  lemma FollowedKeeps(s: Scheme, rows: seq<Row>, dn: string, newDn: string)
    requires Numbered(s, rows)
    ensures Numbered(s, Followed(rows, dn, newDn)) && Grown(rows, Followed(rows, dn, newDn))
    ensures KeysDiffer(rows) ==> KeysDiffer(Followed(rows, dn, newDn))
  {
  }

  // Different rows hold names that differ in more than letter case.
  lemma RowsDiffer(s: Scheme, rows: seq<Row>, i: nat, j: nat)
    requires Lawful(s) && Numbered(s, rows) && i < |rows| && j < |rows| && i != j
    ensures Lower(rows[i].name) != Lower(rows[j].name)
  {
    if Lower(rows[i].name) == Lower(rows[j].name) {
      assert false;
    }
  }

  /** A number handed out is above every one handed out before, and the name it
      makes differs, in more than letter case, from every name in the directory
      then and from every earlier assignment; with one template it is never
      refused. */
  lemma NewNamesAreNew(s: Scheme, rows: seq<Row>, e: Ask)
    requires Lawful(s) && Numbered(s, rows) && Finds(rows, e.dn, e.at) && Issues(s, rows, e)
    ensures var r := AnswerTo(s, rows, e);
      && r.Named? && s.number(r.name).Some?
      && (forall i :: 0 <= i < |rows| ==> Below(s, rows[i].name, s.number(r.name).value))
      && (forall i :: 0 <= i < |rows| ==> Lower(rows[i].name) != Lower(r.name))
      && (forall i :: 0 <= i < |e.found| ==> Lower(Short(e.found[i])) != Lower(r.name))
  {
    var n := NextOf(s, e.found, rows);
    IssuingAdds(s, rows, e);
    NextIsOnePast(s, e.found, rows);
    NumberIsFree(s, rows, e.dn, n);
    forall i | 0 <= i < |e.found| {
      NameIsNew(s, n, Short(e.found[i]));
    }
  }

  // With one template a machine is left alone exactly when its name fits, and
  // handed a number exactly when it does not and no row is under its name.
  lemma WhoIsHandedANumber(s: Scheme, rows: seq<Row>, e: Ask)
    requires Lawful(s) && Numbered(s, rows) && Finds(rows, e.dn, e.at)
    ensures AnswerTo(s, rows, e) != NameTaken && (AnswerTo(s, rows, e) == AlreadyFits <==> Fits(s, e.current))
    ensures Issues(s, rows, e) <==> !Fits(s, e.current) && e.at.None?
  {
    if Fits(s, e.current) {
    } else if e.at.Some? {
      assert rows[e.at.value].template == s.template;
    } else {
      IssuingAdds(s, rows, e);
    }
  }

  // ------------------------------------------------------ in plain terms ----

  // A text of the template but for letter case, with these digits in it.
  predicate IsText(t: Template, text: string, head: string, digits: string, tail: string) {
    && text == head + digits + tail && |digits| > 0 && AllDigits(digits)
    && Lower(head) == Lower(t.prefix) && Lower(tail) == Lower(t.suffix)
  }

  lemma WithinMeans(t: Template, text: string) returns (head: string, digits: string, tail: string)
    requires NumberWithin(t, text).Some?
    ensures IsText(t, text, head, digits, tail) && NumberWithin(t, text) == Some(Read(digits))
  {
    var m, n := |t.prefix|, |text| - |t.suffix|;
    head, digits, tail := text[..m], text[m..n], text[n..];
  }

  lemma TextIsWithin(t: Template, text: string, head: string, digits: string, tail: string)
    requires IsText(t, text, head, digits, tail)
    ensures NumberWithin(t, text) == Some(Read(digits))
  {
    assert |head| == |Lower(head)| == |t.prefix| && |tail| == |Lower(tail)| == |t.suffix|;
    SplitsBack(head, digits, tail);
  }

  /** A name carries a number only as the template's prefix, digits and the
      template's suffix, in whatever case, and at most a newline after them. */
  lemma NumberedOnlySo(t: Template, name: string) returns (head: string, digits: string, tail: string)
    requires NumberIn(t, name).Some?
    ensures || IsText(t, name, head, digits, tail)
            || (IsText(t, Chopped(name), head, digits, tail) && name == Chopped(name) + "\n")
    ensures NumberIn(t, name) == Some(Read(digits))
  {
    head, digits, tail := WithinMeans(t, Chopped(name));
  }

  /** And every such name carries it. */
  lemma SuchNamesAreNumbered(t: Template, name: string, head: string, digits: string, tail: string)
    requires IsText(t, name, head, digits, tail) && (|name| > 0 ==> name[|name| - 1] != '\n')
    ensures NumberIn(t, name) == Some(Read(digits))
  {
    TextIsWithin(t, name, head, digits, tail);
  }

  /** The name for a number is the prefix, the numeral with zeros in front of it
      up to the width, and the suffix. */
  lemma RenderExactly(t: Template, n: nat)
    ensures |Print(n)| >= t.width ==> Render(t, n) == t.prefix + Print(n) + t.suffix
    ensures |Print(n)| < t.width ==>
      var zeros := seq(t.width - |Print(n)|, _ => '0');
      Render(t, n) == t.prefix + (zeros + Print(n)) + t.suffix
  {
  }

  /** What a machine that asks is told. Left alone when its name fits; else the
      name it was assigned under this template; else a new one, unless somebody
      else has been assigned that. Only a new one changes the table: it gets the
      machine's row, and the others stay. */
  lemma AnswerExactly(s: Scheme, rows: seq<Row>, e: Ask)
    requires Finds(rows, e.dn, e.at)
    ensures var r, after, name := AnswerTo(s, rows, e), RowsAfter(s, rows, e), s.make(NextOf(s, e.found, rows));
      if s.number(e.current).Some? then r == AlreadyFits && after == rows
      else if e.at.Some? && rows[e.at.value].template == s.template
      then r == Named(rows[e.at.value].name) && after == rows
      else if exists i :: 0 <= i < |rows| && rows[i].dn != e.dn && Lower(rows[i].name) == Lower(name)
      then r == NameTaken && after == rows
      else
        && r == Named(name) && Row(e.dn, name, s.template) in after
        && forall i :: 0 <= i < |rows| && rows[i].dn != e.dn ==> i < |after| && after[i] == rows[i]
  {
    assert Issues(s, rows, e) ==> NewRow(s, rows, e) == Row(e.dn, s.make(NextOf(s, e.found, rows)), s.template);
  }

  /** The next number is one past some number in use, when it is not 1. */
  lemma NextExactly(s: Scheme, found: seq<string>, rows: seq<Row>)
    ensures var n := NextOf(s, found, rows);
      n > 1 ==>
        || (exists i :: 0 <= i < |found| && s.number(Short(found[i])) == Some(n - 1))
        || (exists i :: 0 <= i < |rows| && rows[i].template == s.template && s.number(rows[i].name) == Some(n - 1))
  {
    var n := NextOf(s, found, rows);
    NextIsOnePast(s, found, rows);
    if n > 1 && Some(n - 1) in InDirectory(s, found) {
      var c :| 0 <= c < |found| && InDirectory(s, found)[c] == Some(n - 1);
      assert Map(Short, found)[c] == Short(found[c]);
    } else if n > 1 {
      var j :| 0 <= j < |GivenOut(s, rows)| && GivenOut(s, rows)[j] == Some(n - 1);
      UnderMember(s, rows, NamesUnder(s, rows)[j]);
    }
  }
}
