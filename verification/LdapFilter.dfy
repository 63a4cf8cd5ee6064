/** The text form of search filters (section 3 of RFC 4515), and what a filter
    means for a directory entry. Extensible matches are not read. */
module LdapFilter {
  import opened Text

  datatype Filter =
    | And(all: seq<Filter>)
    | Or(any: seq<Filter>)
    | Not(filter: Filter)
    | Equal(attribute: string, value: string)
    | Compare(attribute: string, sign: char, value: string)
    | Present(attribute: string)
    | Substrings(attribute: string, initial: string, middle: seq<string>, final: string)

  // ------------------------------------------------------------- reading ----

  datatype Parsed = Parsed(filter: Filter, rest: string)
  datatype ParsedList = ParsedList(filters: seq<Filter>, rest: string)

  // The parts of a value between its asterisks, and what follows the value.
  datatype Scanned = Scanned(parts: seq<string>, rest: string)

  function HexDigit(c: char): (r: Option<nat>)
    ensures r.Some? ==> r.value < 16
  {
    if '0' <= c <= '9' then Some(c as int - '0' as int)
    else if 'a' <= c <= 'f' then Some(c as int - 'a' as int + 10)
    else if 'A' <= c <= 'F' then Some(c as int - 'A' as int + 10)
    else None
  }

  // Puts text before the first part.
  function Before(text: string, s: Scanned): Scanned {
    if |s.parts| == 0 then s else Scanned([text + s.parts[0]] + s.parts[1..], s.rest)
  }

  // Reads a value up to its closing parenthesis. A backslash and two digits
  // stand for a character; a bare parenthesis or NUL may not appear.
  function Scan(text: string): (r: Option<Scanned>)
    ensures r.Some? ==> |r.value.parts| > 0 && 0 < |r.value.rest| <= |text| && r.value.rest[0] == ')'
  {
    if |text| == 0 || text[0] == '(' || text[0] == '\0' then None
    else if text[0] == ')' then Some(Scanned([""], text))
    else if text[0] == '*' then
      match Scan(text[1..])
      case Some(s) => Some(Scanned([""] + s.parts, s.rest))
      case None => None
    else if text[0] == '\\' then
      if |text| < 3 then None
      else
        match (HexDigit(text[1]), HexDigit(text[2]), Scan(text[3..]))
        case (Some(h), Some(l), Some(s)) => Some(Before([(h * 16 + l) as char], s))
        case _ => None
    else
      match Scan(text[1..])
      case Some(s) => Some(Before([text[0]], s))
      case None => None
  }

  predicate IsAttributeChar(c: char) {
    'a' <= c <= 'z' || 'A' <= c <= 'Z' || '0' <= c <= '9' || c == '-' || c == '.' || c == ';'
  }

  // How many characters at the start name an attribute.
  function NameLength(text: string): (n: nat)
    ensures n <= |text|
  {
    if |text| == 0 || !IsAttributeChar(text[0]) then 0 else 1 + NameLength(text[1..])
  }

  function FromParts(attribute: string, parts: seq<string>): Filter
    requires |parts| > 0
  {
    if |parts| == 1 then Equal(attribute, parts[0])
    else if parts == ["", ""] then Present(attribute)
    else Substrings(attribute, parts[0], parts[1..|parts| - 1], parts[|parts| - 1])
  }

  function ParseItem(text: string): (r: Option<Parsed>)
    ensures r.Some? ==> |r.value.rest| < |text|
  {
    var n := NameLength(text);
    if n == 0 then None
    else if n < |text| && text[n] == '=' then
      match Scan(text[n + 1..])
      case Some(s) => Some(Parsed(FromParts(text[..n], s.parts), s.rest[1..]))
      case None => None
    else if n + 1 < |text| && text[n] in "<>~" && text[n + 1] == '=' then
      match Scan(text[n + 2..])
      case Some(s) =>
        if |s.parts| == 1 then Some(Parsed(Compare(text[..n], text[n], s.parts[0]), s.rest[1..])) else None
      case None => None
    else None
  }

  function ParseFilter(text: string): (r: Option<Parsed>)
    ensures r.Some? ==> |r.value.rest| < |text|
    decreases |text|, 0
  {
    if |text| < 2 || text[0] != '(' then None
    else if text[1] == '&' || text[1] == '|' then
      match ParseList(text[2..])
      case Some(list) =>
        if |list.filters| == 0 || |list.rest| == 0 || list.rest[0] != ')' then None
        else Some(Parsed(if text[1] == '&' then And(list.filters) else Or(list.filters), list.rest[1..]))
      case None => None
    else if text[1] == '!' then
      match ParseFilter(text[2..])
      case Some(p) =>
        if |p.rest| == 0 || p.rest[0] != ')' then None else Some(Parsed(Not(p.filter), p.rest[1..]))
      case None => None
    else ParseItem(text[1..])
  }

  function ParseList(text: string): (r: Option<ParsedList>)
    ensures r.Some? ==> |r.value.rest| <= |text|
    decreases |text|, 1
  {
    if |text| == 0 || text[0] != '(' then Some(ParsedList([], text))
    else
      match ParseFilter(text)
      case Some(p) =>
        (match ParseList(p.rest)
         case Some(more) => Some(ParsedList([p.filter] + more.filters, more.rest))
         case None => None)
      case None => None
  }

  // A whole text is a filter only when nothing follows it.
  function Parse(text: string): Option<Filter> {
    match ParseFilter(text)
    case Some(p) => if p.rest == "" then Some(p.filter) else None
    case None => None
  }

  // ------------------------------------------------------------- meaning ----

  type Entry = map<string, seq<string>>

  function Values(entry: Entry, attribute: string): seq<string> {
    if attribute in entry then entry[attribute] else []
  }

  // The middle parts appear in order without overlapping, and the last part ends what is left.
  predicate InOrder(middle: seq<string>, final: string, s: string) {
    if |middle| == 0 then |final| <= |s| && s[|s| - |final|..] == final
    else exists i :: && 0 <= i <= |s| - |middle[0]| && s[i..][..|middle[0]|] == middle[0]
                     && InOrder(middle[1..], final, s[i + |middle[0]|..])
  }

  function AllFolded(fold: string -> string, texts: seq<string>): seq<string> {
    Map(fold, texts)
  }

  // Whether an entry meets a filter, values being compared after folding
  // their case. No attribute here is ordered, so a comparison never holds.
  predicate Eval(f: Filter, entry: Entry, fold: string -> string)
    decreases f
  {
    match f
    case And(all) => forall g :: g in all ==> Eval(g, entry, fold)
    case Or(any) => exists g :: g in any && Eval(g, entry, fold)
    case Not(g) => !Eval(g, entry, fold)
    case Equal(a, value) => exists v :: v in Values(entry, a) && fold(v) == fold(value)
    case Compare(_, _, _) => false
    case Present(a) => |Values(entry, a)| > 0
    case Substrings(a, initial, middle, final) =>
      exists v :: && v in Values(entry, a) && fold(initial) <= fold(v)
                  && InOrder(AllFolded(fold, middle), fold(final), fold(v)[|fold(initial)|..])
  }

  // ------------------------------------------------------------ escaping ----

  function EscapeChar(c: char): string {
    if c == '\\' then "\\5c"
    else if c == '*' then "\\2a"
    else if c == '(' then "\\28"
    else if c == ')' then "\\29"
    else if c == '\0' then "\\00"
    else [c]
  }

  function Escape(value: string): string {
    if |value| == 0 then "" else EscapeChar(value[0]) + Escape(value[1..])
  }

  lemma ScanHex(h: char, l: char, tail: string)
    requires HexDigit(h).Some? && HexDigit(l).Some? && Scan(tail).Some?
    ensures Scan(['\\', h, l] + tail)
         == Some(Before([(HexDigit(h).value * 16 + HexDigit(l).value) as char], Scan(tail).value))
  {
    assert (['\\', h, l] + tail)[3..] == tail;
  }

  lemma ScanChar(c: char, tail: string)
    requires Scan(tail).Some?
    ensures Scan(EscapeChar(c) + tail) == Some(Before([c], Scan(tail).value))
  {
    if c == '\\' {
      ScanHex('5', 'c', tail);
    } else if c == '*' {
      ScanHex('2', 'a', tail);
    } else if c == '(' {
      ScanHex('2', '8', tail);
    } else if c == ')' {
      ScanHex('2', '9', tail);
    } else if c == '\0' {
      ScanHex('0', '0', tail);
    } else {
      assert ([c] + tail)[1..] == tail;
    }
  }

  lemma BeforeBefore(c: char, v: string, s: Scanned)
    requires |s.parts| > 0
    ensures Before([c], Before(v, s)) == Before([c] + v, s)
  {
    assert [c] + (v + s.parts[0]) == [c] + v + s.parts[0];
  }

  lemma BeforeNothing(s: Scanned)
    ensures Before("", s) == s
  {
    if |s.parts| > 0 {
      assert "" + s.parts[0] == s.parts[0];
      assert [s.parts[0]] + s.parts[1..] == s.parts;
    }
  }

  lemma ScanOneMore(c: char, v: string, text: string, whole: string, s: Scanned)
    requires |s.parts| > 0 && Scan(text) == Some(Before(v, s))
    requires whole == EscapeChar(c) + text
    ensures Scan(whole) == Some(Before([c] + v, s))
  {
    ScanChar(c, text);
    BeforeBefore(c, v, s);
  }

  lemma EscapeOneMore(v: string, tail: string)
    requires |v| > 0
    ensures Escape(v) + tail == EscapeChar(v[0]) + (Escape(v[1..]) + tail)
    ensures [v[0]] + v[1..] == v
  {
    Associative(EscapeChar(v[0]), Escape(v[1..]), tail);
  }

  // An escaped value is read as one stretch of text: none of its characters
  // ends the value or splits it.
  lemma {:induction false} ScanEscaped(v: string, tail: string)
    requires Scan(tail).Some?
    ensures Scan(Escape(v) + tail) == Some(Before(v, Scan(tail).value))
  {
    if |v| == 0 {
      assert Escape(v) + tail == tail;
      BeforeNothing(Scan(tail).value);
    } else {
      ScanEscaped(v[1..], tail);
      EscapeOneMore(v, tail);
      ScanOneMore(v[0], v[1..], Escape(v[1..]) + tail, Escape(v) + tail, Scan(tail).value);
    }
  }

  lemma {:induction false} NameIsRead(name: string, tail: string)
    requires forall i :: 0 <= i < |name| ==> IsAttributeChar(name[i])
    requires |tail| > 0 && !IsAttributeChar(tail[0])
    ensures NameLength(name + tail) == |name|
  {
    if |name| > 0 {
      NameIsRead(name[1..], tail);
      assert (name + tail)[1..] == name[1..] + tail;
    } else {
      assert name + tail == tail;
    }
  }

  ghost predicate IsName(name: string) {
    |name| > 0 && forall i :: 0 <= i < |name| ==> IsAttributeChar(name[i])
  }

  lemma ItemTextIsRead(text: string, name: string, value: string)
    requires 0 < |name| && text == name + "=" + value
    requires NameLength(text) == |name| && Scan(value).Some?
    ensures ParseItem(text)
      == Some(Parsed(FromParts(name, Scan(value).value.parts), Scan(value).value.rest[1..]))
  {
    assert text[|name| + 1..] == value;
    assert text[..|name|] == name;
  }

  lemma ItemAfterName(name: string, value: string)
    requires IsName(name)
    ensures NameLength(name + "=" + value) == |name|
  {
    NameIsRead(name, "=" + value);
    assert name + "=" + value == name + ("=" + value);
  }

  // An item is read as its attribute and the parts of its value.
  lemma ItemIsRead(name: string, value: string)
    requires IsName(name) && Scan(value).Some?
    ensures ParseFilter("(" + name + "=" + value)
      == Some(Parsed(FromParts(name, Scan(value).value.parts), Scan(value).value.rest[1..]))
  {
    var text := name + "=" + value;
    ItemAfterName(name, value);
    ItemTextIsRead(text, name, value);
    assert "(" + name + "=" + value == "(" + text;
    ParenthesisIsRead(text, "(" + text);
  }

  lemma ParenthesisIsRead(text: string, whole: string)
    requires whole == "(" + text && |text| > 0 && IsAttributeChar(text[0])
    ensures ParseFilter(whole) == ParseItem(text)
  {
    assert whole[1..] == text;
  }

  lemma NotIsRead(text: string, f: Filter, tail: string)
    requires ParseFilter(text) == Some(Parsed(f, ")" + tail))
    ensures ParseFilter("(!" + text) == Some(Parsed(Not(f), tail))
  {
    assert ("(!" + text)[2..] == text;
    assert (")" + tail)[1..] == tail;
  }

  lemma MoreIsRead(one: string, f: Filter, rest: string, more: ParsedList)
    requires |one| > 0 && one[0] == '('
    requires ParseFilter(one + rest) == Some(Parsed(f, rest))
    requires ParseList(rest) == Some(more)
    ensures ParseList(one + rest) == Some(ParsedList([f] + more.filters, more.rest))
  {
  }

  lemma ListIsRead(sign: char, text: string, filters: seq<Filter>, tail: string)
    requires sign == '&' || sign == '|'
    requires ParseList(text) == Some(ParsedList(filters, ")" + tail))
    ensures ParseFilter(['(', sign] + text)
      == if |filters| == 0 then None
         else Some(Parsed(if sign == '&' then And(filters) else Or(filters), tail))
  {
    assert (['(', sign] + text)[2..] == text;
    assert (")" + tail)[1..] == tail;
  }

  /** What is escaped: the characters that mean something in a filter, each as
      a backslash and its two digits (section 3 of RFC 4515), and nothing else. */
  lemma EscapedExactly(c: char)
    ensures Escape("*") == "\\2a" && Escape("(") == "\\28" && Escape(")") == "\\29"
    ensures Escape("\\") == "\\5c" && Escape("\0") == "\\00" && Escape("") == ""
    ensures c !in ['*', '(', ')', '\\', '\0'] ==> Escape([c]) == [c]
  {
  }
}
