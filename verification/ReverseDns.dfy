/** Reverse zones and pointer records for IPv4 addresses (api/odm/dns.py). */
module ReverseDns {
  import opened Text
  import opened Numerals

  type Octet = n: nat | n < 256

  const ROOT := ".in-addr.arpa"

  // Python's ".".join.
  function Dotted(parts: seq<string>): string {
    if |parts| == 0 then ""
    else if |parts| == 1 then parts[0]
    else parts[0] + "." + Dotted(parts[1..])
  }

  function Reversed<T>(s: seq<T>): (r: seq<T>)
    ensures |r| == |s|
    ensures forall i :: 0 <= i < |s| ==> r[i] == s[|s| - 1 - i]
  {
    seq(|s|, i requires 0 <= i < |s| => s[|s| - 1 - i])
  }

  function Printed(octets: seq<Octet>): (r: seq<string>)
    ensures |r| == |octets|
    ensures forall i :: 0 <= i < |octets| ==> r[i] == Print(octets[i])
  {
    seq(|octets|, i requires 0 <= i < |octets| => Print(octets[i]))
  }

  // The octets, last first (section 3.5 of RFC 1035).
  function Backwards(octets: seq<Octet>): string {
    Dotted(Reversed(Printed(octets)))
  }

  function ZoneOf(octets: seq<Octet>): string {
    Backwards(octets) + ROOT
  }

  datatype Network = Network(octets: seq<Octet>, prefix: nat)

  // An address and how many of its bits name the network; None where a
  // reverse zone would need classless delegation.
  function ReverseZoneName(n: Network): Option<string>
    requires |n.octets| == 4
  {
    if n.prefix !in {8, 16, 24} then None else Some(ZoneOf(n.octets[..n.prefix / 8]))
  }

  predicate InNetwork(a: seq<Octet>, n: Network)
    requires |a| == 4 && |n.octets| == 4 && n.prefix in {8, 16, 24}
  {
    a[..n.prefix / 8] == n.octets[..n.prefix / 8]
  }

  datatype Pointer = Pointer(zone: string, name: string)

  // -------------------------------------------------------------- injective ----

  predicate NoDots(parts: seq<string>) {
    forall i :: 0 <= i < |parts| ==> '.' !in parts[i]
  }

  lemma FirstPart(parts: seq<string>)
    requires |parts| > 0 && NoDots(parts)
    ensures UpTo(Dotted(parts), '.') == parts[0]
  {
    if |parts| == 1 {
      UpToFirst(parts[0], "", '.');
      assert parts[0] + "" == parts[0];
    } else {
      UpToFirst(parts[0], "." + Dotted(parts[1..]), '.');
      assert parts[0] + "." + Dotted(parts[1..]) == parts[0] + ("." + Dotted(parts[1..]));
    }
  }

  lemma SameTail(head: string, a: string, b: string)
    requires head + "." + a == head + "." + b
    ensures a == b
  {
    assert (head + "." + a)[|head| + 1..] == a;
    assert (head + "." + b)[|head| + 1..] == b;
  }

  lemma {:induction false} DottedDiffers(a: seq<string>, b: seq<string>)
    requires |a| > 0 && |b| > 0 && NoDots(a) && NoDots(b)
    ensures Dotted(a) == Dotted(b) ==> a == b
  {
    if Dotted(a) == Dotted(b) {
      FirstPart(a);
      FirstPart(b);
      if |a| > 1 && |b| > 1 {
        SameTail(a[0], Dotted(a[1..]), Dotted(b[1..]));
        DottedDiffers(a[1..], b[1..]);
        assert a == [a[0]] + a[1..] && b == [b[0]] + b[1..];
      } else {
        assert |Dotted(a)| == |Dotted(b)|;
      }
    }
  }

  lemma PrintedDiffers(a: seq<Octet>, b: seq<Octet>)
    requires Printed(a) == Printed(b)
    ensures a == b
  {
    forall i | 0 <= i < |a| ensures a[i] == b[i] {
      assert Printed(a)[i] == Printed(b)[i];
      PrintRead(a[i]);
      PrintRead(b[i]);
    }
  }

  lemma ReversedDiffers<T>(a: seq<T>, b: seq<T>)
    requires Reversed(a) == Reversed(b)
    ensures a == b
  {
    assert |a| == |Reversed(a)| == |b|;
    forall i | 0 <= i < |a| ensures a[i] == b[i] {
      assert Reversed(a)[|a| - 1 - i] == Reversed(b)[|a| - 1 - i];
    }
  }

  lemma PrintedNoDots(octets: seq<Octet>)
    ensures NoDots(Reversed(Printed(octets)))
  {
    forall i | 0 <= i < |octets| ensures '.' !in Print(octets[i]) {
      PrintRead(octets[i]);
    }
  }

  // Different runs of octets, of whatever length, have different zones.
  lemma ZonesDiffer(a: seq<Octet>, b: seq<Octet>)
    requires |a| > 0 && |b| > 0
    ensures ZoneOf(a) == ZoneOf(b) <==> a == b
  {
    if ZoneOf(a) == ZoneOf(b) {
      assert |Backwards(a)| == |Backwards(b)|;
      assert ZoneOf(a)[..|Backwards(a)|] == Backwards(a);
      assert ZoneOf(b)[..|Backwards(b)|] == Backwards(b);
      PrintedNoDots(a);
      PrintedNoDots(b);
      DottedDiffers(Reversed(Printed(a)), Reversed(Printed(b)));
      ReversedDiffers(Printed(a), Printed(b));
      PrintedDiffers(a, b);
    }
  }

  // --------------------------------------------------------------- pointers ----

  lemma {:induction false} DottedConcat(a: seq<string>, b: seq<string>)
    requires |a| > 0 && |b| > 0
    ensures Dotted(a + b) == Dotted(a) + "." + Dotted(b)
  {
    if |a| == 1 {
      assert (a + b)[1..] == b;
    } else {
      DottedConcat(a[1..], b);
      assert (a + b)[1..] == a[1..] + b;
      Associative(a[0] + ".", Dotted(a[1..]), "." + Dotted(b));
      Associative(Dotted(a[1..]), ".", Dotted(b));
      Associative(a[0] + "." + Dotted(a[1..]), ".", Dotted(b));
    }
  }

  lemma ReversedSplits(octets: seq<Octet>, k: nat)
    requires k <= |octets|
    ensures Reversed(Printed(octets)) == Reversed(Printed(octets[k..])) + Reversed(Printed(octets[..k]))
  {
  }

  lemma NameAndZone(octets: seq<Octet>, k: nat)
    requires 0 < k < |octets|
    ensures Backwards(octets[k..]) + "." + ZoneOf(octets[..k]) == ZoneOf(octets)
  {
    ReversedSplits(octets, k);
    DottedConcat(Reversed(Printed(octets[k..])), Reversed(Printed(octets[..k])));
    Associative(Backwards(octets[k..]) + ".", Backwards(octets[..k]), ROOT);
  }

  // The pointer of an address lies in the most specific zone listed for it,
  // and its name completed by that zone is the whole address backwards.
  method PointerFor(a: seq<Octet>, zones: seq<string>) returns (r: Option<Pointer>)
    requires |a| == 4
    ensures r.None? <==> forall k :: 1 <= k <= 3 ==> ZoneOf(a[..k]) !in zones
    ensures r.Some? ==> exists k :: 1 <= k <= 3 && IsPointer(a, k, zones, r.value)
    ensures r.Some? ==> r.value.zone in zones && r.value.name + "." + r.value.zone == ZoneOf(a)
  {
    var k := 3;
    while k > 0
      invariant 0 <= k <= 3
      invariant forall j :: k < j <= 3 ==> ZoneOf(a[..j]) !in zones
    {
      var zone := ZoneOf(a[..k]);
      if zone in zones {
        NameAndZone(a, k);
        r := Some(Pointer(zone, Backwards(a[k..])));
        assert IsPointer(a, k, zones, r.value);
        return;
      }
      k := k - 1;
    }
    r := None;
  }

  ghost predicate IsPointer(a: seq<Octet>, k: nat, zones: seq<string>, p: Pointer)
    requires |a| == 4 && 1 <= k <= 3
  {
    && p.zone == ZoneOf(a[..k]) && p.zone in zones
    && forall j :: k < j <= 3 ==> ZoneOf(a[..j]) !in zones
  }

  /** With one network's reverse zone listed, exactly the addresses of the
      network have a pointer. */
  lemma OneZoneServesItsNetwork(a: seq<Octet>, n: Network, zone: string)
    requires |a| == 4 && |n.octets| == 4 && ReverseZoneName(n) == Some(zone)
    ensures (exists k :: 1 <= k <= 3 && ZoneOf(a[..k]) in [zone]) <==> InNetwork(a, n)
  {
    var w := n.prefix / 8;
    forall k | 1 <= k <= 3 ensures ZoneOf(a[..k]) == zone <==> k == w && a[..k] == n.octets[..w] {
      ZonesDiffer(a[..k], n.octets[..w]);
    }
    if InNetwork(a, n) {
      assert ZoneOf(a[..w]) in [zone];
    }
  }

  method PointerInZone(a: seq<Octet>, n: Network) returns (r: Option<Pointer>)
    requires |a| == 4 && |n.octets| == 4 && n.prefix in {8, 16, 24}
    ensures r.Some? <==> InNetwork(a, n)
    ensures r.Some? ==> r.value.zone == ZoneOf(n.octets[..n.prefix / 8])
  {
    var zone := ReverseZoneName(n).value;
    OneZoneServesItsNetwork(a, n, zone);
    r := PointerFor(a, [zone]);
  }

  /** No two addresses have the same pointer. */
  lemma PointersDiffer(a: seq<Octet>, b: seq<Octet>, zone: string, name: string)
    requires |a| == 4 && |b| == 4
    requires name + "." + zone == ZoneOf(a) && name + "." + zone == ZoneOf(b)
    ensures a == b
  {
    ZonesDiffer(a, b);
  }

  // ------------------------------------------------------ in plain terms ----

  function Joined(a: string, b: string): string {
    a + "." + b
  }

  /** The zone of an address or of the front of one is its octets, the last one
      first, and the root of all such zones. */
  lemma ZoneExactly(a: Octet, b: Octet, c: Octet, d: Octet)
    ensures ZoneOf([a]) == Print(a) + ".in-addr.arpa"
    ensures ZoneOf([a, b]) == Joined(Print(b), Print(a)) + ".in-addr.arpa"
    ensures ZoneOf([a, b, c]) == Joined(Print(c), Joined(Print(b), Print(a))) + ".in-addr.arpa"
    ensures ZoneOf([a, b, c, d])
      == Joined(Print(d), Joined(Print(c), Joined(Print(b), Print(a)))) + ".in-addr.arpa"
  {
    assert Reversed(Printed([a])) == [Print(a)];
    assert Reversed(Printed([a, b])) == [Print(b), Print(a)];
    assert Reversed(Printed([a, b, c])) == [Print(c), Print(b), Print(a)];
    assert Reversed(Printed([a, b, c, d])) == [Print(d), Print(c), Print(b), Print(a)];
    DottedPair(Print(b), Print(a));
    DottedMore(Print(c), [Print(b), Print(a)]);
    DottedMore(Print(d), [Print(c), Print(b), Print(a)]);
  }

  lemma DottedPair(a: string, b: string)
    ensures Dotted([a]) == a && Dotted([a, b]) == a + "." + b
  {
    assert [a, b][1..] == [b];
  }

  lemma DottedMore(a: string, rest: seq<string>)
    requires |rest| > 0
    ensures Dotted([a] + rest) == a + "." + Dotted(rest)
  {
    assert ([a] + rest)[1..] == rest;
  }

  /** Only a network of 8, 16 or 24 bits has a zone, of its first one, two or
      three octets; an address is in it when it starts with the same ones. */
  lemma NetworkExactly(n: Network, a: seq<Octet>)
    requires |n.octets| == 4 && |a| == 4
    ensures n.prefix == 8 ==>
      ReverseZoneName(n) == Some(ZoneOf([n.octets[0]])) && (InNetwork(a, n) <==> a[0] == n.octets[0])
    ensures n.prefix == 16 ==>
      && ReverseZoneName(n) == Some(ZoneOf([n.octets[0], n.octets[1]]))
      && (InNetwork(a, n) <==> a[0] == n.octets[0] && a[1] == n.octets[1])
    ensures n.prefix == 24 ==>
      && ReverseZoneName(n) == Some(ZoneOf([n.octets[0], n.octets[1], n.octets[2]]))
      && (InNetwork(a, n) <==> a[0] == n.octets[0] && a[1] == n.octets[1] && a[2] == n.octets[2])
    ensures n.prefix != 8 && n.prefix != 16 && n.prefix != 24 ==> ReverseZoneName(n) == None
  {
    var o := n.octets;
    assert o[..1] == [o[0]] && o[..2] == [o[0], o[1]] && o[..3] == [o[0], o[1], o[2]];
    assert a[..1] == [a[0]] && a[..2] == [a[0], a[1]] && a[..3] == [a[0], a[1], a[2]];
  }
}
