/**
 IP addresses as text: what Go's netip.ParseAddr accepts and how Addr.String prints
 (sections 2.2 of RFC 4291 and 4 of RFC 5952), stated over the parts between dots and colons.
 */
module NetAddr {
  import opened Options
  import opened Text

  datatype Addr = V4(octets: seq<nat>) | V6(groups: seq<nat>, zone: string)

  predicate Below(xs: seq<nat>, bound: nat) { forall i :: 0 <= i < |xs| ==> xs[i] < bound }

  predicate Valid(a: Addr) {
    match a
    case V4(octets) => |octets| == 4 && Below(octets, 256)
    case V6(groups, zone) => |groups| == 8 && Below(groups, 65536)
  }

  // ---- hexadecimal fields ----

  predicate IsHex(c: char) { '0' <= c <= '9' || 'a' <= c <= 'f' || 'A' <= c <= 'F' }

  predicate AllHex(s: string) { forall i :: 0 <= i < |s| ==> IsHex(s[i]) }

  function HexDigit(c: char): (d: nat)
    requires IsHex(c)
    ensures d < 16
  {
    if c <= '9' then (c - '0') as nat else if c <= 'F' then (c - 'A') as nat + 10 else (c - 'a') as nat + 10
  }

  function HexChar(d: nat): (c: char)
    requires d < 16
    ensures IsHex(c) && HexDigit(c) == d
  {
    if d < 10 then '0' + d as char else 'a' + (d - 10) as char
  }

  function HexValue(s: string): nat
    requires AllHex(s)
  {
    if s == [] then 0 else HexValue(s[..|s| - 1]) * 16 + HexDigit(s[|s| - 1])
  }

  function HexText(n: nat): string { if n < 16 then [HexChar(n)] else HexText(n / 16) + [HexChar(n % 16)] }

  /** A field: one to four hexadecimal digits. */
  function ParseGroup(s: string): Option<nat> { if 1 <= |s| <= 4 && AllHex(s) then Some(HexValue(s)) else None }

  lemma {:induction false} HexReads(n: nat)
    ensures HexText(n) != [] && AllHex(HexText(n)) && HexValue(HexText(n)) == n
  {
    if n >= 16 {
      HexReads(n / 16);
      var s := HexText(n / 16);
      assert HexText(n)[..|s|] == s;
    } else {
      var s := HexText(n);
      assert s[..0] == [] && HexValue(s[..0]) == 0;
    }
  }

  lemma GroupReads(n: nat)
    requires n < 65536
    ensures ParseGroup(HexText(n)) == Some(n)
  {
    HexReads(n);
    HexShort(n, 4);
  }

  function Power16(k: nat): nat { if k == 0 then 1 else 16 * Power16(k - 1) }

  lemma {:induction false} HexShort(n: nat, k: nat)
    requires k > 0 && n < Power16(k)
    ensures |HexText(n)| <= k
  {
    if n >= 16 {
      HexShort(n / 16, k - 1);
    }
  }

  lemma {:induction false} HexBounded(s: string)
    requires AllHex(s)
    ensures HexValue(s) < Power16(|s|)
  {
    if s != [] {
      HexBounded(s[..|s| - 1]);
    }
  }

  // ---- dotted quads ----

  predicate IsOctet(s: string) { Canonical(s) && DecimalValue(s) < 256 }

  function ParseV4(s: string): Option<Addr> {
    var parts := Split(s, '.');
    if |parts| == 4 && (forall i :: 0 <= i < 4 ==> IsOctet(parts[i]))
    then Some(V4(seq(4, i requires 0 <= i < 4 => DecimalValue(parts[i])))) else None
  }

  // ---- colon groups ----

  function ParseGroups(parts: seq<string>): Option<seq<nat>> {
    if parts == [] then Some([])
    else
      var head, tail := ParseGroup(parts[0]), ParseGroups(parts[1..]);
      if head.Some? && tail.Some? then Some([head.value] + tail.value) else None
  }

  /** The fields after which nothing follows: the last one may be a dotted quad worth two groups. */
  function ParseTail(parts: seq<string>): Option<seq<nat>> {
    if parts != [] && '.' in parts[|parts| - 1]
    then
      var quad, init := ParseV4(parts[|parts| - 1]), ParseGroups(parts[..|parts| - 1]);
      if quad.Some? && init.Some?
      then
        var o := quad.value.octets;
        if |o| == 4 then Some(init.value + [o[0] * 256 + o[1], o[2] * 256 + o[3]]) else None
      else None
    else ParseGroups(parts)
  }

  /** The first empty part, or the number of parts. */
  function FirstEmpty(parts: seq<string>): (i: nat)
    ensures i <= |parts| && (i < |parts| ==> parts[i] == "") && forall j :: 0 <= j < i ==> parts[j] != ""
  {
    if parts == [] || parts[0] == "" then 0 else 1 + FirstEmpty(parts[1..])
  }

  function Zeros(n: nat): seq<nat> { seq(n, i => 0) }

  /** "::" stands for at least one group of zeros. */
  function Expand(left: Option<seq<nat>>, right: Option<seq<nat>>): Option<seq<nat>> {
    if left.Some? && right.Some? && |left.value| + |right.value| < 8
    then Some(left.value + Zeros(8 - |left.value| - |right.value|) + right.value) else None
  }

  function ParseV6Parts(parts: seq<string>): Option<seq<nat>> {
    var e := FirstEmpty(parts);
    if e == |parts|
    then
      var all := ParseTail(parts);
      if all.Some? && |all.value| == 8 then all else None
    else if e == 0
    then if |parts| >= 3 && parts[1] == "" then Expand(Some([]), AfterGap(parts[2..])) else None
    else if e == |parts| - 1 then None
    else Expand(ParseGroups(parts[..e]), AfterGap(parts[e + 1..]))
  }

  /** A gap at the very end leaves one empty part behind. */
  function AfterGap(parts: seq<string>): Option<seq<nat>> { if parts == [""] then Some([]) else ParseTail(parts) }

  function ParseV6(s: string): Option<Addr> {
    var i := IndexOf(s, '%');
    var zone := if i < |s| then s[i + 1..] else "";
    if i < |s| && zone == "" then None
    else
      var groups := ParseV6Parts(Split(s[..i], ':'));
      if groups.Some? then Some(V6(groups.value, zone)) else None
  }

  /** netip.ParseAddr: the first of '.', ':' and '%' decides. */
  function ParseAddr(s: string): Option<Addr> {
    var dot, colon, percent := IndexOf(s, '.'), IndexOf(s, ':'), IndexOf(s, '%');
    if dot < colon && dot < percent then ParseV4(s)
    else if colon < dot && colon < percent then ParseV6(s)
    else None
  }

  predicate Mapped(a: Addr) { a.V6? && |a.groups| == 8 && a.groups[..5] == [0, 0, 0, 0, 0] && a.groups[5] == 0xffff }

  function Unmap(a: Addr): Addr {
    if Mapped(a) then V4([a.groups[6] / 256, a.groups[6] % 256, a.groups[7] / 256, a.groups[7] % 256]) else a
  }

  // ---- printing ----

  function ZerosFrom(groups: seq<nat>, i: nat): (n: nat)
    requires i <= |groups|
    ensures i + n <= |groups| && forall k :: i <= k < i + n ==> groups[k] == 0
    decreases |groups| - i
  {
    if i < |groups| && groups[i] == 0 then 1 + ZerosFrom(groups, i + 1) else 0
  }

  /** The first longest run of at least two zero groups among those starting before `i`. */
  function LongestRun(groups: seq<nat>, i: nat): (run: (nat, nat))
    requires i <= |groups|
    ensures run.0 + run.1 <= |groups| && (run.1 == 0 || run.1 >= 2)
    ensures forall k :: run.0 <= k < run.0 + run.1 ==> groups[k] == 0
  {
    if i == 0 then (0, 0)
    else
      var best, n := LongestRun(groups, i - 1), ZerosFrom(groups, i - 1);
      if n >= 2 && n > best.1 then (i - 1, n) else best
  }

  function Texts(groups: seq<nat>): seq<string> { seq(|groups|, i requires 0 <= i < |groups| => HexText(groups[i])) }

  function OrGap(parts: seq<string>): seq<string> { if parts == [] then [""] else parts }

  /** The text between colons. */
  function Parts(groups: seq<nat>): seq<string> {
    var run := LongestRun(groups, |groups|);
    if run.1 == 0 then Texts(groups)
    else OrGap(Texts(groups[..run.0])) + [""] + OrGap(Texts(groups[run.0 + run.1..]))
  }

  /** Addr.String for an address that is not an IPv4-mapped one. */
  function Print(a: Addr): string
    requires Valid(a) && !Mapped(a)
  {
    match a
    case V4(octets) => Join(seq(4, i requires 0 <= i < 4 => Itoa(octets[i])), ".")
    case V6(groups, zone) => Join(Parts(groups), ":") + if zone == "" then "" else "%" + zone
  }

  // ---- reading back what was printed ----

  lemma {:induction false} GroupsRead(groups: seq<nat>)
    requires Below(groups, 65536)
    ensures ParseGroups(Texts(groups)) == Some(groups)
  {
    if groups != [] {
      GroupsRead(groups[1..]);
      GroupReads(groups[0]);
      assert Texts(groups)[1..] == Texts(groups[1..]);
      assert groups == [groups[0]] + groups[1..];
    }
  }

  lemma TextsPlain(groups: seq<nat>)
    ensures |Texts(groups)| == |groups|
    ensures forall i :: 0 <= i < |groups| ==> Texts(groups)[i] != "" && AllHex(Texts(groups)[i])
  {
    forall i | 0 <= i < |groups| ensures HexText(groups[i]) != "" && AllHex(HexText(groups[i])) {
      HexReads(groups[i]);
    }
  }

  lemma TailReads(groups: seq<nat>)
    requires Below(groups, 65536)
    ensures ParseTail(Texts(groups)) == Some(groups)
    ensures AfterGap(OrGap(Texts(groups))) == Some(groups)
  {
    GroupsRead(groups);
    TextsPlain(groups);
  }

  lemma {:induction false} FirstEmptyIs(parts: seq<string>, rest: seq<string>)
    requires forall i :: 0 <= i < |parts| ==> parts[i] != ""
    ensures FirstEmpty(parts + [""] + rest) == |parts|
  {
    if parts == [] {
      assert parts + [""] + rest == [""] + rest;
    } else {
      assert (parts + [""] + rest)[1..] == parts[1..] + [""] + rest;
      FirstEmptyIs(parts[1..], rest);
    }
  }

  lemma GapReads(left: seq<nat>, right: seq<nat>)
    requires Below(left, 65536) && Below(right, 65536) && |left| + |right| < 8
    ensures ParseV6Parts(OrGap(Texts(left)) + [""] + OrGap(Texts(right)))
            == Some(left + Zeros(8 - |left| - |right|) + right)
  {
    hide Texts, ParseGroups, ParseTail, AfterGap;
    var l, r := Texts(left), OrGap(Texts(right));
    var parts := OrGap(l) + [""] + r;
    TextsPlain(left);
    TailReads(right);
    GroupsRead(left);
    if left == [] {
      assert FirstEmpty(parts) == 0 by { FirstEmptyIs([], [""] + r); assert parts == [] + [""] + ([""] + r); }
      assert parts[2..] == r;
    } else {
      FirstEmptyIs(l, r);
      assert parts[..|l|] == l && parts[|l| + 1..] == r;
    }
  }

  lemma {:induction false} NoneEmpty(parts: seq<string>)
    requires forall i :: 0 <= i < |parts| ==> parts[i] != ""
    ensures FirstEmpty(parts) == |parts|
  {
    if parts != [] {
      NoneEmpty(parts[1..]);
    }
  }

  lemma PartsRead(groups: seq<nat>)
    requires |groups| == 8 && Below(groups, 65536)
    ensures ParseV6Parts(Parts(groups)) == Some(groups)
  {
    hide Texts, ParseTail;
    var run := LongestRun(groups, |groups|);
    if run.1 == 0 {
      TextsPlain(groups);
      TailReads(groups);
      NoneEmpty(Texts(groups));
    } else {
      var left, right := groups[..run.0], groups[run.0 + run.1..];
      GapReads(left, right);
      assert left + Zeros(8 - |left| - |right|) + right == groups;
    }
  }

  lemma HexFree(s: string)
    requires AllHex(s)
    ensures '.' !in s && ':' !in s && '%' !in s
  {
  }

  lemma PartsHex(groups: seq<nat>)
    ensures |groups| >= 2 ==> |Parts(groups)| >= 2
    ensures forall i :: 0 <= i < |Parts(groups)| ==> AllHex(Parts(groups)[i])
  {
    hide Texts;
    var run := LongestRun(groups, |groups|);
    TextsPlain(groups);
    TextsPlain(groups[..run.0]);
    TextsPlain(groups[run.0 + run.1..]);
  }

  lemma {:induction false} JoinHasColon(parts: seq<string>)
    requires |parts| >= 2
    ensures ':' in Join(parts, ":")
  {
    assert Join(parts, ":")[|parts[0]|] == ':';
  }

  /** What is printed before a zone. */
  lemma BodyReads(groups: seq<nat>)
    requires |groups| == 8 && Below(groups, 65536)
    ensures var body := Join(Parts(groups), ":");
            && ':' in body && '.' !in body && '%' !in body
            && ParseV6Parts(Split(body, ':')) == Some(groups)
  {
    hide Parts, ParseV6Parts, Split;
    var parts := Parts(groups);
    PartsHex(groups);
    forall i | 0 <= i < |parts| ensures '.' !in parts[i] && '%' !in parts[i] && ':' !in parts[i] { HexFree(parts[i]); }
    JoinFree(parts, ":", '.');
    JoinFree(parts, ":", '%');
    JoinHasColon(parts);
    SplitJoin(parts, ':');
    PartsRead(groups);
  }

  lemma V6Reads(body: string, zone: string, groups: seq<nat>)
    requires ':' in body && '.' !in body && '%' !in body && ParseV6Parts(Split(body, ':')) == Some(groups)
    ensures ParseAddr(body + if zone == "" then "" else "%" + zone) == Some(V6(groups, zone))
  {
    hide Split, ParseV6Parts;
    var s := body + if zone == "" then "" else "%" + zone;
    var k :| 0 <= k < |body| && body[k] == ':';
    assert s[k] == ':';
    assert forall i :: 0 <= i < |body| ==> s[i] == body[i];
    assert IndexOf(s, '%') == |body| by {
      if zone == "" {
        assert s == body;
      } else {
        assert s[|body|] == '%';
      }
    }
    assert s[..|body|] == body;
    if zone != "" {
      assert s[|body| + 1..] == zone;
    }
  }

  lemma ItoaFree(n: nat)
    ensures '.' !in Itoa(n) && ':' !in Itoa(n) && '%' !in Itoa(n) && '[' !in Itoa(n) && ']' !in Itoa(n)
            && '/' !in Itoa(n)
  {
    ItoaReads(n);
  }

  lemma V4Reads(octets: seq<nat>)
    requires |octets| == 4 && Below(octets, 256)
    ensures ParseAddr(Print(V4(octets))) == Some(V4(octets))
    ensures ':' !in Print(V4(octets)) && '%' !in Print(V4(octets))
  {
    hide Split;
    var parts := seq(4, i requires 0 <= i < 4 => Itoa(octets[i]));
    var s := Join(parts, ".");
    forall i | 0 <= i < 4 ensures IsOctet(parts[i]) && DecimalValue(parts[i]) == octets[i] && '.' !in parts[i]
      && ':' !in parts[i] && '%' !in parts[i] {
      ItoaReads(octets[i]);
      ItoaFree(octets[i]);
    }
    SplitJoin(parts, '.');
    JoinFree(parts, ".", ':');
    JoinFree(parts, ".", '%');
    assert s[|parts[0]|] == '.';
    var back := seq(4, i requires 0 <= i < 4 => DecimalValue(parts[i]));
    assert back == octets;
  }

  /** Reading what was printed gives the address back. */
  lemma PrintReads(a: Addr)
    requires Valid(a) && !Mapped(a)
    ensures ParseAddr(Print(a)) == Some(a)
  {
    match a
    case V4(octets) => V4Reads(octets);
    case V6(groups, zone) =>
      BodyReads(groups);
      V6Reads(Join(Parts(groups), ":"), zone, groups);
  }

  // ---- what is accepted ----

  predicate IsAddrChar(c: char) { IsHex(c) || c == '.' || c == ':' }

  predicate Dotted(s: string) { forall k :: 0 <= k < |s| ==> IsHex(s[k]) || s[k] == '.' }

  lemma V4Accepted(s: string)
    requires ParseV4(s).Some?
    ensures Valid(ParseV4(s).value) && ParseV4(s).value.V4? && Dotted(s)
  {
    hide Split;
    var parts := Split(s, '.');
    forall i, k | 0 <= i < |parts| && 0 <= k < |parts[i]| ensures IsHex(parts[i][k]) {
      assert IsOctet(parts[i]);
    }
    SplitCovers(s, '.', IsHex);
  }

  lemma GroupAccepted(s: string)
    requires ParseGroup(s).Some?
    ensures ParseGroup(s).value < 65536
  {
    HexBounded(s);
    assert Power16(1) == 16 && Power16(2) == 256 && Power16(3) == 4096 && Power16(4) == 65536;
  }

  lemma {:induction false} GroupsAccepted(parts: seq<string>)
    requires ParseGroups(parts).Some?
    ensures Below(ParseGroups(parts).value, 65536)
    ensures forall i :: 0 <= i < |parts| ==> Dotted(parts[i])
  {
    if parts != [] {
      GroupAccepted(parts[0]);
      GroupsAccepted(parts[1..]);
    }
  }

  lemma TailAccepted(parts: seq<string>)
    requires ParseTail(parts).Some?
    ensures Below(ParseTail(parts).value, 65536)
    ensures forall i :: 0 <= i < |parts| ==> Dotted(parts[i])
  {
    hide ParseGroups, ParseV4;
    if parts != [] && '.' in parts[|parts| - 1] {
      V4Accepted(parts[|parts| - 1]);
      GroupsAccepted(parts[..|parts| - 1]);
    } else {
      GroupsAccepted(parts);
    }
  }

  lemma AfterGapAccepted(parts: seq<string>)
    requires AfterGap(parts).Some?
    ensures Below(AfterGap(parts).value, 65536)
    ensures forall i :: 0 <= i < |parts| ==> Dotted(parts[i])
  {
    if parts != [""] {
      TailAccepted(parts);
    }
  }

  lemma PartsAccepted(parts: seq<string>)
    requires ParseV6Parts(parts).Some?
    ensures |ParseV6Parts(parts).value| == 8 && Below(ParseV6Parts(parts).value, 65536)
    ensures forall i :: 0 <= i < |parts| ==> Dotted(parts[i])
  {
    hide ParseGroups, ParseTail, AfterGap, Dotted;
    var e := FirstEmpty(parts);
    if e == |parts| {
      TailAccepted(parts);
    } else {
      EmptyDotted();
      if e == 0 {
        AfterGapAccepted(parts[2..]);
      } else {
        AfterGapAccepted(parts[e + 1..]);
        GroupsAccepted(parts[..e]);
      }
      forall i | 0 <= i < |parts| ensures Dotted(parts[i]) {
        if e == 0 && i >= 2 {
          assert parts[i] == parts[2..][i - 2];
        } else if e > 0 && i > e {
          assert parts[i] == parts[e + 1..][i - e - 1];
        } else if i < e {
          assert parts[i] == parts[..e][i];
        }
      }
    }
  }

  lemma EmptyDotted()
    ensures Dotted("")
  {
  }

  /** An accepted address is a valid one, spelt with hexadecimal digits, dots and colons up to its zone. */
  lemma Accepted(s: string)
    requires ParseAddr(s).Some?
    ensures var a := ParseAddr(s).value;
            && Valid(a)
            && var zone := if a.V6? then a.zone else "";
               && |zone| < |s| && (zone != "" ==> s[|s| - |zone| - 1] == '%') && s[|s| - |zone|..] == zone
               && forall k :: 0 <= k < |s| - (if zone == "" then 0 else |zone| + 1) ==> IsAddrChar(s[k])
  {
    hide ParseV4, ParseV6Parts, Split;
    if ParseAddr(s) == ParseV4(s) {
      V4Accepted(s);
      assert s[|s|..] == "";
    } else {
      var i := IndexOf(s, '%');
      var body := s[..i];
      PartsAccepted(Split(body, ':'));
      SplitCovers(body, ':', IsAddrChar);
      assert forall k :: 0 <= k < i ==> s[k] == body[k];
      if i == |s| {
        assert s[|s|..] == "";
      }
    }
  }

  // ---- net.ParseIP ----

  /** The address without a zone; a mapped address counts as IPv4, as To4 has it. */
  function ParseIP(s: string): Option<Addr> {
    var a := ParseAddr(s);
    if a.None? || (a.value.V6? && a.value.zone != "") then None else Some(Unmap(a.value))
  }

  lemma IPChars(s: string)
    requires ParseIP(s).Some?
    ensures s != "" && forall k :: 0 <= k < |s| ==> IsAddrChar(s[k])
  {
    Accepted(s);
  }

  // ---- lengths ----

  lemma OctetShort(s: string)
    requires IsOctet(s)
    ensures |s| <= 3
  {
    CanonicalIsItoa(s);
    var v := DecimalValue(s);
    if v >= 10 {
      assert |Itoa(v)| == |Itoa(v / 10)| + 1;
      if v >= 100 {
        assert |Itoa(v / 10)| == |Itoa(v / 100)| + 1;
      }
    }
  }

  lemma V4Short(s: string)
    requires ParseV4(s).Some?
    ensures |s| <= 16
  {
    hide Split, IsOctet;
    var parts := Split(s, '.');
    forall i | 0 <= i < |parts| ensures |parts[i]| <= 3 { OctetShort(parts[i]); }
    SplitLength(s, '.', 3);
    assert Total(4, 4) == 16 by { assert Total(1, 4) == 4 && Total(2, 4) == 8 && Total(3, 4) == 12; }
  }

  lemma {:induction false} GroupsShort(parts: seq<string>)
    requires ParseGroups(parts).Some?
    ensures |ParseGroups(parts).value| == |parts| && forall i :: 0 <= i < |parts| ==> |parts[i]| <= 16
  {
    if parts != [] {
      GroupsShort(parts[1..]);
    }
  }

  lemma AfterGapShort(parts: seq<string>)
    requires AfterGap(parts).Some?
    ensures |parts| <= |AfterGap(parts).value| + 1 && forall i :: 0 <= i < |parts| ==> |parts[i]| <= 16
  {
    hide ParseGroups, ParseV4;
    if parts != [""] {
      if parts != [] && '.' in parts[|parts| - 1] {
        V4Short(parts[|parts| - 1]);
        GroupsShort(parts[..|parts| - 1]);
      } else {
        GroupsShort(parts);
      }
    }
  }

  lemma PartsShort(parts: seq<string>)
    requires ParseV6Parts(parts).Some?
    ensures |parts| <= 10 && forall i :: 0 <= i < |parts| ==> |parts[i]| <= 16
  {
    hide ParseGroups, ParseTail, AfterGap;
    var e := FirstEmpty(parts);
    if e == |parts| {
      TailIsAfterGap(parts);
      AfterGapShort(parts);
    } else if e == 0 {
      AfterGapShort(parts[2..]);
      assert forall i :: 2 <= i < |parts| ==> parts[i] == parts[2..][i - 2];
    } else {
      GroupsShort(parts[..e]);
      AfterGapShort(parts[e + 1..]);
      assert forall i :: e < i < |parts| ==> parts[i] == parts[e + 1..][i - e - 1];
      assert forall i :: 0 <= i < e ==> parts[i] == parts[..e][i];
    }
  }

  lemma TailIsAfterGap(parts: seq<string>)
    requires ParseTail(parts).Some?
    ensures AfterGap(parts) == ParseTail(parts)
  {
  }

  lemma TenGroups()
    ensures Total(10, 17) == 170
  {
    assert Total(2, 17) == 34 && Total(4, 17) == 68 && Total(6, 17) == 102 && Total(8, 17) == 136;
  }

  /** Accepted addresses without a zone are short. */
  lemma IPShort(s: string)
    requires ParseIP(s).Some?
    ensures |s| <= 170
  {
    hide ParseV4, ParseV6Parts, Split;
    if ParseAddr(s) == ParseV4(s) {
      V4Short(s);
    } else {
      var i := IndexOf(s, '%');
      assert i == |s| && s[..i] == s;
      PartsShort(Split(s, ':'));
      SplitLength(s, ':', 16);
      TotalMonotone(|Split(s, ':')|, 10, 17);
      TenGroups();
    }
  }
}
