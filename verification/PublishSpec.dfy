/** Port publishing: [host-ip:]host-port:container-port[/protocol], read and printed. */
module PublishSpec {
  import opened Options
  import opened Text
  import opened NetAddr

  datatype Publish = Publish(hostIP: string, hostPort: nat, containerPort: nat, protocol: string)

  function Ports(p: Publish): string { Itoa(p.hostPort) + ":" + Itoa(p.containerPort) }

  /** The printed form without its protocol. */
  function Base(p: Publish): string {
    if p.hostIP == "" then Ports(p)
    else if ':' in p.hostIP then "[" + p.hostIP + "]" + ":" + Ports(p)
    else p.hostIP + ":" + Ports(p)
  }

  function Show(p: Publish): string {
    Base(p) + if p.protocol != "" && p.protocol != "tcp" then "/" + p.protocol else ""
  }

  // ---- the last colon outside brackets ----

  /** How many closing brackets in `s` still wait for their opening one, seen from the right. */
  function Depth(s: string): nat {
    if s == [] then 0
    else
      var d := Depth(s[1..]);
      if s[0] == ']' then d + 1 else if s[0] == '[' && d > 0 then d - 1 else d
  }

  predicate Outside(s: string, i: int)
    requires 0 <= i < |s|
  {
    s[i] == ':' && Depth(s[i + 1..]) == 0
  }

  function LastColonBefore(s: string, n: nat): (i: int)
    requires n <= |s|
    ensures -1 <= i < n && (i >= 0 ==> Outside(s, i)) && forall k :: i < k < n ==> !Outside(s, k)
  {
    if n == 0 then -1 else if Outside(s, n - 1) then n - 1 else LastColonBefore(s, n - 1)
  }

  function LastColon(s: string): int { LastColonBefore(s, |s|) }

  method LastColonOutsideBrackets(s: string) returns (at: int)
    ensures at == LastColon(s)
    ensures -1 <= at < |s| && (at >= 0 ==> Outside(s, at)) && forall k :: at < k < |s| ==> !Outside(s, k)
  {
    var depth := 0;
    assert s[|s|..] == [];
    for i := |s| downto 0
      invariant depth == Depth(s[i..]) && LastColon(s) == LastColonBefore(s, i)
      invariant forall k :: i <= k < |s| ==> !Outside(s, k)
    {
      assert s[i..][1..] == s[i + 1..];
      if s[i] == ']' {
        depth := depth + 1;
      } else if s[i] == '[' {
        if depth > 0 {
          depth := depth - 1;
        }
      } else if s[i] == ':' {
        if depth == 0 {
          return i;
        }
      }
    }
    return -1;
  }

  predicate Flat(s: string) { ':' !in s && '[' !in s && ']' !in s }

  lemma {:induction false} FlatDepth(s: string)
    requires Flat(s)
    ensures Depth(s) == 0
  {
    if s != [] {
      FlatDepth(s[1..]);
    }
  }

  /** A colon followed by plain text is the one found. */
  lemma LastColonIs(a: string, b: string)
    requires Flat(b)
    ensures LastColon(a + ":" + b) == |a|
  {
    var s := a + ":" + b;
    assert s[|a| + 1..] == b;
    FlatDepth(b);
    assert Outside(s, |a|);
    forall k | |a| < k < |s| ensures !Outside(s, k) { assert s[k] == b[k - |a| - 1]; }
  }

  lemma NoColon(s: string)
    requires Flat(s)
    ensures LastColon(s) == -1
  {
  }

  // ---- reading ----

  function ParsePort(raw: string): Option<nat> {
    var n := Atoi(TrimSpace(raw));
    if n.Some? && 1 <= n.value <= 65535 then Some(n.value) else None
  }

  function ReadAddr(text: string): Option<string> {
    var a := ParseAddr(text);
    if a.None? then None
    else
      Accepted(text);
      UnmapValid(a.value);
      Some(Print(Unmap(a.value)))
  }

  lemma UnmapValid(a: Addr)
    requires Valid(a)
    ensures Valid(Unmap(a)) && !Mapped(Unmap(a)) && Unmap(Unmap(a)) == Unmap(a)
  {
  }

  function ParseHostIP(raw: string): Option<string> {
    var text := TrimSpace(raw);
    if text == "" then Some("")
    else if Count(text, '[') > 1 || Count(text, ']') > 1 then None
    else if text[0] == '[' || text[|text| - 1] == ']'
    then
      if text[0] != '[' || text[|text| - 1] != ']' then None
      else
        var inner := TrimSpace(text[1..|text| - 1]);
        if inner == "" then None else ReadAddr(inner)
    else if ':' in text then None
    else ReadAddr(text)
  }

  function ParseMapping(spec: string, protocol: string): Option<Publish> {
    var at := LastColon(spec);
    if at <= 0 || at >= |spec| - 1 then None
    else
      var left := spec[..at];
      var host := LastColon(left);
      var hostIPRaw, hostPortRaw := if host >= 0 then left[..host] else "",
          if host >= 0 then left[host + 1..] else left;
      var hostPort, containerPort, hostIP := ParsePort(hostPortRaw), ParsePort(spec[at + 1..]), ParseHostIP(hostIPRaw);
      if hostPort.Some? && containerPort.Some? && hostIP.Some?
      then Some(Publish(hostIP.value, hostPort.value, containerPort.value, protocol)) else None
  }

  function ParsePublish(value: string): Option<Publish> {
    var spec := TrimSpace(value);
    var slash := LastIndexOf(spec, '/');
    if spec == "" then None
    else if slash < 0 then ParseMapping(spec, "tcp")
    else
      var protocol := Lower(TrimSpace(spec[slash + 1..]));
      if protocol != "tcp" && protocol != "udp" then None
      else ParseMapping(TrimSpace(spec[..slash]), protocol)
  }

  // ---- what is accepted ----

  predicate Clean(text: string) { '[' !in text && ']' !in text && Trimmed(text) }

  ghost predicate IsHost(ip: string) {
    ip == "" || (Clean(ip) && exists a :: Valid(a) && !Mapped(a) && ip == Print(a))
  }

  /** The mappings that parsing can produce. */
  ghost predicate WellFormed(p: Publish) {
    && 1 <= p.hostPort <= 65535 && 1 <= p.containerPort <= 65535
    && (p.protocol == "tcp" || p.protocol == "udp") && IsHost(p.hostIP)
  }

  lemma PrintedShape(a: Addr)
    requires Valid(a) && !Mapped(a)
    ensures var s := Print(a); var zone := if a.V6? then a.zone else "";
            && |zone| < |s| && s[|s| - |zone|..] == zone && !IsSpace(s[0]) && s[0] != '['
            && (zone == "" ==> !IsSpace(s[|s| - 1]))
            && forall k :: 0 <= k < |s| - |zone| ==> IsAddrChar(s[k]) || s[k] == '%'
  {
    hide ParseAddr, Print;
    PrintReads(a);
    Accepted(Print(a));
    if a.V6? && a.zone != "" {
      ColonFirst(a);
    }
  }

  lemma ColonFirst(a: Addr)
    requires Valid(a) && !Mapped(a) && a.V6? && a.zone != ""
    ensures |Print(a)| > |a.zone| + 1
  {
    BodyReads(a.groups);
  }

  lemma AddrClean(text: string)
    requires ParseAddr(text).Some? && Clean(text)
    ensures ReadAddr(text).Some? && ReadAddr(text).value != "" && IsHost(ReadAddr(text).value)
  {
    hide ParseAddr, Print, Valid;
    Accepted(text);
    var a := ParseAddr(text).value;
    UnmapValid(a);
    var b := Unmap(a);
    var s := Print(b);
    PrintedShape(b);
    var zone := if b.V6? then b.zone else "";
    if zone != "" {
      assert zone == text[|text| - |zone|..];
    }
    forall k | 0 <= k < |s| ensures s[k] != '[' && s[k] != ']' {
      if k >= |s| - |zone| {
        assert s[k] == zone[k - (|s| - |zone|)] == text[k - |s| + |text|];
      }
    }
    if zone != "" {
      assert s[|s| - 1] == zone[|zone| - 1] == text[|text| - 1];
    }
  }

  lemma HostAccepted(raw: string)
    requires ParseHostIP(raw).Some?
    ensures IsHost(ParseHostIP(raw).value)
  {
    hide ReadAddr, IsHost, Valid, Print;
    var text := TrimSpace(raw);
    TrimSpaceTrims(raw);
    if text == "" {
      EmptyHost();
    } else if text[0] == '[' {
      var within := text[1..|text| - 1];
      var inner := TrimSpace(within);
      TrimSpaceTrims(within);
      Bracketed(text);
      assert Clean(inner);
      ReadAccepted(inner);
    } else {
      NoColonNoBracket(text);
      ReadAccepted(text);
    }
  }

  lemma EmptyHost()
    ensures IsHost("")
  {
  }

  lemma ReadAccepted(text: string)
    requires ReadAddr(text).Some? && Clean(text)
    ensures IsHost(ReadAddr(text).value)
  {
    AddrClean(text);
  }

  /** Text without a colon is read as IPv4, which has no brackets. */
  lemma NoColonNoBracket(text: string)
    requires ReadAddr(text).Some? && ':' !in text
    ensures '[' !in text && ']' !in text
  {
    V4Accepted(text);
  }

  lemma Bracketed(text: string)
    requires |text| >= 2 && text[0] == '[' && text[|text| - 1] == ']' && Count(text, '[') <= 1 && Count(text, ']') <= 1
    ensures '[' !in text[1..|text| - 1] && ']' !in text[1..|text| - 1]
  {
    var within := text[1..|text| - 1];
    assert text == "[" + within + "]";
    BracketCount(within);
    CountAbsent(within, '[');
    CountAbsent(within, ']');
  }

  lemma BracketCount(within: string)
    ensures Count("[" + within + "]", '[') == 1 + Count(within, '[')
    ensures Count("[" + within + "]", ']') == 1 + Count(within, ']')
  {
    var open := "[" + within;
    CountConcat("[", within, '[');
    CountConcat("[", within, ']');
    CountConcat(open, "]", '[');
    CountConcat(open, "]", ']');
    assert "["[..0] == [] && "]"[..0] == [];
  }

  /** Everything accepted is well formed. */
  lemma AcceptedIsWellFormed(value: string)
    requires ParsePublish(value).Some?
    ensures WellFormed(ParsePublish(value).value)
  {
    hide LastColon, TrimSpace, Atoi, ParseHostIP, IsHost;
    var spec := TrimSpace(value);
    var slash := LastIndexOf(spec, '/');
    MappingWellFormed(if slash < 0 then spec else TrimSpace(spec[..slash]),
                      if slash < 0 then "tcp" else Lower(TrimSpace(spec[slash + 1..])));
  }

  lemma MappingWellFormed(spec: string, protocol: string)
    requires ParseMapping(spec, protocol).Some? && (protocol == "tcp" || protocol == "udp")
    ensures WellFormed(ParseMapping(spec, protocol).value)
  {
    hide TrimSpace, Atoi, ParseHostIP, IsHost;
    var left := spec[..LastColon(spec)];
    var host := LastColon(left);
    HostAccepted(if host >= 0 then left[..host] else "");
  }

  // ---- reading what was printed ----

  lemma PortReads(n: nat)
    requires 1 <= n <= 65535
    ensures ParsePort(Itoa(n)) == Some(n) && Flat(Itoa(n)) && '/' !in Itoa(n) && Itoa(n) != ""
  {
    ItoaReads(n);
    AtoiItoa(n);
    TrimmedFixed(Itoa(n));
  }

  lemma HostReads(ip: string)
    requires IsHost(ip) && ip != ""
    ensures ':' in ip ==> ParseHostIP("[" + ip + "]") == Some(ip)
    ensures ':' !in ip ==> ParseHostIP(ip) == Some(ip)
  {
    hide ParseAddr, Print, Valid;
    var a :| Valid(a) && !Mapped(a) && ip == Print(a);
    PrintReads(a);
    TrimmedFixed(ip);
    CountAbsent(ip, '[');
    CountAbsent(ip, ']');
    if ':' in ip {
      var text := "[" + ip + "]";
      BracketCount(ip);
      TrimmedFixed(text);
      assert text[1..|text| - 1] == ip;
    }
  }

  /** The printed ports and address read back as they were. */
  lemma BaseReads(p: Publish, protocol: string)
    requires WellFormed(p)
    ensures ParseMapping(Base(p), protocol) == Some(p.(protocol := protocol))
  {
    hide ParseHostIP, ParsePort, IsHost, LastColon;
    var hp, cp := Itoa(p.hostPort), Itoa(p.containerPort);
    PortReads(p.hostPort);
    PortReads(p.containerPort);
    var s := Base(p);
    if p.hostIP == "" {
      LastColonIs(hp, cp);
      assert s[..|hp|] == hp && s[|hp| + 1..] == cp;
      NoColon(hp);
      EmptyHostReads();
    } else {
      var raw := if ':' in p.hostIP then "[" + p.hostIP + "]" else p.hostIP;
      var left := raw + ":" + hp;
      assert s == left + ":" + cp;
      LastColonIs(left, cp);
      assert s[..|left|] == left && s[|left| + 1..] == cp;
      LastColonIs(raw, hp);
      assert left[..|raw|] == raw && left[|raw| + 1..] == hp;
      HostReads(p.hostIP);
    }
  }

  lemma EmptyHostReads()
    ensures ParseHostIP("") == Some("")
  {
  }

  lemma {:induction false} LastIndexIs(a: string, b: string, c: char)
    requires c !in b
    ensures LastIndexOf(a + [c] + b, c) == |a|
  {
    if b == [] {
      assert a + [c] + b == a + [c];
    } else {
      assert (a + [c] + b)[..|a + [c] + b| - 1] == a + [c] + b[..|b| - 1];
      LastIndexIs(a, b[..|b| - 1], c);
    }
  }

  lemma PortsShape(p: Publish)
    requires 1 <= p.hostPort <= 65535 && 1 <= p.containerPort <= 65535
    ensures var s := Ports(p); s != "" && IsDigit(s[0]) && IsDigit(s[|s| - 1]) && '/' !in s
  {
    hide Itoa;
    var hp, cp := Itoa(p.hostPort), Itoa(p.containerPort);
    ItoaReads(p.hostPort);
    ItoaReads(p.containerPort);
    PortReads(p.hostPort);
    PortReads(p.containerPort);
    assert Ports(p)[0] == hp[0] && Ports(p)[|Ports(p)| - 1] == cp[|cp| - 1];
  }

  /** The base form is trimmed, ends in a digit, and has a slash just when the address has. */
  lemma BaseShape(p: Publish)
    requires WellFormed(p)
    ensures var s := Base(p); s != "" && Trimmed(s) && IsDigit(s[|s| - 1])
    ensures '/' in Base(p) <==> '/' in p.hostIP
  {
    hide IsHost, Ports;
    PortsShape(p);
    var ports := Ports(p);
    if p.hostIP != "" {
      HostTrimmed(p.hostIP);
      var head := if ':' in p.hostIP then "[" + p.hostIP + "]" else p.hostIP;
      HeadedShape(head, ports);
      assert Base(p) == head + ":" + ports;
      assert '/' in head <==> '/' in p.hostIP;
    }
  }

  lemma HeadedShape(head: string, ports: string)
    requires head != "" && !IsSpace(head[0]) && ports != "" && IsDigit(ports[|ports| - 1]) && '/' !in ports
    ensures var s := head + ":" + ports; Trimmed(s) && IsDigit(s[|s| - 1]) && ('/' in s <==> '/' in head)
  {
    var s := head + ":" + ports;
    assert s[0] == head[0] && s[|s| - 1] == ports[|ports| - 1];
  }

  lemma HostTrimmed(ip: string)
    requires IsHost(ip)
    ensures Trimmed(ip)
  {
  }

  /** With its protocol spelt out, a well-formed mapping always reads back. */
  lemma SpeltOutReads(p: Publish)
    requires WellFormed(p)
    ensures ParsePublish(Base(p) + "/" + p.protocol) == Some(p)
  {
    hide ParseMapping, IsHost, TrimSpace, Base;
    BaseShape(p);
    BaseReads(p, p.protocol);
    var s := Base(p) + "/" + p.protocol;
    assert s[|s| - 1] == 'p' && s[0] == Base(p)[0];
    TrimmedFixed(s);
    LastIndexIs(Base(p), p.protocol, '/');
    assert s[..|Base(p)|] == Base(p) && s[|Base(p)| + 1..] == p.protocol;
    TrimmedFixed(Base(p));
    TrimmedFixed(p.protocol);
    assert Lower(p.protocol) == p.protocol;
  }

  /** Printing is a normal form except for a TCP mapping whose IPv6 zone holds a slash, which is then refused. */
  lemma ShowReadsExactly(p: Publish)
    requires WellFormed(p)
    ensures ParsePublish(Show(p)) == if p.protocol == "udp" || '/' !in p.hostIP then Some(p) else None
  {
    hide ParseMapping, IsHost, TrimSpace, Base;
    BaseShape(p);
    if p.protocol == "udp" {
      assert Show(p) == Base(p) + "/" + p.protocol;
      SpeltOutReads(p);
    } else {
      var s := Base(p);
      assert Show(p) == s;
      TrimmedFixed(s);
      BaseReads(p, "tcp");
      if '/' in p.hostIP {
        EndsInDigit(s[LastIndexOf(s, '/') + 1..]);
      }
    }
  }

  lemma EndsInDigit(text: string)
    requires text != "" && IsDigit(text[|text| - 1])
    ensures Lower(TrimSpace(text)) != "tcp" && Lower(TrimSpace(text)) != "udp"
  {
    TrimLeftKeepsEnd(text);
    var t := TrimSpace(text);
    assert t == TrimLeft(text) && Lower(t)[|t| - 1] == t[|t| - 1];
  }

  lemma {:induction false} TrimLeftKeepsEnd(text: string)
    requires text != "" && !IsSpace(text[|text| - 1])
    ensures TrimLeft(text) != "" && TrimLeft(text)[|TrimLeft(text)| - 1] == text[|text| - 1]
  {
    if IsSpace(text[0]) {
      TrimLeftKeepsEnd(text[1..]);
    }
  }

  /** Exactly the well-formed mappings can be asked for. */
  lemma AcceptedExactly(p: Publish)
    ensures WellFormed(p) <==> exists value :: ParsePublish(value) == Some(p)
  {
    if WellFormed(p) {
      SpeltOutReads(p);
    }
    if exists value :: ParsePublish(value) == Some(p) {
      var value :| ParsePublish(value) == Some(p);
      AcceptedIsWellFormed(value);
    }
  }

  /** No two accepted mappings print alike. */
  lemma ShowInjective(p: Publish, q: Publish)
    requires WellFormed(p) && WellFormed(q) && Show(p) == Show(q)
    ensures p == q
  {
    hide ParsePublish, IsHost, Base;
    BaseShape(p);
    BaseShape(q);
    SpeltOutReads(p);
    SpeltOutReads(q);
    assert p.protocol == q.protocol by {
      assert p.protocol == "udp" ==> Show(p)[|Show(p)| - 1] == 'p';
      assert q.protocol == "udp" ==> Show(q)[|Show(q)| - 1] == 'p';
    }
    assert Base(p) == Base(q) by {
      if p.protocol == "udp" {
        assert Show(p)[..|Show(p)| - 4] == Base(p) && Show(q)[..|Show(q)| - 4] == Base(q);
      } else {
        assert Show(p) == Base(p) && Show(q) == Base(q);
      }
    }
  }

  /** The failing family is inhabited: a link-local address whose zone holds a slash. */
  lemma SlashInZone()
    ensures exists p, value :: ParsePublish(value) == Some(p) && ParsePublish(Show(p)) == None
  {
    hide ParsePublish, Print, IsHost;
    var a := V6([0xfe80, 0, 0, 0, 0, 0, 0, 1], "a/b");
    var p := Publish(Print(a), 80, 80, "tcp");
    ZonedHost(a);
    SpeltOutReads(p);
    ShowReadsExactly(p);
  }

  lemma ZonedHost(a: Addr)
    requires Valid(a) && !Mapped(a) && a.V6? && a.zone == "a/b"
    ensures IsHost(Print(a)) && '/' in Print(a)
  {
    hide Print, Valid;
    PrintedShape(a);
    var s := Print(a);
    assert s[|s| - 3..] == "a/b";
    assert s[|s| - 2] == s[|s| - 3..][1] == '/';
    assert s[|s| - 1] == s[|s| - 3..][2] && s[|s| - 3] == s[|s| - 3..][0];
  }

  // ---- duplicates ----

  datatype Verdict = Fine | Malformed(at: nat) | Duplicate(at: nat, first: nat)

  /** The first `n` specifications parse to distinct mappings. */
  ghost predicate Distinct(specs: seq<string>, n: nat)
    requires n <= |specs|
  {
    && (forall i :: 0 <= i < n ==> ParsePublish(specs[i]).Some?)
    && (forall i, j :: 0 <= i < j < n ==> ParsePublish(specs[i]) != ParsePublish(specs[j]))
  }

  /** Duplicates are found by printed form, yet the verdict is about mappings; the first fault is reported. */
  method ValidatePublishes(specs: seq<string>) returns (v: Verdict)
    ensures v.Fine? <==> Distinct(specs, |specs|)
    ensures v.Malformed? ==> v.at < |specs| && Distinct(specs, v.at) && ParsePublish(specs[v.at]).None?
    ensures v.Duplicate? ==>
              v.first < v.at < |specs| && Distinct(specs, v.at)
                && ParsePublish(specs[v.at]) == ParsePublish(specs[v.first])
  {
    hide ParsePublish, Show, WellFormed;
    var seen: map<string, nat> := map[];
    for i := 0 to |specs|
      invariant Distinct(specs, i)
      invariant forall k :: k in seen ==> seen[k] < i && k == Show(ParsePublish(specs[seen[k]]).value)
      invariant forall j :: 0 <= j < i ==> Show(ParsePublish(specs[j]).value) in seen
    {
      var mapping := ParsePublish(specs[i]);
      if mapping.None? {
        return Malformed(i);
      }
      AcceptedIsWellFormed(specs[i]);
      var normalized := Show(mapping.value);
      if normalized in seen {
        AcceptedIsWellFormed(specs[seen[normalized]]);
        ShowInjective(mapping.value, ParsePublish(specs[seen[normalized]]).value);
        return Duplicate(i, seen[normalized]);
      }
      seen := seen[normalized := i];
    }
    return Fine;
  }
}
