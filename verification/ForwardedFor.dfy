/** Resolving the client address behind proxies from X-Forwarded-For and
    CF-Connecting-IP, under the configured trust mode. */
module ForwardedFor {
  import opened Wrappers
  import opened Texts
  import opened IpAddresses
  import opened AccessControl

  // ---------------------------------------------------------------- header text

  /** A header value; `Opaque` is one that is not text. */
  datatype HeaderValue = Opaque | Text(text: string)

  /** The standard library's two address parsers. */
  datatype Parsers = Parsers(address: string -> Option<IpAddr>, dotted: string -> Option<IpAddr>)

  predicate IsSpace(c: char) { c == ' ' || c == '\t' || c == '\n' || c == '\r' }

  function TrimLeft(s: string): string {
    if s != "" && IsSpace(s[0]) then TrimLeft(s[1..]) else s
  }

  function TrimRight(s: string): string {
    if s != "" && IsSpace(s[|s| - 1]) then TrimRight(s[..|s| - 1]) else s
  }

  function Trim(s: string): string { TrimRight(TrimLeft(s)) }

  /** Position of the first `c`, or the length of the text. */
  function Find(s: string, c: char): (i: nat)
    ensures i <= |s| && (i < |s| ==> s[i] == c) && c !in s[..i]
  {
    if s == "" || s[0] == c then 0 else 1 + Find(s[1..], c)
  }

  predicate IsPortSuffix(s: string) {
    |s| >= 2 && s[0] == ':' && forall i | 1 <= i < |s| :: '0' <= s[i] <= '9'
  }

  /** An address with optional brackets, zone and port. */
  function ParseIp(p: Parsers, raw: string): Option<IpAddr> {
    var s := Trim(raw);
    if s == "" then None
    else if s[0] == '[' then
      var rest := s[1..];
      var close := Find(rest, ']');
      if close == |rest| then None
      else if rest[close + 1..] != "" && !IsPortSuffix(rest[close + 1..]) then None
      else p.address(rest[..close][..Find(rest[..close], '%')])
    else
      var colon := Find(s, ':');
      if colon < |s| && ':' !in s[colon + 1..] then
        if IsPortSuffix(s[colon..]) then p.dotted(s[..colon]) else None
      else p.address(s[..Find(s, '%')])
  }

  // ---------------------------------------------------------------- entries

  /** The entry of one part of a list, if it is not blank; `None` where unparsable. */
  function Entry(p: Parsers, part: string): seq<Option<IpAddr>> {
    if Trim(part) == "" then [] else [ParseIp(p, Trim(part))]
  }

  /** The entries of one comma-separated list. */
  function ListEntries(p: Parsers, parts: seq<string>): seq<Option<IpAddr>> {
    Gather(PartReader(p), parts)
  }

  function PartReader(p: Parsers): string -> seq<Option<IpAddr>> {
    part => Entry(p, part)
  }

  function ValueEntries(p: Parsers, v: HeaderValue): seq<Option<IpAddr>> {
    match v
    case Opaque => [None]
    case Text(s) => ListEntries(p, Split(s, ','))
  }

  function ValueReader(p: Parsers): HeaderValue -> seq<Option<IpAddr>> {
    v => ValueEntries(p, v)
  }

  /** The entries of every line, in order. */
  function Entries(p: Parsers, headers: seq<HeaderValue>): seq<Option<IpAddr>> {
    Gather(ValueReader(p), headers)
  }

  lemma {:induction false} EntriesConcat(p: Parsers, a: seq<HeaderValue>, b: seq<HeaderValue>)
    ensures Entries(p, a + b) == Entries(p, a) + Entries(p, b)
  {
    GatherConcat(ValueReader(p), a, b);
  }

  lemma {:induction false} PrependedInValue(p: Parsers, forged: string, text: string)
    ensures ValueEntries(p, Text(forged + "," + text)) ==
              ListEntries(p, Split(forged, ',')) + ValueEntries(p, Text(text))
  {
    assert forged + "," + text == forged + [','] + text;
    SplitConcat(forged, text, ',');
    GatherConcat(PartReader(p), Split(forged, ','), Split(text, ','));
  }

  /** Text written to the left inside the first value only adds entries on the left. */
  lemma {:induction false} PrependedText(p: Parsers, forged: string, text: string, rest: seq<HeaderValue>)
    ensures Entries(p, [Text(forged + "," + text)] + rest) ==
              ListEntries(p, Split(forged, ',')) + Entries(p, [Text(text)] + rest)
  {
    PrependedInValue(p, forged, text);
    GatherCons(ValueReader(p), Text(forged + "," + text), rest);
    GatherCons(ValueReader(p), Text(text), rest);
    Associate(ListEntries(p, Split(forged, ',')), ValueEntries(p, Text(text)), Entries(p, rest));
  }

  // ---------------------------------------------------------------- the three walks

  /** The addresses that parse, left to right. */
  function Addresses(entries: seq<Option<IpAddr>>): seq<IpAddr> {
    if entries == [] then []
    else (if entries[0].Some? then [entries[0].value] else []) + Addresses(entries[1..])
  }

  /** The left-most untrusted address, or the left-most address. */
  function FirstUntrusted(acl: AccessControl, ips: seq<IpAddr>): Option<IpAddr> {
    if ips == [] then None
    else if !Trusted(acl.rules, ips[0]) then Some(ips[0])
    else FirstUntrusted(acl, ips[1..])
  }

  function Leftmost(acl: AccessControl, ips: seq<IpAddr>): Option<IpAddr> {
    var found := FirstUntrusted(acl, ips);
    if found.Some? then found else if ips == [] then None else Some(ips[0])
  }

  /** From the right: the first untrusted hop; an unparsable one ends the walk. */
  function NearestUntrusted(acl: AccessControl, entries: seq<Option<IpAddr>>, left: Option<IpAddr>): Option<IpAddr> {
    if entries == [] then left
    else
      var last := entries[|entries| - 1];
      if last.None? then None
      else if !Trusted(acl.rules, last.value) then last
      else NearestUntrusted(acl, entries[..|entries| - 1], left)
  }

  function Rightmost(acl: AccessControl, entries: seq<Option<IpAddr>>): Option<IpAddr> {
    NearestUntrusted(acl, entries, if entries == [] then None else entries[0])
  }

  function LastHop(entries: seq<Option<IpAddr>>): Option<IpAddr> {
    if entries == [] then None else entries[|entries| - 1]
  }

  function OrElse(ip: Option<IpAddr>, peer: IpAddr): IpAddr {
    if ip.Some? then ip.value else peer
  }

  /** What `resolve_client_ip` returns for each trust mode. */
  function Resolved(p: Parsers, acl: AccessControl, peer: IpAddr, xff: seq<HeaderValue>,
                    cf: Option<HeaderValue>, mode: nat, mtls: bool): IpAddr
  {
    var home := Canonical(peer);
    if mode == 4 then OrElse(LastHop(Entries(p, xff)), home)
    else if mode == 1 then OrElse(Leftmost(acl, Addresses(Entries(p, xff))), home)
    else if mode == 0 || !Trusted(acl.rules, home) || !mtls then home
    else
      var direct := if cf.Some? && cf.value.Text? then ParseIp(p, cf.value.text) else None;
      if direct.Some? then direct.value else OrElse(Rightmost(acl, Entries(p, xff)), home)
  }

  // ---------------------------------------------------------------- forged entries

  /** Some entry is untrusted or unparsable. */
  ghost predicate Blocks(acl: AccessControl, entries: seq<Option<IpAddr>>) {
    exists e | e in entries :: e.None? || !Trusted(acl.rules, e.value)
  }

  lemma {:induction false} NearestIgnoresLeft(acl: AccessControl, forged: seq<Option<IpAddr>>,
                                              entries: seq<Option<IpAddr>>, a: Option<IpAddr>, b: Option<IpAddr>)
    requires Blocks(acl, entries)
    ensures NearestUntrusted(acl, forged + entries, a) == NearestUntrusted(acl, entries, b)
  {
    var n := |entries| - 1;
    var last := entries[n];
    assert (forged + entries)[|forged| + n] == last;
    if last.Some? && Trusted(acl.rules, last.value) {
      var e :| e in entries && (e.None? || !Trusted(acl.rules, e.value));
      var k :| 0 <= k < |entries| && entries[k] == e;
      assert entries[..n][k] == e;
      assert (forged + entries)[..|forged| + n] == forged + entries[..n];
      NearestIgnoresLeft(acl, forged, entries[..n], a, b);
    }
  }

  lemma {:induction false} NearestPassesTrusted(acl: AccessControl, forged: seq<Option<IpAddr>>,
                                                entries: seq<Option<IpAddr>>, left: Option<IpAddr>)
    requires !Blocks(acl, entries)
    ensures NearestUntrusted(acl, forged + entries, left) == NearestUntrusted(acl, forged, left)
  {
    if entries == [] {
      assert forged + entries == forged;
    } else {
      var n := |entries| - 1;
      assert entries[n] in entries;
      assert (forged + entries)[|forged| + n] == entries[n];
      assert (forged + entries)[..|forged| + n] == forged + entries[..n];
      assert forall e | e in entries[..n] :: e in entries;
      NearestPassesTrusted(acl, forged, entries[..n], left);
    }
  }

  /** Entries a client writes on the left change nothing if and only if some genuine
      entry is untrusted or unparsable; otherwise any one address they write wins. */
  lemma {:induction false} ForgedPrefixIsPowerless(acl: AccessControl, forged: seq<Option<IpAddr>>,
                                                   entries: seq<Option<IpAddr>>)
    ensures Blocks(acl, entries) ==> Rightmost(acl, forged + entries) == Rightmost(acl, entries)
    ensures !Blocks(acl, entries) ==> forall x :: Rightmost(acl, [Some(x)] + entries) == Some(x)
  {
    if Blocks(acl, entries) {
      var whole := forged + entries;
      NearestIgnoresLeft(acl, forged, entries, whole[0], entries[0]);
    } else {
      forall x ensures Rightmost(acl, [Some(x)] + entries) == Some(x) {
        var one: seq<Option<IpAddr>> := [Some(x)];
        NearestPassesTrusted(acl, one, entries, Some(x));
        assert one[..0] == [];
      }
    }
  }

  /** In mode 4 the nearest hop alone decides, unless there is none. */
  lemma {:induction false} LastHopIgnoresLeft(forged: seq<Option<IpAddr>>, entries: seq<Option<IpAddr>>)
    requires entries != []
    ensures LastHop(forged + entries) == LastHop(entries)
  {
  }

  /** Lines and text put in front add their entries in front. */
  lemma {:induction false} ForgedEntries(p: Parsers, forged: seq<HeaderValue>, text: string, line: string,
                                         rest: seq<HeaderValue>)
    ensures Entries(p, forged + [Text(text + "," + line)] + rest) ==
              (Entries(p, forged) + ListEntries(p, Split(text, ','))) + Entries(p, [Text(line)] + rest)
  {
    var whole, genuine := [Text(text + "," + line)] + rest, [Text(line)] + rest;
    Associate(forged, [Text(text + "," + line)], rest);
    EntriesConcat(p, forged, whole);
    PrependedText(p, text, line, rest);
    Associate(Entries(p, forged), ListEntries(p, Split(text, ',')), Entries(p, genuine));
  }

  /** The branch of the resolution that walks the header from the right. */
  predicate Walks(p: Parsers, acl: AccessControl, peer: IpAddr, cf: Option<HeaderValue>, mode: nat, mtls: bool) {
    && mode != 0 && mode != 1 && mode != 4 && mtls && Trusted(acl.rules, Canonical(peer))
    && !(cf.Some? && cf.value.Text? && ParseIp(p, cf.value.text).Some?)
  }

  /** Entries in front leave what is resolved from the genuine ones alone. */
  lemma {:induction false} SameBeyond(p: Parsers, acl: AccessControl, peer: IpAddr, headers: seq<HeaderValue>,
                                      genuine: seq<HeaderValue>,
                                      written: seq<Option<IpAddr>>, cf: Option<HeaderValue>, mode: nat, mtls: bool)
    requires mode != 1 && Entries(p, headers) == written + Entries(p, genuine)
    requires mode == 4 ==> Entries(p, genuine) != []
    requires Walks(p, acl, peer, cf, mode, mtls) ==> Blocks(acl, Entries(p, genuine))
    ensures Resolved(p, acl, peer, headers, cf, mode, mtls) == Resolved(p, acl, peer, genuine, cf, mode, mtls)
  {
    if mode == 4 {
      LastHopIgnoresLeft(written, Entries(p, genuine));
    } else if Walks(p, acl, peer, cf, mode, mtls) {
      ForgedPrefixIsPowerless(acl, written, Entries(p, genuine));
    }
  }

  /** What a client can make of the genuine lines: lines in front of them, and text in
      front of the first if that is text. */
  function Spoofed(forged: seq<HeaderValue>, text: Option<string>, genuine: seq<HeaderValue>): seq<HeaderValue> {
    if text.Some? && genuine != [] && genuine[0].Text?
    then forged + [Text(text.value + "," + genuine[0].text)] + genuine[1..]
    else forged + genuine
  }

  lemma {:induction false} SpoofedEntries(p: Parsers, forged: seq<HeaderValue>, text: Option<string>,
                                          genuine: seq<HeaderValue>)
      returns (written: seq<Option<IpAddr>>)
    ensures Entries(p, Spoofed(forged, text, genuine)) == written + Entries(p, genuine)
  {
    if text.Some? && genuine != [] && genuine[0].Text? {
      written := Entries(p, forged) + ListEntries(p, Split(text.value, ','));
      ForgedEntries(p, forged, text.value, genuine[0].text, genuine[1..]);
      assert [Text(genuine[0].text)] + genuine[1..] == genuine;
    } else {
      written := Entries(p, forged);
      EntriesConcat(p, forged, genuine);
    }
  }

  /** Header lines, or text in the first line, that a client puts in front leave the
      resolved address unchanged: in mode 4 when the header had an entry, and where the
      header is walked from the right when an entry was untrusted or unparsable. Elsewhere
      but in mode 1 the header is not read at all. */
  lemma {:induction false} SpoofingIsPowerless(p: Parsers, acl: AccessControl, peer: IpAddr, forged: seq<HeaderValue>,
                                               text: Option<string>,
                                               genuine: seq<HeaderValue>, cf: Option<HeaderValue>, mode: nat,
                                               mtls: bool)
    requires mode != 1
    requires mode == 4 ==> Entries(p, genuine) != []
    requires Walks(p, acl, peer, cf, mode, mtls) ==> Blocks(acl, Entries(p, genuine))
    ensures Resolved(p, acl, peer, Spoofed(forged, text, genuine), cf, mode, mtls) ==
              Resolved(p, acl, peer, genuine, cf, mode, mtls)
  {
    var written := SpoofedEntries(p, forged, text, genuine);
    SameBeyond(p, acl, peer, Spoofed(forged, text, genuine), genuine, written, cf, mode, mtls);
  }

  // ---------------------------------------------------------------- the code

  function Head(ips: seq<IpAddr>): Option<IpAddr> {
    if ips == [] then None else Some(ips[0])
  }

  lemma {:induction false} AddressesConcat(a: seq<Option<IpAddr>>, b: seq<Option<IpAddr>>)
    ensures Addresses(a + b) == Addresses(a) + Addresses(b)
  {
    if a == [] {
      assert a + b == b;
    } else {
      AddressesConcat(a[1..], b);
      assert (a + b)[1..] == a[1..] + b;
      Associate(if a[0].Some? then [a[0].value] else [], Addresses(a[1..]), Addresses(b));
    }
  }

  lemma {:induction false} FirstUntrustedConcat(acl: AccessControl, a: seq<IpAddr>, b: seq<IpAddr>)
    ensures FirstUntrusted(acl, a + b) ==
              if FirstUntrusted(acl, a).Some? then FirstUntrusted(acl, a) else FirstUntrusted(acl, b)
  {
    if a == [] {
      assert a + b == b;
    } else {
      FirstUntrustedConcat(acl, a[1..], b);
      assert (a + b)[1..] == a[1..] + b;
    }
  }

  lemma {:induction false} FirstUntrustedCons(acl: AccessControl, ip: IpAddr, rest: seq<IpAddr>)
    ensures FirstUntrusted(acl, [ip] + rest) == if Trusted(acl.rules, ip) then FirstUntrusted(acl, rest) else Some(ip)
  {
    assert ([ip] + rest)[1..] == rest;
  }

  /** The addresses of one header value. */
  function ValueAddresses(p: Parsers, v: HeaderValue): seq<IpAddr> {
    Addresses(ValueEntries(p, v))
  }

  function AllAddresses(p: Parsers, headers: seq<HeaderValue>): seq<IpAddr> {
    Addresses(Entries(p, headers))
  }

  lemma {:induction false} AllAddressesFrom(p: Parsers, headers: seq<HeaderValue>, i: nat)
    requires i < |headers|
    ensures AllAddresses(p, headers[i..]) == ValueAddresses(p, headers[i]) + AllAddresses(p, headers[i + 1..])
  {
    GatherFrom(ValueReader(p), headers, i);
    AddressesConcat(ValueEntries(p, headers[i]), Entries(p, headers[i + 1..]));
  }

  lemma {:induction false} PartAddresses(p: Parsers, parts: seq<string>, k: nat)
    requires k < |parts|
    ensures var ip := ParseIp(p, Trim(parts[k]));
            var rest := Addresses(ListEntries(p, parts[k + 1..]));
            Addresses(ListEntries(p, parts[k..])) == if ip.Some? then [ip.value] + rest else rest
  {
    GatherFrom(PartReader(p), parts, k);
    AddressesConcat(Entry(p, parts[k]), ListEntries(p, parts[k + 1..]));
    EntryAddress(p, parts[k]);
  }

  lemma {:induction false} EntryAddress(p: Parsers, part: string)
    ensures var ip := ParseIp(p, Trim(part)); Addresses(Entry(p, part)) == if ip.Some? then [ip.value] else []
  {
    var ip := ParseIp(p, Trim(part));
    if Trim(part) == "" {
      assert Trim(Trim(part)) == "";
    } else {
      assert [ip][1..] == [];
    }
  }

  /** Every non-empty entry of every line, in order. */
  method XffEntries(p: Parsers, headers: seq<HeaderValue>) returns (entries: seq<Option<IpAddr>>)
    ensures entries == Entries(p, headers)
  {
    entries := [];
    for i := 0 to |headers|
      invariant entries + Entries(p, headers[i..]) == Entries(p, headers)
    {
      EntriesFrom(p, headers, i, entries);
      entries := entries + ValueEntries(p, headers[i]);
    }
  }

  lemma {:induction false} EntriesFrom(p: Parsers, headers: seq<HeaderValue>, i: nat, done: seq<Option<IpAddr>>)
    requires i < |headers|
    ensures done + Entries(p, headers[i..]) == (done + ValueEntries(p, headers[i])) + Entries(p, headers[i + 1..])
  {
    GatherFrom(ValueReader(p), headers, i);
    Associate(done, ValueEntries(p, headers[i]), Entries(p, headers[i + 1..]));
  }

  /** The addresses among comma-separated parts. */
  method ParsedParts(p: Parsers, parts: seq<string>) returns (ips: seq<IpAddr>)
    ensures ips == Addresses(ListEntries(p, parts))
  {
    ips := [];
    for k := 0 to |parts|
      invariant ips + Addresses(ListEntries(p, parts[k..])) == Addresses(ListEntries(p, parts))
    {
      PartAddresses(p, parts, k);
      var ip := ParseIp(p, Trim(parts[k]));
      if ip.Some? {
        Associate(ips, [ip.value], Addresses(ListEntries(p, parts[k + 1..])));
        ips := ips + [ip.value];
      }
    }
    assert parts[|parts|..] == [];
  }

  lemma {:induction false} OpaqueHasNoAddress(p: Parsers)
    ensures ValueAddresses(p, Opaque) == []
  {
    var entries: seq<Option<IpAddr>> := [None];
    assert entries[1..] == [] && Addresses(entries) == Addresses(entries[1..]);
  }

  /** One line of the general walk. */
  method WalkValue(p: Parsers, acl: AccessControl, ghost rules: seq<Rule>, v: HeaderValue)
      returns (found: Option<IpAddr>, first: Option<IpAddr>)
    requires BuiltFrom(acl, rules)
    ensures found == FirstUntrusted(acl, ValueAddresses(p, v))
    ensures found.None? ==> first == Head(ValueAddresses(p, v))
  {
    found, first := None, None;
    if v.Opaque? {
      OpaqueHasNoAddress(p);
      return;
    }
    var parts := Split(v.text, ',');
    for k := 0 to |parts|
      invariant FirstUntrusted(acl, Addresses(ListEntries(p, parts[k..]))) == FirstUntrusted(acl, ValueAddresses(p, v))
      invariant first == if first.Some? then Head(ValueAddresses(p, v)) else None
      invariant first.None? ==> Addresses(ListEntries(p, parts[k..])) == ValueAddresses(p, v)
    {
      PartAddresses(p, parts, k);
      var ip := ParseIp(p, Trim(parts[k]));
      if ip.Some? {
        FirstUntrustedCons(acl, ip.value, Addresses(ListEntries(p, parts[k + 1..])));
        if first.None? { first := ip; }
        var trusted := IsTrusted(acl, rules, ip.value);
        if !trusted { found := ip; return; }
      }
    }
  }

  /** The left-most untrusted entry. Both shortcuts, for a configuration that trusts
      everyone and for a single address, return what the general walk would. */
  method LeftmostUntrustedXff(p: Parsers, acl: AccessControl, ghost rules: seq<Rule>, headers: seq<HeaderValue>)
      returns (r: Option<IpAddr>)
    requires BuiltFrom(acl, rules)
    ensures r == Leftmost(acl, AllAddresses(p, headers))
  {
    if acl.allTrusted {
      AllTrustedTakesFirst(acl, rules, AllAddresses(p, headers));
      r := FirstParsed(p, headers);
      return;
    }
    if |headers| == 1 && headers[0].Text? {
      var ips := ParsedParts(p, Split(headers[0].text, ','));
      if |ips| == 1 {
        AllAddressesFrom(p, headers, 0);
        assert headers[0..] == headers && headers[1..] == [];
        assert AllAddresses(p, headers) == ips == [ips[0]] + [];
        FirstUntrustedCons(acl, ips[0], []);
        return Some(ips[0]);
      }
    }
    r := GeneralWalk(p, acl, rules, headers);
  }

  lemma {:induction false} AllTrustedTakesFirst(acl: AccessControl, rules: seq<Rule>, ips: seq<IpAddr>)
    requires BuiltFrom(acl, rules) && acl.allTrusted
    ensures Leftmost(acl, ips) == Head(ips) && FirstUntrusted(acl, ips).None?
  {
    if ips != [] {
      TrustIsSound(acl, rules, ips[0]);
      AllTrustedTakesFirst(acl, rules, ips[1..]);
    }
  }

  method FirstParsed(p: Parsers, headers: seq<HeaderValue>) returns (r: Option<IpAddr>)
    ensures r == Head(AllAddresses(p, headers))
  {
    for i := 0 to |headers|
      invariant AllAddresses(p, headers[i..]) == AllAddresses(p, headers)
    {
      AllAddressesFrom(p, headers, i);
      if headers[i].Text? {
        var ips := ParsedParts(p, Split(headers[i].text, ','));
        if ips != [] { return Some(ips[0]); }
      }
    }
    assert headers[|headers|..] == [];
    r := None;
  }

  method GeneralWalk(p: Parsers, acl: AccessControl, ghost rules: seq<Rule>, headers: seq<HeaderValue>)
      returns (r: Option<IpAddr>)
    requires BuiltFrom(acl, rules)
    ensures r == Leftmost(acl, AllAddresses(p, headers))
  {
    var first: Option<IpAddr> := None;
    for i := 0 to |headers|
      invariant FirstUntrusted(acl, AllAddresses(p, headers[i..])) == FirstUntrusted(acl, AllAddresses(p, headers))
      invariant first.Some? ==> first == Head(AllAddresses(p, headers))
      invariant first.None? ==> AllAddresses(p, headers[i..]) == AllAddresses(p, headers)
    {
      AllAddressesFrom(p, headers, i);
      FirstUntrustedConcat(acl, ValueAddresses(p, headers[i]), AllAddresses(p, headers[i + 1..]));
      var found, head := WalkValue(p, acl, rules, headers[i]);
      if found.Some? { return found; }
      if first.None? { first := head; }
    }
    assert headers[|headers|..] == [];
    r := first;
  }

  /** Strip trusted hops from the right; stop at an unparsable one. */
  method RightmostUntrustedXff(p: Parsers, acl: AccessControl, ghost rules: seq<Rule>, headers: seq<HeaderValue>)
      returns (r: Option<IpAddr>)
    requires BuiltFrom(acl, rules)
    ensures r == Rightmost(acl, Entries(p, headers))
  {
    var entries := XffEntries(p, headers);
    var left := if entries == [] then None else entries[0];
    var i := |entries|;
    assert entries[..i] == entries;
    while i > 0
      invariant 0 <= i <= |entries|
      invariant NearestUntrusted(acl, entries[..i], left) == Rightmost(acl, entries)
    {
      i := i - 1;
      assert entries[..i + 1][..i] == entries[..i];
      if entries[i].None? { return None; }
      var trusted := IsTrusted(acl, rules, entries[i].value);
      if !trusted { return entries[i]; }
    }
    r := left;
  }

  method ResolveClientIp(p: Parsers, acl: AccessControl, ghost rules: seq<Rule>, peer: IpAddr, xff: seq<HeaderValue>,
                         cf: Option<HeaderValue>, mode: nat, mtls: bool) returns (client: IpAddr)
    requires BuiltFrom(acl, rules)
    ensures client == Resolved(p, acl, peer, xff, cf, mode, mtls)
  {
    var home := Canonical(peer);
    if mode == 4 {
      var entries := XffEntries(p, xff);
      return OrElse(LastHop(entries), home);
    }
    if mode == 1 {
      var leftmost := LeftmostUntrustedXff(p, acl, rules, xff);
      return OrElse(leftmost, home);
    }
    var honor := false;
    if mode != 0 {
      var trusted := IsTrusted(acl, rules, home);
      honor := trusted && mtls;
    }
    if !honor { return home; }
    if cf.Some? && cf.value.Text? {
      var direct := ParseIp(p, cf.value.text);
      if direct.Some? { return direct.value; }
    }
    var nearest := RightmostUntrustedXff(p, acl, rules, xff);
    client := OrElse(nearest, home);
  }
}
