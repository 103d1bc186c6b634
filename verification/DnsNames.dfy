/** DNS identifiers, provider scopes and challenge records: the text algebra that
    decides which names the order manager may touch. */
module DnsNames {
  import opened Wrappers
  import opened Texts

  // ---------------------------------------------------------------- labels

  function Labels(s: string): (labels: seq<string>)
    ensures labels != []
  {
    Split(s, '.')
  }

  // ---------------------------------------------------------------- domains

  datatype Domain = Domain(text: string)

  datatype ConfigError = InvalidDomain

  predicate IsDigit(c: char) { '0' <= c <= '9' }

  predicate IsAlphanumeric(c: char) {
    IsDigit(c) || 'a' <= c <= 'z' || 'A' <= c <= 'Z'
  }

  predicate IsLabel(part: string) {
    && 0 < |part| <= 63
    && IsAlphanumeric(part[0]) && IsAlphanumeric(part[|part| - 1])
    && forall c | c in part :: IsAlphanumeric(c) || c == '-'
  }

  function Decimal(digits: string): nat
    requires forall c | c in digits :: IsDigit(c)
  {
    if digits == "" then 0
    else
      var last := digits[|digits| - 1];
      assert last in digits && IsDigit(last);
      10 * Decimal(digits[..|digits| - 1]) + (last as int - '0' as int)
  }

  predicate IsOctet(text: string) {
    && 0 < |text| <= 3
    && (forall c | c in text :: IsDigit(c))
    && (|text| > 1 ==> text[0] != '0')
    && Decimal(text) <= 255
  }

  /** Text that parses as an address and could also be made of DNS labels. (An IPv6
      address contains a colon, which no label admits.) */
  predicate IsAddress(labels: seq<string>) {
    |labels| == 4 && forall l | l in labels :: IsOctet(l)
  }

  predicate IsName(value: string) {
    var labels := Labels(value);
    && 0 < |value| <= 253
    && |labels| > 1
    && !IsAddress(labels)
    && forall l | l in labels :: IsLabel(l)
  }

  function LowerChar(c: char): char {
    if 'A' <= c <= 'Z' then (c as int + 32) as char else c
  }

  function Lower(s: string): (r: string)
    ensures |r| == |s|
  {
    if s == "" then "" else [LowerChar(s[0])] + Lower(s[1..])
  }

  function StripDot(value: string): string {
    if value != "" && value[|value| - 1] == '.' then value[..|value| - 1] else value
  }

  function Parse(value: string): Result<Domain, ConfigError> {
    var stripped := StripDot(value);
    if IsName(stripped) then Ok(Domain(Lower(stripped))) else Err(InvalidDomain)
  }

  predicate IsWildcard(text: string) { |text| >= 2 && text[..2] == "*." }

  function ParseDns01(value: string): Result<Domain, ConfigError> {
    if IsWildcard(value) then
      match Parse(value[2..])
      case Ok(base) => if |base.text| > 251 then Err(InvalidDomain) else Ok(Domain("*." + base.text))
      case Err(e) => Err(e)
    else Parse(value)
  }

  function DnsBase(d: Domain): string {
    if IsWildcard(d.text) then d.text[2..] else d.text
  }

  // ---------------------------------------------------------------- idempotence

  function LowerEach(labels: seq<string>): (r: seq<string>)
    ensures |r| == |labels|
  {
    if labels == [] then [] else [Lower(labels[0])] + LowerEach(labels[1..])
  }

  lemma {:induction false} LowerAt(s: string, i: nat)
    requires i < |s|
    ensures Lower(s)[i] == LowerChar(s[i])
  {
    if i > 0 { LowerAt(s[1..], i - 1); }
  }

  lemma {:induction false} LowerEachAt(labels: seq<string>, i: nat)
    requires i < |labels|
    ensures LowerEach(labels)[i] == Lower(labels[i])
  {
    if i > 0 { LowerEachAt(labels[1..], i - 1); }
  }

  lemma {:induction false} LabelsLower(s: string)
    ensures Labels(Lower(s)) == LowerEach(Labels(s))
  {
    if s != "" {
      LabelsLower(s[1..]);
      assert Lower(s)[1..] == Lower(s[1..]);
      if s[0] != '.' {
        var rest := Labels(s[1..]);
        assert Labels(s)[1..] == rest[1..];
        assert ([s[0]] + rest[0])[1..] == rest[0];
      }
    }
  }

  lemma {:induction false} LowerTwice(s: string)
    ensures Lower(Lower(s)) == Lower(s)
  {
    if s != "" { LowerTwice(s[1..]); }
  }

  lemma {:induction false} LowerLabel(part: string)
    requires IsLabel(part)
    ensures IsLabel(Lower(part))
    ensures IsOctet(Lower(part)) ==> Lower(part) == part
  {
    LowerAt(part, 0);
    LowerAt(part, |part| - 1);
    forall c | c in Lower(part) ensures IsAlphanumeric(c) || c == '-' {
      var i :| 0 <= i < |part| && Lower(part)[i] == c;
      LowerAt(part, i);
    }
    if IsOctet(Lower(part)) {
      forall i | 0 <= i < |part| ensures Lower(part)[i] == part[i] {
        LowerAt(part, i);
        assert Lower(part)[i] in Lower(part);
      }
    }
  }

  lemma {:induction false} LowerName(value: string)
    requires IsName(value)
    ensures IsName(Lower(value))
  {
    LabelsLower(value);
    var labels, lowered := Labels(value), Labels(Lower(value));
    forall l | l in lowered ensures IsLabel(l) {
      var i :| 0 <= i < |lowered| && lowered[i] == l;
      LowerEachAt(labels, i);
      LowerLabel(labels[i]);
    }
    if IsAddress(lowered) {
      forall l | l in labels ensures IsOctet(l) {
        var i :| 0 <= i < |labels| && labels[i] == l;
        LowerEachAt(labels, i);
        LowerLabel(l);
        assert lowered[i] in lowered;
      }
    }
  }

  lemma {:induction false} LastLabelEmpty(s: string)
    requires s != "" && s[|s| - 1] == '.'
    ensures "" in Labels(s)
  {
    assert s == s[..|s| - 1] + ['.'] + "";
    SplitConcat(s[..|s| - 1], "", '.');
    assert Labels(s)[|Labels(s)| - 1] == "";
  }

  lemma {:induction false} FirstLabelStarts(s: string)
    requires IsName(s)
    ensures IsAlphanumeric(s[0])
  {
    assert Labels(s)[0] in Labels(s);
    if s[0] != '.' {
      assert Labels(s)[0][0] == s[0];
    }
  }

  /** A canonical name parses to itself. */
  lemma {:induction false} NameIsCanonical(value: string)
    requires IsName(value)
    ensures Parse(Lower(value)) == Ok(Domain(Lower(value))) && !IsWildcard(Lower(value))
  {
    LowerName(value);
    if Lower(value)[|value| - 1] == '.' {
      LastLabelEmpty(Lower(value));
      assert false;
    }
    LowerTwice(value);
    FirstLabelStarts(Lower(value));
  }

  /** Parsing is idempotent on its own output, with and without wildcards. */
  lemma {:induction false} ParseIdempotent(value: string)
    ensures Parse(value).Ok? ==>
              Parse(Parse(value).value.text) == Parse(value) && ParseDns01(Parse(value).value.text) == Parse(value)
    ensures ParseDns01(value).Ok? ==> ParseDns01(ParseDns01(value).value.text) == ParseDns01(value)
  {
    if Parse(value).Ok? {
      NameIsCanonical(StripDot(value));
    }
    if IsWildcard(value) && Parse(value[2..]).Ok? {
      NameIsCanonical(StripDot(value[2..]));
      var base := Parse(value[2..]).value.text;
      assert ("*." + base)[2..] == base && IsWildcard("*." + base);
    }
  }

  /** Removing the wildcard leaves a name that parses to itself. */
  lemma {:induction false} BaseIsCanonical(value: string)
    requires ParseDns01(value).Ok?
    ensures var d := ParseDns01(value).value;
            && Parse(DnsBase(d)) == Ok(Domain(DnsBase(d)))
            && DnsBase(Domain(DnsBase(d))) == DnsBase(d)
  {
    if IsWildcard(value) {
      NameIsCanonical(StripDot(value[2..]));
      var base := Parse(value[2..]).value.text;
      assert ("*." + base)[2..] == base && IsWildcard("*." + base);
    } else {
      NameIsCanonical(StripDot(value));
    }
  }

  // ---------------------------------------------------------------- scopes

  datatype DnsScope = DnsScope(zones: set<Domain>) {

    predicate Permits(d: Domain) {
      exists zone | zone in zones :: InZone(zone.text, DnsBase(d))
    }
  }

  ghost predicate IsSuffix(tail: seq<string>, whole: seq<string>) {
    |tail| <= |whole| && whole[|whole| - |tail|..] == tail
  }

  predicate InZone(zone: string, base: string) {
    || base == zone
    || (&& |zone| < |base|
        && base[|base| - |zone|..] == zone
        && base[|base| - |zone| - 1] == '.')
  }

  lemma {:induction false} InZoneEndsWithLabels(zone: string, base: string)
    requires InZone(zone, base)
    ensures IsSuffix(Labels(zone), Labels(base))
  {
    if base != zone {
      var front := base[..|base| - |zone| - 1];
      assert base == front + ['.'] + zone;
      SplitConcat(front, zone, '.');
    }
  }

  lemma {:induction false} LabelSuffixIsInZone(zone: string, base: string)
    requires IsSuffix(Labels(zone), Labels(base))
    ensures InZone(zone, base)
  {
    var n := |Labels(base)| - |Labels(zone)|;
    var front := Labels(base)[..n];
    assert Labels(base) == front + Labels(zone);
    JoinSplit(base, '.');
    JoinSplit(zone, '.');
    if n > 0 {
      JoinConcat(front, Labels(zone), '.');
      assert base == Join(front, '.') + "." + zone;
    }
  }

  /** A scope permits exactly the names whose labels end with a zone's labels. */
  lemma {:induction false} PermitsIsLabelSuffix(scope: DnsScope, d: Domain)
    ensures scope.Permits(d) <==>
              exists zone | zone in scope.zones :: IsSuffix(Labels(zone.text), Labels(DnsBase(d)))
  {
    if zone :| zone in scope.zones && InZone(zone.text, DnsBase(d)) {
      InZoneEndsWithLabels(zone.text, DnsBase(d));
    }
    if zone :| zone in scope.zones && IsSuffix(Labels(zone.text), Labels(DnsBase(d))) {
      LabelSuffixIsInZone(zone.text, DnsBase(d));
    }
  }

  // ---------------------------------------------------------------- records

  const OWNER_PREFIX := "_acme-challenge."

  datatype DnsError = DnsError

  datatype DnsRecord = DnsRecord(name: string, value: string)

  predicate IsChallengeValue(value: string) {
    |value| == 43 && forall c | c in value :: IsAlphanumeric(c) || c == '-' || c == '_'
  }

  function NewRecord(d: Domain, value: string): Result<DnsRecord, DnsError> {
    if |DnsBase(d)| + |OWNER_PREFIX| > 253 || !IsChallengeValue(value) then Err(DnsError)
    else Ok(DnsRecord(OWNER_PREFIX + DnsBase(d), value))
  }

  function RecordDomain(r: DnsRecord): Result<Domain, DnsError> {
    if |r.name| < |OWNER_PREFIX| || r.name[..|OWNER_PREFIX|] != OWNER_PREFIX then Err(DnsError)
    else
      match Parse(r.name[|OWNER_PREFIX|..])
      case Ok(d) => Ok(d)
      case Err(_) => Err(DnsError)
  }

  predicate ValidFor(r: DnsRecord, scope: DnsScope) {
    match RecordDomain(r)
    case Ok(d) => scope.Permits(d) && NewRecord(d, r.value).Ok?
    case Err(_) => false
  }

  /** A record built for a domain parses back to that domain's base, and is valid
      for a scope exactly when the scope permits the domain. */
  lemma {:induction false} RecordRoundTrip(value: string, d: Domain, challenge: string, scope: DnsScope)
    requires ParseDns01(value) == Ok(d)
    requires NewRecord(d, challenge).Ok?
    ensures RecordDomain(NewRecord(d, challenge).value) == Ok(Domain(DnsBase(d)))
    ensures ValidFor(NewRecord(d, challenge).value, scope) <==> scope.Permits(d)
  {
    BaseIsCanonical(value);
    var r := NewRecord(d, challenge).value;
    assert r.name[..|OWNER_PREFIX|] == OWNER_PREFIX;
    assert r.name[|OWNER_PREFIX|..] == DnsBase(d);
  }
}
