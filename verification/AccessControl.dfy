/** Allow and deny rules: built, reversed and stably sorted once, then consulted by
    taking the first match. */
module AccessControl {
  import opened Wrappers
  import opened IpAddresses

  /** A configured entry, its address text already parsed. */
  datatype Spec = Everything | Net(net: Network) | Malformed

  datatype AccessRule = AccessRule(spec: Spec, trusted: bool, allow: bool)

  /** `net` is `None` for the catch-all. */
  datatype Rule = Rule(net: Option<Network>, allow: bool, trusted: bool)

  datatype Decision = Allow | Deny

  function PrefixLength(r: Rule): nat {
    if r.net.None? then 0 else r.net.value.prefix
  }

  predicate Matches(r: Rule, ip: IpAddr) {
    r.net.None? || Contains(r.net.value, ip)
  }

  /** The sort key's order: longer prefix first, then deny before allow. */
  predicate KeyLeq(a: Rule, b: Rule) {
    PrefixLength(a) > PrefixLength(b) || (PrefixLength(a) == PrefixLength(b) && (!a.allow || b.allow))
  }

  predicate SameKey(a: Rule, b: Rule) {
    PrefixLength(a) == PrefixLength(b) && a.allow == b.allow
  }

  // ---------------------------------------------------------------- stable sort

  function Insert(r: Rule, rest: seq<Rule>): seq<Rule> {
    if rest == [] || KeyLeq(r, rest[0]) then [r] + rest else [rest[0]] + Insert(r, rest[1..])
  }

  function StableSort(rules: seq<Rule>): seq<Rule> {
    if rules == [] then [] else Insert(rules[0], StableSort(rules[1..]))
  }

  function Reversed(rules: seq<Rule>): seq<Rule> {
    if rules == [] then [] else [rules[|rules| - 1]] + Reversed(rules[..|rules| - 1])
  }

  ghost predicate Sorted(rules: seq<Rule>) {
    forall i, j | 0 <= i <= j < |rules| :: KeyLeq(rules[i], rules[j])
  }

  /** The rules with the same sort key as `like`, in order. */
  ghost function Alike(rules: seq<Rule>, like: Rule): seq<Rule> {
    if rules == [] then []
    else (if SameKey(rules[0], like) then [rules[0]] else []) + Alike(rules[1..], like)
  }

  lemma {:induction false} InsertHas(r: Rule, rest: seq<Rule>)
    ensures multiset(Insert(r, rest)) == multiset(rest) + multiset{r}
    ensures forall x :: x in Insert(r, rest) <==> x == r || x in rest
  {
    if rest != [] && !KeyLeq(r, rest[0]) {
      InsertHas(r, rest[1..]);
      assert rest == [rest[0]] + rest[1..];
    }
  }

  lemma {:induction false} SortedCons(r: Rule, rest: seq<Rule>)
    requires Sorted(rest) && forall x | x in rest :: KeyLeq(r, x)
    ensures Sorted([r] + rest)
  {
  }

  lemma {:induction false} InsertSorts(r: Rule, rest: seq<Rule>)
    requires Sorted(rest)
    ensures Sorted(Insert(r, rest))
  {
    if rest == [] || KeyLeq(r, rest[0]) {
      SortedCons(r, rest);
    } else {
      InsertSorts(r, rest[1..]);
      InsertHas(r, rest[1..]);
      SortedCons(rest[0], Insert(r, rest[1..]));
    }
  }

  lemma {:induction false} InsertIsStable(r: Rule, rest: seq<Rule>, like: Rule)
    requires Sorted(rest)
    ensures Alike(Insert(r, rest), like) == Alike([r] + rest, like)
  {
    assert ([r] + rest)[1..] == rest;
    if rest != [] && !KeyLeq(r, rest[0]) {
      InsertIsStable(r, rest[1..], like);
      assert ([r] + rest[1..])[1..] == rest[1..];
      assert !SameKey(r, rest[0]);
    }
  }

  /** The three facts that determine a stable sort: sorted, a permutation, and equal
      keys in their original order. */
  lemma {:induction false} StableSortSpec(rules: seq<Rule>, like: Rule)
    ensures Sorted(StableSort(rules)) && multiset(StableSort(rules)) == multiset(rules)
    ensures Alike(StableSort(rules), like) == Alike(rules, like)
  {
    if rules != [] {
      var rest := StableSort(rules[1..]);
      StableSortSpec(rules[1..], like);
      InsertSorts(rules[0], rest);
      InsertHas(rules[0], rest);
      InsertIsStable(rules[0], rest, like);
      assert ([rules[0]] + rest)[1..] == rest;
      assert rules == [rules[0]] + rules[1..];
    }
  }

  // ---------------------------------------------------------------- first match

  function FirstMatch(rules: seq<Rule>, ip: IpAddr): Option<Rule> {
    if rules == [] then None
    else if Matches(rules[0], ip) then Some(rules[0])
    else FirstMatch(rules[1..], ip)
  }

  lemma {:induction false} FirstMatchIsMember(rules: seq<Rule>, ip: IpAddr)
    ensures var m := FirstMatch(rules, ip);
            && (m.Some? ==> m.value in rules && Matches(m.value, ip))
            && (m.None? ==> forall r | r in rules :: !Matches(r, ip))
  {
    if rules != [] { FirstMatchIsMember(rules[1..], ip); }
  }

  /** Inserting a rule makes it the first match exactly when it matches and no earlier
      match has a smaller key. */
  lemma {:induction false} FirstMatchOfInsert(r: Rule, rest: seq<Rule>, ip: IpAddr)
    requires Sorted(rest)
    ensures var m := FirstMatch(rest, ip);
            FirstMatch(Insert(r, rest), ip) ==
              if Matches(r, ip) && (m.None? || KeyLeq(r, m.value)) then Some(r) else m
  {
    FirstMatchIsMember(rest, ip);
    if rest == [] || KeyLeq(r, rest[0]) {
      assert ([r] + rest)[1..] == rest;
    } else {
      FirstMatchOfInsert(r, rest[1..], ip);
      assert Insert(r, rest)[1..] == Insert(r, rest[1..]);
    }
  }

  /** Position of the winning rule, scanning the configured order. */
  ghost function Champion(rules: seq<Rule>, ip: IpAddr): (i: Option<nat>)
    ensures i.Some? ==> i.value < |rules|
  {
    if rules == [] then None
    else
      var n := |rules| - 1;
      var best := Champion(rules[..n], ip);
      if Matches(rules[n], ip) && (best.None? || KeyLeq(rules[n], rules[best.value])) then Some(n) else best
  }

  /** Rule `i` wins over rule `j`: longer prefix, then deny, then written later. */
  predicate Beats(rules: seq<Rule>, i: nat, j: nat)
    requires i < |rules| && j < |rules|
  {
    || PrefixLength(rules[i]) > PrefixLength(rules[j])
    || (PrefixLength(rules[i]) == PrefixLength(rules[j])
        && ((!rules[i].allow && rules[j].allow) || (rules[i].allow == rules[j].allow && i >= j)))
  }

  ghost predicate IsWinner(rules: seq<Rule>, ip: IpAddr, i: nat) {
    && i < |rules| && Matches(rules[i], ip)
    && forall j | 0 <= j < |rules| && Matches(rules[j], ip) :: Beats(rules, i, j)
  }

  lemma {:induction false} ChampionWins(rules: seq<Rule>, ip: IpAddr)
    ensures Champion(rules, ip).Some? ==> IsWinner(rules, ip, Champion(rules, ip).value)
    ensures Champion(rules, ip).None? ==> forall r | r in rules :: !Matches(r, ip)
  {
    if rules != [] {
      var n := |rules| - 1;
      ChampionWins(rules[..n], ip);
      var best := Champion(rules[..n], ip);
      if best.Some? {
        forall j | 0 <= j < n && Matches(rules[j], ip) ensures Beats(rules, best.value, j) {
          assert Matches(rules[..n][j], ip);
        }
      } else {
        forall j | 0 <= j < n ensures !Matches(rules[j], ip) {
          assert rules[..n][j] in rules[..n];
        }
      }
    }
  }

  lemma {:induction false} FirstMatchIsChampion(rules: seq<Rule>, ip: IpAddr)
    ensures FirstMatch(StableSort(Reversed(rules)), ip) ==
              if Champion(rules, ip).None? then None else Some(rules[Champion(rules, ip).value])
  {
    if rules != [] {
      var n := |rules| - 1;
      var rest := Reversed(rules[..n]);
      FirstMatchIsChampion(rules[..n], ip);
      StableSortSpec(rest, rules[n]);
      assert Reversed(rules)[1..] == rest;
      FirstMatchOfInsert(rules[n], StableSort(rest), ip);
    }
  }

  /** For every rule list and address, the first match after reversing and sorting is
      the matching rule with the longest prefix, then deny, then written last. */
  lemma {:induction false} FirstMatchIsWinner(rules: seq<Rule>, ip: IpAddr, i: nat)
    requires IsWinner(rules, ip, i)
    ensures FirstMatch(StableSort(Reversed(rules)), ip) == Some(rules[i])
  {
    FirstMatchIsChampion(rules, ip);
    ChampionWins(rules, ip);
    assert rules[i] in rules;
    var c := Champion(rules, ip).value;
    assert Beats(rules, c, i) && Beats(rules, i, c);
  }

  /** Some rule wins whenever one matches. */
  lemma {:induction false} SomeRuleWins(rules: seq<Rule>, ip: IpAddr) returns (i: nat)
    requires exists r | r in rules :: Matches(r, ip)
    ensures IsWinner(rules, ip, i)
  {
    ChampionWins(rules, ip);
    i := Champion(rules, ip).value;
  }

  /** An address that reaches the check and lies outside the family of `net`. */
  function OtherFamily(net: Network): (ip: IpAddr)
    ensures Canonical(ip) == ip && !Contains(net, ip)
  {
    if net.addr.V4? then V6(seq(16, _ => 0)) else V4([0, 0, 0, 0])
  }

  /** The catch-all is the one exception: it shares its prefix length with 0.0.0.0/0 and
      ::/0 without naming either. */
  predicate NotCatchAllUnderNetwork(x: Rule, y: Rule) { y.net.Some? || x.net.None? }

  /** Two rules of one prefix length that match one address: wherever `y` matches `x` does,
      at all addresses or at those that reach the check, if and only if `y` is not the
      catch-all or `x` is. */
  lemma {:induction false} CoversExactly(x: Rule, y: Rule, shared: IpAddr)
    requires PrefixLength(x) == PrefixLength(y) && Matches(x, shared) && Matches(y, shared)
    ensures (forall ip | Matches(y, ip) :: Matches(x, ip)) <==> NotCatchAllUnderNetwork(x, y)
    ensures (forall ip | Matches(y, ip) && Canonical(ip) == ip :: Matches(x, ip)) <==> NotCatchAllUnderNetwork(x, y)
  {
    if y.net.Some? && x.net.Some? {
      forall ip ensures Matches(y, ip) ==> Matches(x, ip) {
        SharedAddressSameNetwork(x.net.value, y.net.value, shared, ip);
      }
    }
    if y.net.None? && x.net.Some? {
      assert !Matches(x, OtherFamily(x.net.value));
    }
  }

  /** A rule that another one of its prefix length beats at one address is beaten at every
      address, so it is overwritten: both name one network. */
  lemma {:induction false} OverwrittenRuleNeverWins(rules: seq<Rule>, i: nat, j: nat, shared: IpAddr, ip: IpAddr)
    requires i < |rules| && j < |rules| && i != j && PrefixLength(rules[i]) == PrefixLength(rules[j])
             && Beats(rules, i, j)
    requires Matches(rules[i], shared) && Matches(rules[j], shared)
    requires NotCatchAllUnderNetwork(rules[i], rules[j])
    ensures !IsWinner(rules, ip, j)
  {
    CoversExactly(rules[i], rules[j], shared);
    assert !Beats(rules, j, i);
  }

  /** Where no third rule interferes that condition is exact. */
  lemma {:induction false} OverwrittenExactly(rules: seq<Rule>, i: nat, j: nat, shared: IpAddr)
    requires |rules| == 2 && i < 2 && j < 2 && i != j && PrefixLength(rules[i]) == PrefixLength(rules[j])
             && Beats(rules, i, j)
    requires Matches(rules[i], shared) && Matches(rules[j], shared)
    ensures (forall ip :: !IsWinner(rules, ip, j)) <==> NotCatchAllUnderNetwork(rules[i], rules[j])
  {
    if NotCatchAllUnderNetwork(rules[i], rules[j]) {
      forall ip ensures !IsWinner(rules, ip, j) { OverwrittenRuleNeverWins(rules, i, j, shared, ip); }
    } else {
      CatchAllIsNotOverwritten(rules, i, j, OtherFamily(rules[i].net.value));
      assert IsWinner(rules, OtherFamily(rules[i].net.value), j);
    }
  }

  /** A catch-all beaten by a network of length zero, of either family, still decides at
      exactly the addresses of the other family. */
  lemma {:induction false} CatchAllIsNotOverwritten(rules: seq<Rule>, i: nat, j: nat, ip: IpAddr)
    requires |rules| == 2 && i < 2 && j < 2 && i != j && Beats(rules, i, j)
    requires rules[i].net.Some? && PrefixLength(rules[i]) == 0 && rules[j].net.None?
    ensures IsWinner(rules, ip, j) <==> rules[i].net.value.addr.V4? != ip.V4?
  {
    assert Contains(rules[i].net.value, ip) <==> rules[i].net.value.addr.V4? == ip.V4?;
    assert !Beats(rules, j, i) && Beats(rules, j, j);
  }

  // ---------------------------------------------------------------- verdicts

  datatype AccessControl = AccessControl(rules: seq<Rule>, allTrusted: bool)

  function Converted(a: AccessRule): Rule
    requires !a.spec.Malformed?
  {
    Rule(if a.spec.Net? then Some(a.spec.net) else None, a.allow, a.trusted && a.allow)
  }

  ghost predicate BuiltFrom(acl: AccessControl, rules: seq<Rule>) {
    && acl.rules == StableSort(Reversed(rules))
    && (acl.allTrusted <==> (exists r | r in rules :: r.net.None?) && forall r | r in rules :: r.trusted)
    && forall r | r in rules :: r.trusted ==> r.allow
  }

  function Verdict(rules: seq<Rule>, ip: IpAddr): Decision {
    var m := FirstMatch(rules, Canonical(ip));
    if m.Some? && !m.value.allow then Deny else Allow
  }

  function Trusted(rules: seq<Rule>, ip: IpAddr): bool {
    var m := FirstMatch(rules, Canonical(ip));
    m.Some? && m.value.trusted
  }

  /** A matching deny rule that no matching rule is more specific than. */
  ghost predicate Denied(rules: seq<Rule>, ip: IpAddr) {
    exists d | d in rules ::
      && !d.allow && Matches(d, Canonical(ip))
      && forall r | r in rules && Matches(r, Canonical(ip)) :: PrefixLength(r) <= PrefixLength(d)
  }

  lemma {:induction false} VerdictIsDenied(rules: seq<Rule>, ip: IpAddr)
    ensures Verdict(StableSort(Reversed(rules)), ip) == Deny <==> Denied(rules, ip)
  {
    var key := Canonical(ip);
    FirstMatchIsChampion(rules, key);
    ChampionWins(rules, key);
    if Champion(rules, key).Some? {
      var c := Champion(rules, key).value;
      assert rules[c] in rules;
      forall r | r in rules && Matches(r, key) ensures PrefixLength(r) <= PrefixLength(rules[c]) {
        var j :| 0 <= j < |rules| && rules[j] == r;
        assert Beats(rules, c, j);
      }
      if d :| d in rules && !d.allow && Matches(d, key)
              && forall r | r in rules && Matches(r, key) :: PrefixLength(r) <= PrefixLength(d) {
        var j :| 0 <= j < |rules| && rules[j] == d;
        assert Beats(rules, c, j);
      }
    }
  }

  /** The verdict does not depend on the order in which rules are written. */
  lemma {:induction false} VerdictIgnoresOrder(a: seq<Rule>, b: seq<Rule>, ip: IpAddr)
    requires multiset(a) == multiset(b)
    ensures Verdict(StableSort(Reversed(a)), ip) == Verdict(StableSort(Reversed(b)), ip)
  {
    VerdictIsDenied(a, ip);
    VerdictIsDenied(b, ip);
    forall r ensures r in a <==> r in b {
      assert r in a <==> r in multiset(a);
      assert r in b <==> r in multiset(b);
    }
  }

  /** Wherever it is written, adding a deny never lets an address in and adding an
      allow never shuts one out. */
  lemma {:induction false} AddingARule(rules: seq<Rule>, extra: Rule, at: nat, ip: IpAddr)
    requires at <= |rules|
    ensures var longer := rules[..at] + [extra] + rules[at..];
            var before, after := Verdict(StableSort(Reversed(rules)), ip), Verdict(StableSort(Reversed(longer)), ip);
            && (!extra.allow && before == Deny ==> after == Deny)
            && (extra.allow && before == Allow ==> after == Allow)
  {
    var longer := rules[..at] + [extra] + rules[at..];
    assert rules == rules[..at] + rules[at..];
    assert forall r :: r in longer <==> r == extra || r in rules;
    VerdictIsDenied(rules, ip);
    VerdictIsDenied(longer, ip);
    DeniedGrows(rules, longer, extra, ip);
  }

  lemma {:induction false} DeniedGrows(rules: seq<Rule>, longer: seq<Rule>, extra: Rule, ip: IpAddr)
    requires forall r :: r in longer <==> r == extra || r in rules
    ensures !extra.allow && Denied(rules, ip) ==> Denied(longer, ip)
    ensures extra.allow && Denied(longer, ip) ==> Denied(rules, ip)
  {
    var key := Canonical(ip);
    if !extra.allow && Denied(rules, ip) {
      var d :| d in rules && !d.allow && Matches(d, key)
               && forall r | r in rules && Matches(r, key) :: PrefixLength(r) <= PrefixLength(d);
      var top := if Matches(extra, key) && PrefixLength(extra) > PrefixLength(d) then extra else d;
      assert top in longer && !top.allow && Matches(top, key);
    }
  }

  /** Only addresses that are let in can be trusted, and the `allTrusted` shortcut
      answers what the scan would. */
  lemma {:induction false} TrustIsSound(acl: AccessControl, rules: seq<Rule>, ip: IpAddr)
    requires BuiltFrom(acl, rules)
    ensures Trusted(acl.rules, ip) ==> Verdict(acl.rules, ip) == Allow
    ensures acl.allTrusted ==> Trusted(acl.rules, ip)
  {
    var key := Canonical(ip);
    FirstMatchIsChampion(rules, key);
    ChampionWins(rules, key);
  }

  // ---------------------------------------------------------------- the code

  method FromSecurity(configured: seq<AccessRule>) returns (r: Result<AccessControl, AccessRule>)
    ensures r.Ok? <==> forall a | a in configured :: !a.spec.Malformed?
    ensures r.Ok? ==> exists rules ::
              && |rules| == |configured|
              && (forall i | 0 <= i < |rules| :: !configured[i].spec.Malformed? && rules[i] == Converted(configured[i]))
              && BuiltFrom(r.value, rules)
    ensures r.Err? ==> r.error in configured && r.error.spec.Malformed?
  {
    var rules: seq<Rule> := [];
    for i := 0 to |configured|
      invariant |rules| == i
      invariant forall k | 0 <= k < i :: !configured[k].spec.Malformed? && rules[k] == Converted(configured[k])
    {
      if configured[i].spec.Malformed? { return Err(configured[i]); }
      rules := rules + [Converted(configured[i])];
    }
    var sorted := StableSort(Reversed(rules));
    var allTrusted := (exists r | r in sorted :: r.net.None?) && forall r | r in sorted :: r.trusted;
    SortedHas(rules);
    r := Ok(AccessControl(sorted, allTrusted));
    assert BuiltFrom(r.value, rules);
  }

  lemma {:induction false} ReversedHas(rules: seq<Rule>)
    ensures forall r :: r in Reversed(rules) <==> r in rules
  {
    if rules != [] {
      ReversedHas(rules[..|rules| - 1]);
      assert rules == rules[..|rules| - 1] + [rules[|rules| - 1]];
    }
  }

  lemma {:induction false} SortedHas(rules: seq<Rule>)
    ensures forall r :: r in StableSort(Reversed(rules)) <==> r in rules
  {
    ReversedHas(rules);
    forall r ensures r in StableSort(Reversed(rules)) <==> r in Reversed(rules) {
      StableSortSpec(Reversed(rules), r);
      assert r in StableSort(Reversed(rules)) <==> r in multiset(StableSort(Reversed(rules)));
      assert r in Reversed(rules) <==> r in multiset(Reversed(rules));
    }
  }

  method CheckPeer(acl: AccessControl, ip: IpAddr) returns (d: Decision)
    ensures d == Verdict(acl.rules, ip)
  {
    var key := Canonical(ip);
    for i := 0 to |acl.rules|
      invariant FirstMatch(acl.rules[i..], key) == FirstMatch(acl.rules, key)
    {
      assert acl.rules[i..][1..] == acl.rules[i + 1..];
      if Matches(acl.rules[i], key) {
        return if acl.rules[i].allow then Allow else Deny;
      }
    }
    d := Allow;
  }

  /** Both the peer and the client it forwards for must be let in. */
  method CheckClient(acl: AccessControl, peer: IpAddr, client: IpAddr) returns (d: Decision)
    ensures d == Allow <==> Verdict(acl.rules, peer) == Allow && Verdict(acl.rules, client) == Allow
  {
    d := CheckPeer(acl, peer);
    if d == Allow && Canonical(client) != Canonical(peer) {
      d := CheckPeer(acl, client);
    }
  }

  method IsTrusted(acl: AccessControl, ghost rules: seq<Rule>, ip: IpAddr) returns (t: bool)
    requires BuiltFrom(acl, rules)
    ensures t == Trusted(acl.rules, ip)
  {
    if acl.allTrusted {
      TrustIsSound(acl, rules, ip);
      return true;
    }
    var key := Canonical(ip);
    for i := 0 to |acl.rules|
      invariant FirstMatch(acl.rules[i..], key) == FirstMatch(acl.rules, key)
    {
      assert acl.rules[i..][1..] == acl.rules[i + 1..];
      if Matches(acl.rules[i], key) {
        return acl.rules[i].trusted;
      }
    }
    t := false;
  }
}
