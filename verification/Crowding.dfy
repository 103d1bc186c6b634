/** Some shard can be filled: among enough addresses, 4096 fall into one. */
module Crowding {
  import opened IpAddresses
  import opened PerIpThrottle

  // ---------------------------------------------------------------- counting images

  lemma {:induction false} ImageSize<A, B>(s: set<A>, image: set<B>, f: A -> B)
    requires image == set x | x in s :: f(x)
    requires forall x, y | x in s && y in s && f(x) == f(y) :: x == y
    ensures |image| == |s|
    decreases s
  {
    if s != {} {
      var x :| x in s;
      var rest := s - {x};
      ImageSize(rest, set y | y in rest :: f(y), f);
      assert image - {f(x)} == set y | y in rest :: f(y);
    }
  }

  // ---------------------------------------------------------------- many addresses

  function Extend(tails: set<seq<bv8>>, d: bv8): set<seq<bv8>> {
    set t | t in tails :: t + [d]
  }

  /** Octet strings of length `n` over four values. */
  function Strings(n: nat): set<seq<bv8>> {
    if n == 0 then {[]} else Wider(Strings(n - 1))
  }

  function Wider(s: set<seq<bv8>>): set<seq<bv8>> {
    Extend(s, 0) + Extend(s, 1) + Extend(s, 2) + Extend(s, 3)
  }

  function Power4(n: nat): nat { if n == 0 then 1 else 4 * Power4(n - 1) }

  lemma {:induction false} ExtendSize(tails: set<seq<bv8>>, d: bv8)
    ensures |Extend(tails, d)| == |tails|
  {
    forall x, y | x in tails && y in tails && x + [d] == y + [d] ensures x == y {
      assert x == (x + [d])[..|x|] && y == (y + [d])[..|y|];
      assert |x + [d]| == |y + [d]|;
    }
    ImageSize(tails, Extend(tails, d), (t: seq<bv8>) => t + [d]);
  }

  lemma {:induction false} ExtendApart(tails: set<seq<bv8>>, d: bv8, e: bv8)
    requires d != e
    ensures Extend(tails, d) !! Extend(tails, e)
  {
    forall x | x in Extend(tails, d) ensures x !in Extend(tails, e) {
      assert x[|x| - 1] == d;
    }
  }

  lemma {:induction false} FourDisjoint<T>(a: set<T>, b: set<T>, c: set<T>, d: set<T>)
    requires a !! b && (a + b) !! c && (a + b + c) !! d
    ensures |a + b + c + d| == |a| + |b| + |c| + |d|
  {
  }

  lemma {:induction false} WiderSize(s: set<seq<bv8>>)
    ensures |Wider(s)| == 4 * |s|
  {
    ExtendSize(s, 0);
    ExtendSize(s, 1);
    ExtendSize(s, 2);
    ExtendSize(s, 3);
    ExtendApart(s, 0, 1);
    ExtendApart(s, 0, 2);
    ExtendApart(s, 1, 2);
    ExtendApart(s, 0, 3);
    ExtendApart(s, 1, 3);
    ExtendApart(s, 2, 3);
    FourDisjoint(Extend(s, 0), Extend(s, 1), Extend(s, 2), Extend(s, 3));
  }

  lemma {:induction false} StringsSize(n: nat)
    ensures |Strings(n)| == Power4(n)
  {
    if n == 0 {
      var one: set<seq<bv8>> := {[]};
      assert |one| == 1;
    } else {
      StringsSize(n - 1);
      StringsGrow(n, Strings(n - 1), Strings(n));
    }
  }

  lemma {:induction false} StringsGrow(n: nat, s: set<seq<bv8>>, wider: set<seq<bv8>>)
    requires n > 0 && |s| == Power4(n - 1) && wider == Wider(s)
    ensures |wider| == Power4(n)
  {
    WiderSize(s);
  }

  lemma {:induction false} StringLength(n: nat, t: seq<bv8>)
    requires t in Strings(n)
    ensures |t| == n
  {
    if n > 0 {
      StringLength(n - 1, t[..|t| - 1]);
    }
  }

  /** An IPv6 address that is not IPv4-mapped. */
  function Address(t: seq<bv8>): IpAddr {
    if |t| == 9 then V6([1] + t + [0, 0, 0, 0, 0, 0]) else V4([0, 0, 0, 0])
  }

  lemma {:induction false} AddressIsCanonical(t: seq<bv8>)
    requires |t| == 9
    ensures Canonical(Address(t)) == Address(t)
  {
    assert Address(t).v6[0] == 1;
  }

  lemma {:induction false} AddressIsInjective(x: seq<bv8>, y: seq<bv8>)
    requires |x| == |y| == 9 && Address(x) == Address(y)
    ensures x == y
  {
    assert x == Address(x).v6[1..10] && y == Address(y).v6[1..10];
  }

  function Addresses(tails: set<seq<bv8>>): set<IpAddr> { set t | t in tails :: Address(t) }

  lemma {:induction false} AddressesSize(tails: set<seq<bv8>>)
    requires forall t | t in tails :: |t| == 9
    ensures |Addresses(tails)| == |tails|
  {
    forall x, y | x in tails && y in tails && Address(x) == Address(y) ensures x == y {
      AddressIsInjective(x, y);
    }
    ImageSize(tails, Addresses(tails), Address);
  }

  lemma {:induction false} AddressesAreCanonical(tails: set<seq<bv8>>, a: IpAddr)
    requires a in Addresses(tails) && forall t | t in tails :: |t| == 9
    ensures Canonical(a) == a
  {
    var t :| t in tails && Address(t) == a;
    AddressIsCanonical(t);
  }

  lemma {:induction false} ManyAddresses() returns (things: set<IpAddr>)
    ensures |things| == 262144 && forall a | a in things :: Canonical(a) == a
  {
    var n := 9;
    var tails := Strings(n);
    StringsSize(n);
    Power4Of9();
    forall t | t in tails ensures |t| == 9 { StringLength(n, t); }
    AddressesSize(tails);
    things := Addresses(tails);
    forall a | a in things ensures Canonical(a) == a { AddressesAreCanonical(tails, a); }
  }

  lemma {:induction false} Power4Of9()
    ensures Power4(9) == 262144
  {
    assert Power4(3) == 64;
    assert Power4(6) == 64 * Power4(3);
    assert Power4(9) == 64 * Power4(6);
  }

  // ---------------------------------------------------------------- the pigeonhole

  /** If more than `m * k` things fall into `k` classes, some class holds more than `m`. */
  lemma {:induction false} Pigeonhole(things: set<IpAddr>, index: IpAddr -> nat, k: nat, m: nat)
      returns (j: nat, members: set<IpAddr>)
    requires forall a | a in things :: index(a) < k
    requires k > 0 && |things| > m * k
    ensures members <= things && |members| > m && forall a | a in members :: index(a) == j
    decreases k
  {
    j := k - 1;
    members := set a | a in things && index(a) == j;
    assert k == 1 ==> members == things;
    if |members| <= m {
      var rest := things - members;
      assert things == rest + members;
      assert m * k == m * (k - 1) + m;
      j, members := Pigeonhole(rest, index, k - 1, m);
    }
  }

  ghost predicate Distinct<T(!new)>(s: seq<T>) {
    forall i, j | 0 <= i < j < |s| :: s[i] != s[j]
  }

  /** `n` members of a set, in some order. */
  lemma {:induction false} Listed(members: set<IpAddr>, n: nat) returns (list: seq<IpAddr>)
    requires n <= |members|
    ensures |list| == n && Distinct(list) && forall i | 0 <= i < n :: list[i] in members
  {
    list := [];
    if n > 0 {
      var a :| a in members;
      var rest := Listed(members - {a}, n - 1);
      list := [a] + rest;
    }
  }

  // ---------------------------------------------------------------- a crowd

  /** Enough other addresses to fill the shard of `a` but for one place. */
  ghost predicate IsCrowd(a: IpAddr, crowd: seq<IpAddr>) {
    && |crowd| == MAX_IPS_PER_SHARD - 1 && Distinct(crowd)
    && a !in crowd
    && forall i {:trigger Neighbour(a, crowd[i])} | 0 <= i < |crowd| :: Neighbour(a, crowd[i])
  }

  ghost predicate Neighbour(a: IpAddr, c: IpAddr) {
    Canonical(c) == c && ShardIndex(c) == ShardIndex(a)
  }

  lemma {:induction false} SomeAddressIsCrowded() returns (a: IpAddr, crowd: seq<IpAddr>)
    ensures Canonical(a) == a && IsCrowd(a, crowd)
  {
    var things := ManyAddresses();
    var j, members := Pigeonhole(things, ShardIndex, SHARDS, MAX_IPS_PER_SHARD - 1);
    a :| a in members;
    crowd := Listed(members - {a}, MAX_IPS_PER_SHARD - 1);
  }
}
