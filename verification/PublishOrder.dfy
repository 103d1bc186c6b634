/** Which objects of a site snapshot are immutable, and the order in which they are
    published. */
module PublishOrder {
  import opened Texts

  type Name = string

  const STABLE: Name := "releases/stable.json"
  const STABLE_SIGNATURE: Name := "releases/stable.json.asc"
  const IN_RELEASE: Name := "apt/dists/stable/InRelease"
  const INDEX: string := "/repodata/repomd.xml"
  const INSTALLER: Name := "apt/install.sh"
  const LOCK_KEY: Name := "_httpjet/publication.lock"

  predicate EndsWith(s: string, suffix: string) {
    |suffix| <= |s| && s[|s| - |suffix|..] == suffix
  }

  predicate Contains(s: string, part: string) {
    StartsWith(s, part) || (s != "" && Contains(s[1..], part))
  }

  predicate Immutable(name: Name) {
    || (StartsWith(name, "releases/") && !StartsWith(name, "releases/stable.json"))
    || StartsWith(name, "apt/pool/")
    || Contains(name, "/by-hash/")
    || Contains(name, "/Packages/")
    || (Contains(name, "/repodata/") && !EndsWith(name, "repomd.xml") && !EndsWith(name, "repomd.xml.asc"))
  }

  function Rank(name: Name): nat {
    if name == STABLE then 5
    else if name == STABLE_SIGNATURE then 4
    else if name == IN_RELEASE then 3
    else if EndsWith(name, INDEX) then 2
    else if Immutable(name) then 0 else 1
  }

  // ---------------------------------------------------------------- comparing names

  /** Python's ordering of strings. */
  predicate NameLeq(a: Name, b: Name) {
    a == "" || (b != "" && (a[0] < b[0] || (a[0] == b[0] && NameLeq(a[1..], b[1..]))))
  }

  lemma {:induction false} NameTotal(a: Name, b: Name)
    ensures NameLeq(a, b) || NameLeq(b, a)
  {
    if a != "" && b != "" { NameTotal(a[1..], b[1..]); }
  }

  lemma {:induction false} NameTransitive(a: Name, b: Name, c: Name)
    requires NameLeq(a, b) && NameLeq(b, c)
    ensures NameLeq(a, c)
  {
    if a != "" && a[0] == b[0] && b[0] == c[0] { NameTransitive(a[1..], b[1..], c[1..]); }
  }

  lemma {:induction false} NameAntisymmetric(a: Name, b: Name)
    requires NameLeq(a, b) && NameLeq(b, a)
    ensures a == b
  {
    if a != "" && b != "" { NameAntisymmetric(a[1..], b[1..]); }
  }

  /** Rank first, then name. */
  predicate Before(a: Name, b: Name) {
    Rank(a) < Rank(b) || (Rank(a) == Rank(b) && NameLeq(a, b))
  }

  lemma {:induction false} BeforeTransitive(a: Name, b: Name, c: Name)
    requires Before(a, b) && Before(b, c)
    ensures Before(a, c)
  {
    if Rank(a) == Rank(b) == Rank(c) { NameTransitive(a, b, c); }
  }

  // ---------------------------------------------------------------- sorting

  ghost predicate Sorted(names: seq<Name>) {
    forall i, j | 0 <= i <= j < |names| :: Before(names[i], names[j])
  }

  function Insert(name: Name, rest: seq<Name>): seq<Name> {
    if rest == [] || Before(name, rest[0]) then [name] + rest
    else [rest[0]] + Insert(name, rest[1..])
  }

  function Order(files: seq<Name>): seq<Name> {
    if files == [] then [] else Insert(files[0], Order(files[1..]))
  }

  lemma {:induction false} InsertKeeps(name: Name, rest: seq<Name>)
    ensures multiset(Insert(name, rest)) == multiset(rest) + multiset{name}
  {
    if rest != [] && !Before(name, rest[0]) {
      InsertKeeps(name, rest[1..]);
      assert rest == [rest[0]] + rest[1..];
    }
  }

  lemma {:induction false} InsertFirst(name: Name, rest: seq<Name>, least: Name)
    requires Before(least, name) && forall r | r in rest :: Before(least, r)
    ensures forall r | r in Insert(name, rest) :: Before(least, r)
  {
    forall r | r in Insert(name, rest) ensures Before(least, r) {
      InsertKeeps(name, rest);
      assert r in multiset(Insert(name, rest));
    }
  }

  lemma {:induction false} SortedCons(name: Name, rest: seq<Name>)
    requires Sorted(rest) && forall r | r in rest :: Before(name, r)
    ensures Sorted([name] + rest)
  {
    NameTotal(name, name);
  }

  lemma {:induction false} InsertSorts(name: Name, rest: seq<Name>)
    requires Sorted(rest)
    ensures Sorted(Insert(name, rest))
  {
    if rest == [] || Before(name, rest[0]) {
      forall r | r in rest ensures Before(name, r) {
        var i :| 0 <= i < |rest| && rest[i] == r;
        BeforeTransitive(name, rest[0], rest[i]);
      }
      SortedCons(name, rest);
    } else {
      NameTotal(name, rest[0]);
      InsertSorts(name, rest[1..]);
      InsertFirst(name, rest[1..], rest[0]);
      SortedCons(rest[0], Insert(name, rest[1..]));
    }
  }

  /** The published order is a sorted permutation of the files. */
  lemma {:induction false} OrderSorts(files: seq<Name>)
    ensures Sorted(Order(files)) && multiset(Order(files)) == multiset(files)
  {
    if files != [] {
      OrderSorts(files[1..]);
      InsertSorts(files[0], Order(files[1..]));
      InsertKeeps(files[0], Order(files[1..]));
      assert files == [files[0]] + files[1..];
    }
  }

  // ---------------------------------------------------------------- what the order means

  ghost predicate NoDuplicates(names: seq<Name>) {
    forall i, j | 0 <= i < j < |names| :: names[i] != names[j]
  }

  lemma {:induction false} MultisetIndex(names: seq<Name>, i: nat, j: nat)
    requires i < j < |names| && names[i] == names[j]
    ensures multiset(names)[names[i]] >= 2
  {
    var front, back := names[..j], names[j..];
    assert names == front + back;
    assert front[i] in multiset(front) && back[0] in multiset(back);
  }

  lemma {:induction false} NoDuplicatesCount(names: seq<Name>, name: Name)
    requires NoDuplicates(names)
    ensures multiset(names)[name] <= 1
  {
    if names != [] {
      assert names == [names[0]] + names[1..];
      NoDuplicatesCount(names[1..], name);
      forall k | 0 <= k < |names| - 1 ensures names[1..][k] != names[0] {
        assert names[k + 1] != names[0];
      }
      assert names[0] !in names[1..] && names[0] !in multiset(names[1..]);
    }
  }

  lemma {:induction false} OrderKeepsNames(files: seq<Name>)
    requires NoDuplicates(files)
    ensures NoDuplicates(Order(files)) && |Order(files)| == |files|
  {
    var order := Order(files);
    OrderSorts(files);
    assert |multiset(order)| == |order| && |multiset(files)| == |files|;
    forall i, j | 0 <= i < j < |order| ensures order[i] != order[j] {
      if order[i] == order[j] {
        NoDuplicatesCount(files, order[i]);
        MultisetIndex(order, i, j);
      }
    }
  }

  lemma {:induction false} TopRanks(name: Name)
    ensures Rank(name) <= 5
    ensures Rank(name) == 5 <==> name == STABLE
    ensures Rank(name) == 4 <==> name == STABLE_SIGNATURE
    ensures Rank(name) == 3 <==> name == IN_RELEASE
  {
  }

  lemma {:induction false} OrderHas(files: seq<Name>, f: Name)
    ensures f in Order(files) <==> f in files
  {
    OrderSorts(files);
    assert f in Order(files) <==> f in multiset(Order(files));
    assert f in files <==> f in multiset(files);
  }

  ghost predicate SameNames(a: seq<Name>, b: seq<Name>) {
    forall f :: f in a <==> f in b
  }

  lemma {:induction false} OrderHasAll(files: seq<Name>)
    ensures SameNames(Order(files), files)
  {
    forall f ensures f in Order(files) <==> f in files {
      OrderHas(files, f);
    }
  }

  lemma {:induction false} RankIsLast(files: seq<Name>, order: seq<Name>, name: Name)
    requires Sorted(order) && SameNames(order, files)
    requires name in files && forall f | f in files && f != name :: Rank(f) < Rank(name)
    ensures order != [] && order[|order| - 1] == name
  {
    assert name in order;
    var k :| 0 <= k < |order| && order[k] == name;
    var last := order[|order| - 1];
    assert last in order && last in files;
    assert Before(order[k], last);
  }

  /** stable.json is published after everything else. */
  lemma {:induction false} StableIsLast(files: seq<Name>)
    requires NoDuplicates(files) && STABLE in files
    ensures |Order(files)| == |files| > 0 && Order(files)[|files| - 1] == STABLE
  {
    forall f | f in files && f != STABLE ensures Rank(f) < Rank(STABLE) {
      TopRanks(f);
    }
    OrderSorts(files);
    OrderKeepsNames(files);
    OrderHasAll(files);
    RankIsLast(files, Order(files), STABLE);
  }

  /** Every file once, stable.json last. */
  ghost predicate Complete(u: seq<Name>, files: seq<Name>) {
    NoDuplicates(u) && SameNames(u, files) && |u| > 0 && u[|u| - 1] == STABLE
  }

  lemma {:induction false} OrderIsComplete(files: seq<Name>)
    requires NoDuplicates(files) && STABLE in files
    ensures Complete(Order(files), files)
  {
    OrderKeepsNames(files);
    StableIsLast(files);
    OrderHasAll(files);
  }

  /** Ranks never go down along the order: a document's signature, the package indexes
      and InRelease come before the stable.json that leads clients to them. */
  lemma {:induction false} PublishedByRank(files: seq<Name>, i: nat, j: nat)
    requires i <= j < |Order(files)|
    ensures Rank(Order(files)[i]) <= Rank(Order(files)[j])
  {
    OrderSorts(files);
    assert Before(Order(files)[i], Order(files)[j]);
  }

  // ---------------------------------------------------------------- what is immutable

  lemma {:induction false} ContainsAt(s: string, part: string) returns (i: nat)
    requires Contains(s, part)
    ensures i <= |s| && StartsWith(s[i..], part)
  {
    if StartsWith(s, part) {
      i := 0;
    } else {
      var k := ContainsAt(s[1..], part);
      i := k + 1;
      assert s[1..][k..] == s[i..];
    }
  }

  lemma {:induction false} StartAndEnd(name: Name, i: nat, part: string)
    requires i <= |name| && StartsWith(name[i..], part) && part != ""
    ensures i + |part| <= |name| && name[i] == part[0] && name[i + |part| - 1] == part[|part| - 1]
  {
    assert name[i..][..|part|] == part;
    assert name[i] == name[i..][0] && name[i + |part| - 1] == name[i..][|part| - 1];
  }

  /** A name of two parts has a single slash. */
  ghost predicate TwoParts(name: Name, front: Name, back: Name) {
    '/' !in front && '/' !in back && name == front + "/" + back
  }

  lemma {:induction false} OneSlash(name: Name, front: Name, back: Name, i: nat)
    requires TwoParts(name, front, back) && i < |name| && i != |front|
    ensures name[i] != '/'
  {
    if i < |front| {
      assert name[i] == front[i] && front[i] in front;
    } else {
      assert name[i] == back[i - |front| - 1] && back[i - |front| - 1] in back;
    }
  }

  /** It contains no segment between two slashes. */
  lemma {:induction false} NoSegment(name: Name, front: Name, back: Name, part: string)
    requires TwoParts(name, front, back)
    requires |part| >= 2 && part[0] == '/' && part[|part| - 1] == '/'
    ensures !Contains(name, part)
  {
    if Contains(name, part) {
      var i := ContainsAt(name, part);
      StartAndEnd(name, i, part);
      OneSlash(name, front, back, if i == |front| then i + |part| - 1 else i);
      assert false;
    }
  }

  lemma {:induction false} PrefixAgrees(name: Name, prefix: string, k: nat)
    requires StartsWith(name, prefix) && k < |prefix|
    ensures k < |name| && name[k] == prefix[k]
  {
    assert name[..|prefix|][k] == name[k];
  }

  lemma {:induction false} NotInPool(name: Name, front: Name, back: Name)
    requires TwoParts(name, front, back)
    ensures !StartsWith(name, "apt/pool/")
  {
    if |name| >= 9 {
      OneSlash(name, front, back, if |front| == 3 then 8 else 3);
      assert name[..9][3] == name[3] && name[..9][8] == name[8];
    }
  }

  /** A name of two parts is immutable only below releases/, and not if it starts like the
      stable pointer. */
  lemma {:induction false} TwoPartsAreMutable(name: Name, front: Name, back: Name)
    requires TwoParts(name, front, back)
    ensures Immutable(name) <==> StartsWith(name, "releases/") && !StartsWith(name, "releases/stable.json")
  {
    NotInPool(name, front, back);
    NoSegment(name, front, back, "/by-hash/");
    NoSegment(name, front, back, "/Packages/");
    NoSegment(name, front, back, "/repodata/");
  }

  lemma {:induction false} PointerIsMutable()
    ensures !Immutable(STABLE)
  {
    TwoPartsAreMutable(STABLE, "releases", "stable.json");
    assert STABLE[..|STABLE|] == STABLE;
  }

  lemma {:induction false} SignatureIsMutable()
    ensures !Immutable(STABLE_SIGNATURE)
  {
    TwoPartsAreMutable(STABLE_SIGNATURE, "releases", "stable.json.asc");
    assert STABLE_SIGNATURE[..|STABLE|] == STABLE;
  }

  lemma {:induction false} LockIsMutable()
    ensures !Immutable(LOCK_KEY)
  {
    TwoPartsAreMutable(LOCK_KEY, "_httpjet", "publication.lock");
    if StartsWith(LOCK_KEY, "releases/") {
      PrefixAgrees(LOCK_KEY, "releases/", 0);
      assert false;
    }
  }

  /** The slashes of `IN_RELEASE` are 6, 7 and 13 characters apart, those of a marker 8 or 9. */
  lemma {:induction false} InReleaseGap(i: nat, d: nat)
    requires 8 <= d <= 9 && i + d < |IN_RELEASE|
    ensures IN_RELEASE[i] != '/' || IN_RELEASE[i + d] != '/'
  {
    if i < 3 {
    } else if i < 9 {
      assert i == 3 || IN_RELEASE[i] != '/';
    } else {
      assert i == 9 || i == 16 || IN_RELEASE[i] != '/';
    }
  }

  lemma {:induction false} InReleaseHasNo(part: string)
    requires 9 <= |part| <= 10 && part[0] == '/' && part[|part| - 1] == '/'
    ensures !Contains(IN_RELEASE, part)
  {
    if Contains(IN_RELEASE, part) {
      var i := ContainsAt(IN_RELEASE, part);
      StartAndEnd(IN_RELEASE, i, part);
      InReleaseGap(i, |part| - 1);
      assert false;
    }
  }

  lemma {:induction false} InReleaseIsElsewhere()
    ensures !StartsWith(IN_RELEASE, "releases/") && !StartsWith(IN_RELEASE, "apt/pool/")
  {
    if StartsWith(IN_RELEASE, "releases/") {
      PrefixAgrees(IN_RELEASE, "releases/", 0);
      assert false;
    }
    if StartsWith(IN_RELEASE, "apt/pool/") {
      PrefixAgrees(IN_RELEASE, "apt/pool/", 4);
      assert false;
    }
  }

  lemma {:induction false} NotInRelease(name: Name)
    requires Immutable(name)
    ensures name != IN_RELEASE
  {
    if name == IN_RELEASE {
      InReleaseIsElsewhere();
      InReleaseHasNo("/by-hash/");
      InReleaseHasNo("/Packages/");
      InReleaseHasNo("/repodata/");
      assert false;
    }
  }

  lemma {:induction false} NotPointer(name: Name)
    requires Immutable(name)
    ensures name != STABLE && name != STABLE_SIGNATURE
  {
    PointerIsMutable();
    SignatureIsMutable();
  }

  // ---------------------------------------------------------------- immutable objects first

  /** An immutable object has the lowest rank, unless it has the name of an index. */
  lemma {:induction false} ImmutableRank(name: Name)
    requires Immutable(name)
    ensures Rank(name) == if EndsWith(name, INDEX) then 2 else 0
  {
    NotPointer(name);
    NotInRelease(name);
  }

  /** No mutable object is published before an immutable one. */
  ghost predicate ImmutablesFirst(u: seq<Name>) {
    forall i, j | 0 <= i < j < |u| :: Immutable(u[j]) ==> Immutable(u[i])
  }

  lemma {:induction false} IndexComesLate(order: seq<Name>, i: nat, j: nat)
    requires Sorted(order) && i < |order| && j < |order|
    requires Rank(order[i]) == 1 && Immutable(order[j]) && EndsWith(order[j], INDEX)
    ensures !ImmutablesFirst(order)
  {
    ImmutableRank(order[j]);
  }

  /** With some plain mutable object among the files, the immutable ones are published
      before all mutable ones if and only if none of them has the name of an index. */
  lemma {:induction false} ImmutablesFirstExactly(files: seq<Name>, m: Name)
    requires m in files && Rank(m) == 1
    ensures ImmutablesFirst(Order(files)) <==> forall f | f in files && Immutable(f) :: !EndsWith(f, INDEX)
  {
    var order := Order(files);
    OrderSorts(files);
    OrderHasAll(files);
    forall f | f in files && Immutable(f) && EndsWith(f, INDEX) ensures !ImmutablesFirst(order) {
      assert m in order && f in order;
      var i :| 0 <= i < |order| && order[i] == m;
      var j :| 0 <= j < |order| && order[j] == f;
      IndexComesLate(order, i, j);
    }
    if forall f | f in files && Immutable(f) :: !EndsWith(f, INDEX) {
      forall i, j | 0 <= i < j < |order| && Immutable(order[j]) ensures Immutable(order[i]) {
        assert order[j] in order && order[j] in files;
        ImmutableRank(order[j]);
        assert Before(order[i], order[j]);
      }
    }
  }

  lemma {:induction false} ContainsFrom(s: string, part: string, i: nat)
    requires i <= |s| && StartsWith(s[i..], part)
    ensures Contains(s, part)
  {
    if i > 0 {
      assert s[1..][i - 1..] == s[i..];
      ContainsFrom(s[1..], part, i - 1);
    }
  }

  lemma {:induction false} NotAnIndex(name: Name, front: Name, back: Name)
    requires TwoParts(name, front, back)
    ensures !EndsWith(name, INDEX)
  {
    if EndsWith(name, INDEX) {
      var at := |name| - |INDEX|;
      assert name[at..][0] == name[at] && name[at..][9] == name[at + 9];
      OneSlash(name, front, back, if |front| == at then at + 9 else at);
      assert false;
    }
  }

  lemma {:induction false} NotTheRelease(name: Name, front: Name, back: Name)
    requires TwoParts(name, front, back)
    ensures name != IN_RELEASE
  {
    if |name| == |IN_RELEASE| {
      OneSlash(name, front, back, if |front| == 3 then 9 else 3);
    }
  }

  lemma {:induction false} NotTheStable(name: Name)
    requires !StartsWith(name, "releases/")
    ensures name != STABLE && name != STABLE_SIGNATURE
  {
    assert STABLE[..9] == "releases/" && STABLE_SIGNATURE[..9] == "releases/";
  }

  /** Other names of two parts are plain mutable objects. */
  lemma {:induction false} PlainRank(name: Name, front: Name, back: Name)
    requires TwoParts(name, front, back) && !StartsWith(name, "releases/")
    ensures Rank(name) == 1
  {
    TwoPartsAreMutable(name, front, back);
    NotAnIndex(name, front, back);
    NotTheRelease(name, front, back);
    NotTheStable(name);
  }

  lemma {:induction false} InstallerIsPlain()
    ensures Rank(INSTALLER) == 1
  {
    if StartsWith(INSTALLER, "releases/") {
      PrefixAgrees(INSTALLER, "releases/", 0);
      assert false;
    }
    PlainRank(INSTALLER, "apt", "install.sh");
  }

  lemma {:induction false} PackagesIndex(front: Name, name: Name)
    requires name == front + "/Packages/repodata/repomd.xml"
    ensures Immutable(name) && EndsWith(name, INDEX)
  {
    assert name[|front|..] == "/Packages/repodata/repomd.xml";
    assert name[|front|..][..10] == "/Packages/";
    ContainsFrom(name, "/Packages/", |front|);
    assert name[|name| - |INDEX|..] == INDEX;
  }

  /** An index below any Packages directory, say rpm/x86_64/Packages, is immutable and yet
      published after the installer script that every snapshot holds. */
  lemma {:induction false} LateImmutable(front: Name, index: Name)
    requires index == front + "/Packages/repodata/repomd.xml"
    ensures Immutable(index) && !Immutable(INSTALLER) && !ImmutablesFirst(Order([index, INSTALLER]))
  {
    var files := [index, INSTALLER];
    PackagesIndex(front, index);
    InstallerIsPlain();
    assert files[0] in files && files[1] in files;
    ImmutablesFirstExactly(files, INSTALLER);
  }
}
