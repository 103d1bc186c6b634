/** Splitting and joining text at a separator. */
module Texts {

  /** Puts a character in front of the first part. */
  function Grow(c: char, parts: seq<string>): (r: seq<string>)
    requires parts != []
    ensures r != []
  {
    [[c] + parts[0]] + parts[1..]
  }

  function Split(s: string, separator: char): (parts: seq<string>)
    ensures parts != []
  {
    if s == "" then [""]
    else if s[0] == separator then [""] + Split(s[1..], separator)
    else Grow(s[0], Split(s[1..], separator))
  }

  ghost function Join(parts: seq<string>, separator: char): string
    requires parts != []
  {
    if |parts| == 1 then parts[0] else parts[0] + [separator] + Join(parts[1..], separator)
  }

  lemma {:induction false} JoinGrow(c: char, parts: seq<string>, separator: char)
    requires parts != []
    ensures Join(Grow(c, parts), separator) == [c] + Join(parts, separator)
  {
    assert Grow(c, parts)[1..] == parts[1..];
  }

  lemma {:induction false} JoinCons(part: string, parts: seq<string>, separator: char)
    requires parts != []
    ensures Join([part] + parts, separator) == part + [separator] + Join(parts, separator)
  {
    assert ([part] + parts)[1..] == parts;
  }

  /** Joining the parts gives the text back. */
  lemma {:induction false} JoinSplit(s: string, separator: char)
    ensures Join(Split(s, separator), separator) == s
  {
    if s != "" {
      var rest := Split(s[1..], separator);
      JoinSplit(s[1..], separator);
      if s[0] == separator {
        JoinCons("", rest, separator);
      } else {
        JoinGrow(s[0], rest, separator);
      }
    }
  }

  lemma {:induction false} JoinConcat(a: seq<string>, b: seq<string>, separator: char)
    requires a != [] && b != []
    ensures Join(a + b, separator) == Join(a, separator) + [separator] + Join(b, separator)
  {
    if |a| == 1 {
      assert (a + b)[1..] == b;
    } else {
      JoinConcat(a[1..], b, separator);
      assert (a + b)[1..] == a[1..] + b;
    }
  }

  lemma {:induction false} GrowConcat(c: char, a: seq<string>, b: seq<string>)
    requires a != []
    ensures Grow(c, a + b) == Grow(c, a) + b
  {
    assert (a + b)[1..] == a[1..] + b;
  }

  /** A text split at a separator it contains is split on either side of it. */
  lemma {:induction false} SplitConcat(a: string, b: string, separator: char)
    ensures Split(a + [separator] + b, separator) == Split(a, separator) + Split(b, separator)
  {
    var whole := a + [separator] + b;
    if a == "" {
      assert whole[0] == separator && whole[1..] == b;
    } else {
      var rest, back := Split(a[1..], separator), Split(b, separator);
      SplitConcat(a[1..], b, separator);
      assert whole[0] == a[0] && whole[1..] == a[1..] + [separator] + b;
      GrowConcat(a[0], rest, back);
      assert [""] + (rest + back) == ([""] + rest) + back;
    }
  }

  /** The lists that `f` gives for each element, one after another. */
  function Gather<A, B>(f: A -> seq<B>, xs: seq<A>): seq<B> {
    if xs == [] then [] else f(xs[0]) + Gather(f, xs[1..])
  }

  lemma {:induction false} GatherConcat<A, B>(f: A -> seq<B>, a: seq<A>, b: seq<A>)
    ensures Gather(f, a + b) == Gather(f, a) + Gather(f, b)
  {
    if a == [] {
      assert a + b == b;
    } else {
      GatherConcat(f, a[1..], b);
      assert (a + b)[1..] == a[1..] + b;
      Associate(f(a[0]), Gather(f, a[1..]), Gather(f, b));
    }
  }

  lemma {:induction false} GatherCons<A, B>(f: A -> seq<B>, x: A, xs: seq<A>)
    ensures Gather(f, [x] + xs) == f(x) + Gather(f, xs)
  {
    assert ([x] + xs)[1..] == xs;
  }

  lemma {:induction false} GatherFrom<A, B>(f: A -> seq<B>, xs: seq<A>, i: nat)
    requires i < |xs|
    ensures Gather(f, xs[i..]) == f(xs[i]) + Gather(f, xs[i + 1..])
  {
    assert xs[i..][1..] == xs[i + 1..];
  }

  lemma {:induction false} Associate<T>(a: seq<T>, b: seq<T>, c: seq<T>)
    ensures a + (b + c) == (a + b) + c
  {
  }

  predicate StartsWith(s: string, prefix: string) {
    |prefix| <= |s| && s[..|prefix|] == prefix
  }
}
