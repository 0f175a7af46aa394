/** Regular expressions as the source writes them, and what it means that one matches a
    whole text. */
module Regex {

  datatype Re<!T> =
    | Empty
    | Class(has: T -> bool)
    | Cat(first: Re<T>, second: Re<T>)
    | Alt(left: Re<T>, right: Re<T>)
    | Star(inner: Re<T>)

  /** The expression matches the whole text. */
  ghost predicate Matches<T(!new)>(r: Re<T>, s: seq<T>)
    decreases r, |s|
  {
    match r
    case Empty => s == []
    case Class(has) => |s| == 1 && has(s[0])
    case Cat(a, b) => exists i :: 0 <= i <= |s| && Matches(a, s[..i]) && Matches(b, s[i..])
    case Alt(a, b) => Matches(a, s) || Matches(b, s)
    case Star(a) => s == [] || exists i :: 0 < i <= |s| && Matches(a, s[..i]) && Matches(r, s[i..])
  }

  /** At least one. */
  function Plus<T>(r: Re<T>): Re<T> { Cat(r, Star(r)) }

  /** At most one. */
  function Maybe<T>(r: Re<T>): Re<T> { Alt(Empty, r) }

  function Word<T(==)>(word: seq<T>): Re<T> {
    if word == [] then Empty else Cat(Class(c => c == word[0]), Word(word[1..]))
  }

  // ------------------------------------------------------------ reading off a match

  lemma CatIs<T(!new)>(a: Re<T>, b: Re<T>, s: seq<T>, i: nat)
    requires i <= |s| && Matches(a, s[..i]) && Matches(b, s[i..])
    ensures Matches(Cat(a, b), s)
  {
  }

  lemma CatSplits<T(!new)>(a: Re<T>, b: Re<T>, s: seq<T>) returns (i: nat)
    requires Matches(Cat(a, b), s)
    ensures i <= |s| && Matches(a, s[..i]) && Matches(b, s[i..])
  {
    i :| 0 <= i <= |s| && Matches(a, s[..i]) && Matches(b, s[i..]);
  }

  lemma StarSplits<T(!new)>(a: Re<T>, s: seq<T>) returns (i: nat)
    requires s != [] && Matches(Star(a), s)
    ensures 0 < i <= |s| && Matches(a, s[..i]) && Matches(Star(a), s[i..])
  {
    i :| 0 < i <= |s| && Matches(a, s[..i]) && Matches(Star(a), s[i..]);
  }

  lemma StarIs<T(!new)>(a: Re<T>, s: seq<T>, i: nat)
    requires 0 < i <= |s| && Matches(a, s[..i]) && Matches(Star(a), s[i..])
    ensures Matches(Star(a), s)
  {
  }

  lemma StarOfNone<T(!new)>(a: Re<T>)
    ensures Matches(Star(a), [])
  {
  }

  /** A first part of fixed length. */
  lemma OneThen<T(!new)>(has: T -> bool, b: Re<T>, s: seq<T>)
    ensures Matches(Cat(Class(has), b), s) <==> s != [] && has(s[0]) && Matches(b, s[1..])
  {
    if s != [] && has(s[0]) && Matches(b, s[1..]) { assert s[..1] == [s[0]]; }
    if Matches(Cat(Class(has), b), s) {
      var i :| 0 <= i <= |s| && Matches(Class(has), s[..i]) && Matches(b, s[i..]);
      assert i == 1;
    }
  }

  /** A last part of fixed length. */
  lemma ThenOne<T(!new)>(a: Re<T>, has: T -> bool, s: seq<T>)
    ensures Matches(Cat(a, Class(has)), s) <==> s != [] && has(s[|s| - 1]) && Matches(a, s[..|s| - 1])
  {
    if Matches(Cat(a, Class(has)), s) {
      var i :| 0 <= i <= |s| && Matches(a, s[..i]) && Matches(Class(has), s[i..]);
      assert i == |s| - 1;
    }
    if s != [] && has(s[|s| - 1]) && Matches(a, s[..|s| - 1]) { assert s[|s| - 1..] == [s[|s| - 1]]; }
  }

  lemma {:induction false} StarOfClass<T(!new)>(has: T -> bool, s: seq<T>)
    ensures Matches(Star(Class(has)), s) <==> forall k :: 0 <= k < |s| ==> has(s[k])
    decreases |s|
  {
    if s != [] {
      StarOfClass(has, s[1..]);
      assert s[..1] == [s[0]];
      if forall k :: 0 <= k < |s| ==> has(s[k]) {
        assert forall k :: 0 <= k < |s[1..]| ==> s[1..][k] == s[k + 1];
        assert Matches(Class(has), s[..1]) && Matches(Star(Class(has)), s[1..]);
      }
      if Matches(Star(Class(has)), s) {
        var i :| 0 < i <= |s| && Matches(Class(has), s[..i]) && Matches(Star(Class(has)), s[i..]);
        assert i == 1;
        forall k | 0 <= k < |s| ensures has(s[k]) { if k > 0 { assert s[k] == s[1..][k - 1]; } }
      }
    }
  }

  lemma PlusOfClass<T(!new)>(has: T -> bool, s: seq<T>)
    ensures Matches(Plus(Class(has)), s) <==> s != [] && forall k :: 0 <= k < |s| ==> has(s[k])
  {
    OneThen(has, Star(Class(has)), s);
    if s != [] {
      StarOfClass(has, s[1..]);
      assert forall k :: 0 <= k < |s[1..]| ==> s[1..][k] == s[k + 1];
      if has(s[0]) && forall k :: 0 <= k < |s[1..]| ==> has(s[1..][k]) {
        forall k | 0 <= k < |s| ensures has(s[k]) { if k > 0 { assert s[k] == s[1..][k - 1]; } }
      }
    }
  }

  lemma {:induction false} WordMatches<T(!new)>(word: seq<T>, s: seq<T>)
    ensures Matches(Word(word), s) <==> s == word
  {
    if word != [] {
      OneThen((c: T) => c == word[0], Word(word[1..]), s);
      if s != [] {
        WordMatches(word[1..], s[1..]);
        if s[0] == word[0] && s[1..] == word[1..] { assert s == [s[0]] + s[1..] && word == [word[0]] + word[1..]; }
      }
    }
  }

  lemma MaybeIs<T(!new)>(has: T -> bool, s: seq<T>)
    ensures Matches(Maybe(Class(has)), s) <==> s == [] || (|s| == 1 && has(s[0]))
  {
    assert Matches(Maybe(Class(has)), s) <==> Matches(Empty, s) || Matches(Class(has), s);
  }

  /** An optional first character. */
  lemma MaybeThen<T(!new)>(has: T -> bool, b: Re<T>, s: seq<T>)
    ensures Matches(Cat(Maybe(Class(has)), b), s) <==> Matches(b, s) || (s != [] && has(s[0]) && Matches(b, s[1..]))
  {
    assert s[..0] == [] && s[0..] == s;
    if Matches(b, s) { assert Matches(Maybe(Class(has)), s[..0]); }
    if s != [] && has(s[0]) && Matches(b, s[1..]) {
      assert s[..1] == [s[0]];
      assert Matches(Maybe(Class(has)), s[..1]);
    }
    if Matches(Cat(Maybe(Class(has)), b), s) {
      var i :| 0 <= i <= |s| && Matches(Maybe(Class(has)), s[..i]) && Matches(b, s[i..]);
      MaybeIs(has, s[..i]);
    }
  }
}
