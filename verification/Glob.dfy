/** glob_matches of src-tauri/src/ssh_config.rs: the iterative matcher with one remembered
    star, against what '*' and '?' mean. */
module Glob {
  import opened Basics

  /** '*' is any run, '?' is any character, anything else is itself. */
  predicate Match(p: string, t: string)
    decreases |p| + |t|
  {
    if p == "" then t == ""
    else if p[0] == '*' then Match(p[1..], t) || (t != "" && Match(p, t[1..]))
    else t != "" && (p[0] == '?' || p[0] == t[0]) && Match(p[1..], t[1..])
  }

  predicate Fits(c: char, d: char) { c == '?' || c == d }

  predicate AllStars(p: string) { forall k | 0 <= k < |p| :: p[k] == '*' }

  /** The matcher from a point of its loop on. */
  predicate From(p: string, t: string, pi: nat, ti: nat, star: Option<nat>, mark: nat)
    requires pi <= |p| && mark <= ti <= |t| && (star.Some? ==> star.value < |p|)
    decreases |t| - mark, |t| - ti, |p| - pi
  {
    if ti == |t| then AllStars(p[pi..])
    else if pi < |p| && Fits(p[pi], t[ti]) then From(p, t, pi + 1, ti + 1, star, mark)
    else if pi < |p| && p[pi] == '*' then From(p, t, pi + 1, ti, Some(pi), ti)
    else if star.Some? then From(p, t, star.value + 1, mark + 1, star, mark + 1)
    else false
  }

  predicate Matches(p: string, t: string) { From(p, t, 0, 0, None, 0) }

  /** glob_matches */
  method GlobMatches(p: string, t: string) returns (ok: bool)
    ensures ok == Matches(p, t)
  {
    var pi: nat, ti: nat := 0, 0;
    var star: Option<nat>, mark: nat := None, 0;
    while ti < |t|
      invariant pi <= |p| && mark <= ti <= |t| && (star.Some? ==> star.value < |p|)
      invariant Matches(p, t) == From(p, t, pi, ti, star, mark)
      decreases |t| - mark, |t| - ti, |p| - pi
    {
      if pi < |p| && (p[pi] == '?' || p[pi] == t[ti]) {
        pi, ti := pi + 1, ti + 1;
      } else if pi < |p| && p[pi] == '*' {
        star, mark := Some(pi), ti;
        pi := pi + 1;
      } else if star.Some? {
        pi := star.value + 1;
        mark := mark + 1;
        ti := mark;
      } else {
        return false;
      }
    }
    ghost var rest := p[pi..];
    while pi < |p| && p[pi] == '*'
      invariant pi <= |p| && AllStars(rest) == AllStars(p[pi..])
    {
      assert p[pi..] == [p[pi]] + p[pi + 1..];
      pi := pi + 1;
    }
    assert pi < |p| ==> p[pi..][0] == p[pi];
    return pi == |p|;
  }

  // ------------------------------------------------------------ the meaning of stars

  lemma {:induction false} EmptyText(p: string)
    ensures Match(p, "") == AllStars(p)
  {
    if p != "" {
      EmptyText(p[1..]);
      assert forall k :: 1 <= k < |p| ==> p[k] == p[1..][k - 1];
    }
  }

  /** A star may swallow any beginning of the text. */
  lemma {:induction false} StarSkips(p: string, t: string, k: nat)
    requires p != "" && p[0] == '*' && k <= |t| && Match(p, t[k..])
    ensures Match(p, t)
    decreases k
  {
    if k > 0 {
      assert t[k - 1..][1..] == t[k..];
      StarSkips(p, t, k - 1);
    } else {
      assert t[0..] == t;
    }
  }

  /** Where the rest of the pattern begins after a star. */
  lemma {:induction false} StarStops(p: string, t: string) returns (k: nat)
    requires p != "" && p[0] == '*' && Match(p, t)
    ensures k <= |t| && Match(p[1..], t[k..])
    decreases |t|
  {
    if Match(p[1..], t) {
      k := 0;
      assert t[0..] == t;
    } else {
      k := StarStops(p, t[1..]);
      assert t[1..][k..] == t[k + 1..];
      k := k + 1;
    }
  }

  /** A stretch of pattern without stars fits a stretch of text, character by character. */
  predicate Literally(p: string, t: string, i: nat, pi: nat, m: nat, ti: nat)
    requires i <= pi <= |p| && m <= ti <= |t| && ti - m == pi - i
  {
    forall k | i <= k < pi :: p[k] != '*' && Fits(p[k], t[m + (k - i)])
  }

  lemma {:induction false} LiteralStep(p: string, t: string, i: nat, pi: nat, m: nat, ti: nat)
    requires i <= pi <= |p| && m <= ti <= |t| && ti - m == pi - i && Literally(p, t, i, pi, m, ti)
    ensures Match(p[i..], t[m..]) == Match(p[pi..], t[ti..])
    decreases pi - i
  {
    if i < pi {
      assert p[i] != '*' && Fits(p[i], t[m]);
      LiteralStep(p, t, i + 1, pi, m + 1, ti);
      assert p[i..][1..] == p[i + 1..] && t[m..][1..] == t[m + 1..];
    }
  }

  /** Whatever matches a starless stretch of pattern takes as many characters. */
  lemma {:induction false} LiteralTakes(p: string, t: string, i: nat, pi: nat, m: nat)
    requires i <= pi <= |p| && m <= |t| && (forall k :: i <= k < pi ==> p[k] != '*') && Match(p[i..], t[m..])
    ensures m + (pi - i) <= |t| && Match(p[pi..], t[m + (pi - i)..])
    decreases pi - i
  {
    if i < pi {
      assert p[i..][0] == p[i];
      assert p[i..][1..] == p[i + 1..] && t[m..][1..] == t[m + 1..];
      LiteralTakes(p, t, i + 1, pi, m + 1);
    }
  }

  // ------------------------------------------------------------ a true answer is a match

  /** What the loop has done so far cannot be undone: a match of the rest is a match. */
  lemma {:induction false} Sound(p: string, t: string, pi: nat, ti: nat, star: Option<nat>, mark: nat)
    requires pi <= |p| && mark <= ti <= |t| && (star.Some? ==> star.value < |p| && p[star.value] == '*')
    requires From(p, t, pi, ti, star, mark)
    requires Match(p[pi..], t[ti..]) ==> Match(p, t)
    requires star.Some? ==> (Match(p[star.value..], t[mark..]) ==> Match(p, t))
    ensures Match(p, t)
    decreases |t| - mark, |t| - ti, |p| - pi
  {
    if ti == |t| {
      EmptyText(p[pi..]);
      assert t[ti..] == "";
    } else if pi < |p| && Fits(p[pi], t[ti]) {
      OneMore(p, t, pi, ti);
      Sound(p, t, pi + 1, ti + 1, star, mark);
    } else if pi < |p| && p[pi] == '*' {
      assert p[pi..][1..] == p[pi + 1..];
      Sound(p, t, pi + 1, ti, Some(pi), ti);
    } else {
      var q := p[star.value..];
      assert q[1..] == p[star.value + 1..] && t[mark..][1..] == t[mark + 1..];
      assert Match(q[1..], t[mark + 1..]) ==> Match(q, t[mark + 1..]);
      assert Match(q, t[mark + 1..]) ==> Match(q, t[mark..]);
      Sound(p, t, star.value + 1, mark + 1, star, mark + 1);
    }
  }

  /** A character that fits is taken, by a star as well as by itself. */
  lemma OneMore(p: string, t: string, pi: nat, ti: nat)
    requires pi < |p| && ti < |t| && Fits(p[pi], t[ti])
    ensures Match(p[pi + 1..], t[ti + 1..]) ==> Match(p[pi..], t[ti..])
  {
    assert p[pi..][1..] == p[pi + 1..] && t[ti..][1..] == t[ti + 1..];
    assert p[pi] == '*' && Match(p[pi + 1..], t[ti + 1..]) ==> Match(p[pi..], t[ti + 1..]);
  }

  /** A true answer is always a real match. */
  lemma TrueIsMatch(p: string, t: string)
    requires Matches(p, t)
    ensures Match(p, t)
  {
    assert p[0..] == p && t[0..] == t;
    Sound(p, t, 0, 0, None, 0);
  }

  // ------------------------------------------------------------ every match is found

  /** The state of the loop over a text without stars: what it has matched since the last
      star is literal, and nothing has been lost. */
  predicate Invariant(p: string, t: string, pi: nat, ti: nat, star: Option<nat>, mark: nat) {
    && pi <= |p| && mark <= ti <= |t| && (star.Some? ==> star.value < pi && p[star.value] == '*')
    && match star
       case None => Match(p, t) == Match(p[pi..], t[ti..])
       case Some(i) =>
         ti - mark == pi - (i + 1) && Literally(p, t, i + 1, pi, mark, ti) && Match(p, t) == Match(p[i..], t[mark..])
  }

  lemma {:induction false} Complete(p: string, t: string, pi: nat, ti: nat, star: Option<nat>, mark: nat)
    requires '*' !in t && Invariant(p, t, pi, ti, star, mark)
    ensures From(p, t, pi, ti, star, mark) == Match(p, t)
    decreases |t| - mark, |t| - ti, |p| - pi
  {
    if ti == |t| {
      AtEnd(p, t, pi, star, mark);
    } else if pi < |p| && Fits(p[pi], t[ti]) {
      assert t[ti] in t;
      assert p[pi..][1..] == p[pi + 1..] && t[ti..][1..] == t[ti + 1..];
      Complete(p, t, pi + 1, ti + 1, star, mark);
    } else if pi < |p| && p[pi] == '*' {
      NewStar(p, t, pi, ti, star, mark);
      LiteralNothing(p, t, pi + 1, ti);
      Complete(p, t, pi + 1, ti, Some(pi), ti);
    } else if star.Some? {
      NoMatchHere(p, t, pi, ti, star.value, mark);
      LiteralNothing(p, t, star.value + 1, mark + 1);
      Complete(p, t, star.value + 1, mark + 1, star, mark + 1);
    } else {
      assert pi < |p| ==> p[pi..][0] == p[pi];
    }
  }

  lemma LiteralNothing(p: string, t: string, i: nat, m: nat)
    requires i <= |p| && m <= |t|
    ensures Literally(p, t, i, i, m, m)
  {
  }

  /** The last star needs no memory of the one before it. */
  lemma NewStar(p: string, t: string, pi: nat, ti: nat, star: Option<nat>, mark: nat)
    requires Invariant(p, t, pi, ti, star, mark) && pi < |p| && p[pi] == '*'
    ensures Match(p, t) == Match(p[pi..], t[ti..])
  {
    if star.Some? {
      var i := star.value;
      var q := p[i..];
      assert q[1..] == p[i + 1..];
      if Match(p[pi..], t[ti..]) {
        LiteralStep(p, t, i + 1, pi, mark, ti);
        assert Match(q, t[mark..]);
      }
      if Match(q, t[mark..]) {
        var k := StarStops(q, t[mark..]);
        assert t[mark..][k..] == t[mark + k..];
        LiteralTakes(p, t, i + 1, pi, mark + k);
        assert t[ti..][k..] == t[ti + k..];
        StarSkips(p[pi..], t[ti..], k);
      }
    }
  }

  /** When the literal stretch fails where the star now stops, the star stops later. */
  lemma NoMatchHere(p: string, t: string, pi: nat, ti: nat, i: nat, mark: nat)
    requires Invariant(p, t, pi, ti, Some(i), mark) && ti < |t|
    requires pi < |p| ==> p[pi] != '*' && !Fits(p[pi], t[ti])
    ensures Match(p, t) == Match(p[i..], t[mark + 1..])
  {
    var q := p[i..];
    assert q[1..] == p[i + 1..] && t[mark..][1..] == t[mark + 1..];
    LiteralStep(p, t, i + 1, pi, mark, ti);
    assert pi < |p| ==> p[pi..][0] == p[pi];
    assert t[ti..][0] == t[ti];
    assert !Match(p[pi..], t[ti..]);
  }

  /** With the text used up, only stars may be left. */
  lemma AtEnd(p: string, t: string, pi: nat, star: Option<nat>, mark: nat)
    requires Invariant(p, t, pi, |t|, star, mark)
    ensures Match(p, t) == AllStars(p[pi..])
  {
    EmptyText(p[pi..]);
    assert t[|t|..] == "";
    if star.Some? {
      var i := star.value;
      var q := p[i..];
      assert q[1..] == p[i + 1..];
      LiteralStep(p, t, i + 1, pi, mark, |t|);
      if Match(q, t[mark..]) {
        var k := StarStops(q, t[mark..]);
        assert t[mark..][k..] == t[mark + k..];
        LiteralTakes(p, t, i + 1, pi, mark + k);
      }
    }
  }

  lemma NoStarsFound(p: string, t: string)
    requires '*' !in t
    ensures Matches(p, t) == Match(p, t)
  {
    assert p[0..] == p && t[0..] == t;
    Complete(p, t, 0, 0, None, 0);
  }

  // ------------------------------------------------------------ and only then

  function Any(n: nat): (p: string)
    ensures |p| == n && forall k :: 0 <= k < n ==> p[k] == '?'
  {
    if n == 0 then "" else "?" + Any(n - 1)
  }

  /** A pattern that matches the text, but whose star meets a star in it. */
  function Counter(t: string): string
    requires '*' in t
  {
    var n := IndexOf(t, '*');
    Any(n) + "*" + Any(|t| - n)
  }

  lemma {:induction false} AnyMatches(n: nat, p: string, t: string)
    requires n <= |t|
    ensures Match(Any(n) + p, t) == Match(p, t[n..])
  {
    if n > 0 {
      AnyMatches(n - 1, p, t[1..]);
      assert (Any(n) + p)[1..] == Any(n - 1) + p && t[1..][n - 1..] == t[n..];
    } else {
      assert Any(n) + p == p && t[0..] == t;
    }
  }

  /** Question marks are taken one by one. */
  lemma {:induction false} AnyTaken(p: string, t: string, pi: nat, ti: nat, n: nat)
    requires pi + n <= |p| && ti + n <= |t| && forall k :: pi <= k < pi + n ==> p[k] == '?'
    ensures From(p, t, pi, ti, None, 0) == From(p, t, pi + n, ti + n, None, 0)
    decreases n
  {
    if n > 0 { AnyTaken(p, t, pi + 1, ti + 1, n - 1); }
  }

  lemma CounterFails(t: string)
    requires '*' in t
    ensures Match(Counter(t), t) && !Matches(Counter(t), t)
  {
    var n := IndexOf(t, '*');
    var p := Counter(t);
    var rest := |t| - n;
    assert n < |t| && t[n] == '*';
    AnyMatches(n, "*" + Any(rest), t);
    assert p == Any(n) + ("*" + Any(rest));
    assert ("*" + Any(rest))[1..] == Any(rest) + "";
    AnyMatches(rest, "", t[n..]);
    assert Match("*" + Any(rest), t[n..]);
    AnyTaken(p, t, 0, 0, n);
    assert p[n] == '*';
    assert forall k :: n + 1 <= k < |p| ==> p[k] == Any(rest)[k - n - 1];
    AnyTaken(p, t, n + 1, n + 1, rest - 1);
    assert p[|t|..][0] == '?';
  }

  /** The texts for which the matcher agrees with the meaning of every pattern are exactly
      those without a star in them. */
  lemma AgreesExactly(t: string)
    ensures (forall p :: Matches(p, t) == Match(p, t)) <==> '*' !in t
  {
    if '*' in t {
      CounterFails(t);
    } else {
      forall p ensures Matches(p, t) == Match(p, t) { NoStarsFound(p, t); }
    }
  }
}
