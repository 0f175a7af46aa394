/** The two gates of src/lib/ptyExecShell.ts on a scope, read off its text: how it may end,
    which words it has, and which of them stand where a command begins. */
module ShellTail {
  import opened Basics
  import opened ShellScan
  import opened ShellGrammar
  import opened ShellSentinel

  // ------------------------------------------------------------ the end of a scope

  predicate Blank(c: char) { IsSpaceCode(c as int) }

  /** A character that decides how the scope ends: no blank and no closing bracket. */
  predicate Decides(scope: string, k: nat)
    requires k < |scope|
  {
    !Blank(scope[k]) && scope[k] != ')' && scope[k] != '}'
  }

  predicate Last(scope: string, from: nat, k: nat) {
    from <= k < |scope| && Decides(scope, k) && forall j | k < j < |scope| :: !Decides(scope, j)
  }

  predicate ClosesAfter(scope: string, k: nat) { exists j | k <= j < |scope| :: scope[j] == ')' || scope[j] == '}' }

  /** How many ampersands stand directly before i. */
  function Ampersands(scope: string, i: nat): nat
    requires i <= |scope|
  {
    if i > 0 && scope[i - 1] == '&' then 1 + Ampersands(scope, i - 1) else 0
  }

  /** An ampersand that pairs with no neighbour. */
  predicate Alone(scope: string, k: nat) {
    k < |scope| && scope[k] == '&' && Ampersands(scope, k) % 2 == 0 && (k + 1 == |scope| || scope[k + 1] != '&')
  }

  /** No command goes to the background: single ampersands belong to redirections. */
  predicate NoBackground(scope: string, from: nat) {
    forall k | from <= k < |scope| :: Alone(scope, k) ==> k > 0 && (scope[k - 1] == '>' || scope[k - 1] == '<')
  }

  /** What the last deciding character leaves of the gate; a bracket closed behind a
      semicolon completes it. */
  function Left(scope: string, k: nat): Trailing
    requires k < |scope|
  {
    if scope[k] == ';' then if ClosesAfter(scope, k) then Clear else Semicolon
    else if scope[k] in "&|<>" then Operator
    else Clear
  }

  /** How the gate stands at the end, from where it stood at i. */
  ghost predicate EndsAs(t: Trailing, scope: string, i: nat, after: Trailing) {
    if NoneLast(scope, i) then after == (if t.Semicolon? && ClosesAfter(scope, i) then Clear else t)
    else exists k: nat :: Last(scope, i, k) && after == Left(scope, k)
  }

  ghost predicate NoneLast(scope: string, i: nat) { forall k: nat :: !Last(scope, i, k) }

  // ------------------------------------------------------------ the gate reads just that

  /** The gate never stands between the two ampersands of a pair. */
  predicate Between(scope: string, i: nat) { i <= |scope| && (i == |scope| || scope[i] != '&' || Ampersands(scope, i) % 2 == 0) }

  lemma StepBetween(t: Trailing, scope: string, i: nat)
    requires i < |scope| && Between(scope, i)
    ensures var r := TailOn(t, At(scope, i - 1), scope[i], At(scope, i + 1));
      && (r.Background? <==> Alone(scope, i) && !(i > 0 && (scope[i - 1] == '>' || scope[i - 1] == '<')))
      && (r.To? ==> Between(scope, i + r.length) && forall k | i < k < i + r.length :: !Alone(scope, k))
  {
    var r := TailOn(t, At(scope, i - 1), scope[i], At(scope, i + 1));
    if r.To? && r.length == 2 && scope[i] == '&' {
      assert Ampersands(scope, i + 1) == 1 + Ampersands(scope, i) && Ampersands(scope, i + 2) == 2 + Ampersands(scope, i);
    }
  }

  lemma LastStays(scope: string, i: nat, j: nat)
    requires i <= j <= |scope| && !NoneLast(scope, j)
    ensures forall k: nat :: Last(scope, i, k) <==> Last(scope, j, k)
  {
    var k: nat :| Last(scope, j, k);
  }

  lemma LastHere(scope: string, i: nat, k: nat, j: nat)
    requires i <= k < j <= |scope| && j == k + 1 && Decides(scope, k) && NoneLast(scope, j)
    ensures Last(scope, i, k) && !NoneLast(scope, i)
  {
    NothingDecides(scope, j);
  }

  lemma {:induction false} NothingDecides(scope: string, j: nat)
    requires j <= |scope| && NoneLast(scope, j)
    ensures forall k | j <= k < |scope| :: !Decides(scope, k)
    decreases |scope| - j
  {
    if j < |scope| {
      if !NoneLast(scope, j + 1) {
        LastStays(scope, j, j + 1);
      } else {
        NothingDecides(scope, j + 1);
        if Decides(scope, j) { assert Last(scope, j, j); }
      }
    }
  }

  lemma StepEnds(t: Trailing, scope: string, i: nat, after: Trailing)
    requires i < |scope|
    requires var r := TailOn(t, At(scope, i - 1), scope[i], At(scope, i + 1));
      r.To? && EndsAs(r.trailing, scope, i + r.length, after)
    ensures EndsAs(t, scope, i, after)
  {
    hide Last, NoneLast;
    var r := TailOn(t, At(scope, i - 1), scope[i], At(scope, i + 1));
    var j := i + r.length;
    if !NoneLast(scope, j) {
      LastStays(scope, i, j);
      StillLast(scope, i, j);
    } else if Decides(scope, j - 1) {
      LastHere(scope, i, j - 1, j);
      assert after == Left(scope, j - 1);
    } else {
      NotLast(scope, i);
    }
  }

  lemma StillLast(scope: string, i: nat, j: nat)
    requires !NoneLast(scope, j) && forall k: nat :: Last(scope, i, k) <==> Last(scope, j, k)
    ensures !NoneLast(scope, i)
  {
  }

  lemma NotLast(scope: string, i: nat)
    requires i < |scope| && !Decides(scope, i) && NoneLast(scope, i + 1)
    ensures NoneLast(scope, i)
  {
    forall k: nat ensures !Last(scope, i, k) { assert !Last(scope, i + 1, k); }
  }

  lemma {:induction false} TailFromIs(t: Trailing, scope: string, i: nat)
    requires Between(scope, i)
    ensures match TailFrom(t, scope, i)
      case None => !NoBackground(scope, i)
      case Some(after) => NoBackground(scope, i) && EndsAs(t, scope, i, after)
    decreases |scope| - i
  {
    hide TailOn, Alone, Between, EndsAs;
    WithinText(scope, i);
    if i == |scope| {
      NothingLeft(t, scope);
    } else {
      StepBetween(t, scope, i);
      var r := TailOn(t, At(scope, i - 1), scope[i], At(scope, i + 1));
      if r.To? {
        WithinText(scope, i + r.length);
        TailFromIs(r.trailing, scope, i + r.length);
        if TailFrom(t, scope, i).Some? { StepEnds(t, scope, i, TailFrom(t, scope, i).value); }
      }
    }
  }

  lemma WithinText(scope: string, i: nat)
    requires Between(scope, i)
    ensures i <= |scope|
  {
  }

  lemma NothingLeft(t: Trailing, scope: string)
    ensures EndsAs(t, scope, |scope|, t)
  {
  }

  /** A scope may end so exactly when nothing in it goes to the background and its last
      deciding character is no operator; after a semicolon a bracket must close, unless the
      scope is a nested one. */
  lemma TailExactly(scope: string, nested: bool)
    ensures CompleteTail(scope, nested) <==>
      && NoBackground(scope, 0)
      && forall k: nat :: Last(scope, 0, k) ==>
           scope[k] !in "&|<>" && (scope[k] == ';' ==> nested || ClosesAfter(scope, k))
  {
    hide NoBackground, ClosesAfter;
    assert Between(scope, 0) by { AtStart(scope); }
    TailFromIs(Clear, scope, 0);
    if TailFrom(Clear, scope, 0).Some? {
      if !NoneLast(scope, 0) {
        var k: nat :| Last(scope, 0, k) && TailFrom(Clear, scope, 0).value == Left(scope, k);
        assert forall j: nat :: Last(scope, 0, j) ==> j == k;
      }
    }
  }

  lemma AtStart(scope: string)
    ensures Between(scope, 0)
  {
  }

  // ------------------------------------------------------------ words

  predicate Separates(c: char) { Blank(c) || c in ";&|(){}<>" }

  predicate Run(text: string, i: nat, j: nat) {
    i < j <= |text| && (forall k | i <= k < j :: !Separates(text[k])) && (j == |text| || Separates(text[j]))
  }

  predicate Pair(text: string, i: nat) { i + 1 < |text| && text[i] == text[i + 1] && (text[i] == '&' || text[i] == '|') }

  /** The matches of /&&|\|\||[;|(){}<>]|[^\s;&|(){}<>]+/g from i on. */
  ghost predicate Matched(text: string, i: nat, words: seq<string>)
    requires i <= |text|
    decreases |text| - i
  {
    if i == |text| then words == []
    else if Pair(text, i) then words != [] && words[0] == text[i..i + 2] && Matched(text, i + 2, words[1..])
    else if text[i] in ";|(){}<>" then words != [] && words[0] == [text[i]] && Matched(text, i + 1, words[1..])
    else if Separates(text[i]) then Matched(text, i + 1, words)
    else words != [] && exists j: nat :: i < j <= |text| && Run(text, i, j) && words[0] == text[i..j] && Matched(text, j, words[1..])
  }

  lemma {:induction false} WordsExactly(text: string, i: nat)
    requires i <= |text|
    ensures Matched(text, i, Words(text, i))
    decreases |text| - i
  {
    hide WordEnd;
    if i < |text| {
      var found := FindWord(text, i);
      WordsExactly(text, found.end);
      var rest := Words(text, found.end);
      assert Words(text, i) == found.words + rest;
      if found.words != [] { assert (found.words + rest)[1..] == rest; } else { assert found.words + rest == rest; }
      if WordChar(text[i]) {
        var j := WordEnd(text, i);
        assert j > i by { WordGoes(text, i); }
        assert Run(text, i, j);
      }
    }
  }

  lemma WordGoes(text: string, i: nat)
    requires i < |text| && WordChar(text[i])
    ensures WordEnd(text, i) > i
  {
  }

  // ------------------------------------------------------------ where a command begins

  predicate Joins(word: string) { word == ";" || word == "&&" || word == "||" || word == "|" || word == "(" || word == "{" }

  predicate Closing(word: string) { word == ")" || word == "}" }

  predicate Redirects(word: string) { word == "<" || word == ">" }

  /** After these words of the control grammar another command follows. */
  predicate Leads(word: string) {
    word == "if" || word == "then" || word == "elif" || word == "else" || word == "while" || word == "until" || word == "do"
  }

  /** The k-th word stands within [[ and ]]. */
  predicate InTest(words: seq<string>, k: nat)
    requires k <= |words|
    decreases k, 0
  {
    k > 0 && if InTest(words, k - 1) then words[k - 1] != "]]" else words[k - 1] == "[[" && Begins(words, k - 1)
  }

  /** The k-th word stands where a command begins: at the front, behind an operator or an
      opening bracket, or behind a leading word that does; redirections do not count. */
  predicate Begins(words: seq<string>, k: nat)
    requires k <= |words|
    decreases k, 1
  {
    if k == 0 then true
    else
      !InTest(words, k) && !InTest(words, k - 1)
      && (Joins(words[k - 1]) || ((Redirects(words[k - 1]) || Leads(words[k - 1])) && Begins(words, k - 1)))
  }

  lemma {:induction false} PlaceLast(words: seq<string>, place: Place)
    requires words != []
    ensures PlaceAfter(words, place) == Next(PlaceAfter(words[..|words| - 1], place), words[|words| - 1])
    decreases |words|
  {
    hide Next;
    if |words| > 1 {
      PlaceLast(words[1..], Next(place, words[0]));
      assert words[1..][..|words| - 2] == words[..|words| - 1][1..];
    } else {
      assert words[..0] == [] && words[1..] == [];
    }
  }

  /** The automaton keeps count of exactly these positions. */
  lemma {:induction false} PlaceExactly(words: seq<string>, k: nat)
    requires k <= |words|
    ensures PlaceAfter(words[..k], Place(true, false)) == Place(Begins(words, k), InTest(words, k))
    decreases k
  {
    if k == 0 {
      assert words[..0] == [];
    } else {
      PlaceLast(words[..k], Place(true, false));
      assert words[..k][..k - 1] == words[..k - 1];
      PlaceExactly(words, k - 1);
    }
  }

  /** The words that the control grammar reserves, and those it does not handle. */
  lemma KeywordExactly(word: string)
    ensures KeywordOf(word) ==
      if word == "if" then Some(If)
      else if word == "then" then Some(Then)
      else if word == "elif" then Some(Elif)
      else if word == "else" then Some(Else)
      else if word == "fi" then Some(Fi)
      else if word == "for" || word == "select" || word == "while" || word == "until" then Some(Loop)
      else if word == "do" then Some(Do)
      else if word == "done" then Some(Done)
      else if word == "case" || word == "function" || word == "coproc" || word == "begin" || word == "switch" || word == "!" || word == "time"
      then Some(Refused)
      else None
  {
  }
}
