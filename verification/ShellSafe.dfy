/** canSentinel of src/lib/ptyExecShell.ts as one statement about the text of a command: which
    commands may have a suffix appended. */
module ShellSafe {
  import opened Basics
  import opened ShellScan
  import opened ShellGrammar
  import opened ShellSentinel
  import opened ShellPieces
  import opened ShellTail

  // ------------------------------------------------------------ words

  /** The word pattern has only one list of matches. */
  lemma {:induction false} MatchedOnce(text: string, i: nat, words: seq<string>)
    requires i <= |text| && Matched(text, i, words)
    ensures words == Words(text, i)
    decreases |text| - i
  {
    hide WordEnd, FindWord, Matched;
    if i < |text| {
      var found := FindWord(text, i);
      MatchedFirst(text, i, words);
      MatchedOnce(text, found.end, words[|found.words|..]);
    } else {
      NothingMatched(text, words);
    }
  }

  lemma NothingMatched(text: string, words: seq<string>)
    requires Matched(text, |text|, words)
    ensures words == []
  {
  }

  /** What stands first is what the pattern finds there. */
  lemma MatchedFirst(text: string, i: nat, words: seq<string>)
    requires i < |text| && Matched(text, i, words)
    ensures var found := FindWord(text, i); found.words <= words && Matched(text, found.end, words[|found.words|..])
  {
    hide WordEnd;
    if Separates(text[i]) && !Pair(text, i) && text[i] !in ";|(){}<>" {
      assert words[0..] == words;
    } else if !Separates(text[i]) && !Pair(text, i) {
      OneRun(text, i);
    }
  }

  lemma OneRun(text: string, i: nat)
    requires i < |text| && !Separates(text[i])
    ensures forall j: nat :: Run(text, i, j) ==> j == WordEnd(text, i)
  {
    assert WordEnd(text, i) > i;
  }

  // ------------------------------------------------------------ keywords

  /** The reserved words from the k-th on that stand where a command begins. */
  function Reserved(words: seq<string>, k: nat): seq<Keyword>
    requires k <= |words|
    decreases |words| - k
  {
    if k == |words| then []
    else
      (if Begins(words, k) && !InTest(words, k) && KeywordOf(words[k]).Some? then [KeywordOf(words[k]).value] else [])
      + Reserved(words, k + 1)
  }

  lemma {:induction false} ReservedAre(words: seq<string>, k: nat)
    requires k <= |words|
    ensures Reserved(words, k) == Keywords(words[k..], Place(Begins(words, k), InTest(words, k)))
    decreases |words| - k
  {
    hide Begins, InTest, Next, KeywordOf;
    if k < |words| {
      var place := Place(Begins(words, k), InTest(words, k));
      PlaceExactly(words, k);
      PlaceExactly(words, k + 1);
      PlaceLast(words[..k + 1], Place(true, false));
      assert words[..k + 1][..k] == words[..k] && words[k..][1..] == words[k + 1..];
      assert Next(place, words[k]) == Place(Begins(words, k + 1), InTest(words, k + 1));
      ReservedAre(words, k + 1);
    }
  }

  /** The words are complete control structures: no empty parentheses, no open test, and what
      is reserved of them is the yield of a script. */
  ghost predicate Controlled(words: seq<string>) {
    && (forall k | 0 <= k < |words| - 1 :: !(words[k] == "(" && words[k + 1] == ")"))
    && !InTest(words, |words|)
    && exists s: Script :: Yield(s) == Reserved(words, 0)
  }

  lemma ControlledIs(words: seq<string>)
    ensures CompleteControl(words) <==> Controlled(words)
  {
    hide Begins, InTest, KeywordOf, Accepts;
    CompleteExactly(words);
    ReservedAre(words, 0);
    AtFront(words);
    PlaceExactly(words, |words|);
    assert words[0..] == words && words[..|words|] == words;
    if Controlled(words) {
      var s: Script :| Yield(s) == Reserved(words, 0);
      Derives(words, s);
    }
  }

  lemma Derives(words: seq<string>, s: Script)
    requires !EmptyParentheses(words) && !PlaceAfter(words, Place(true, false)).test
    requires Yield(s) == Keywords(words, Place(true, false))
    ensures CompleteControl(words)
  {
    hide CompleteControl;
    CompleteExactly(words);
  }

  lemma AtFront(words: seq<string>)
    ensures Begins(words, 0) && !InTest(words, 0)
  {
  }

  // ------------------------------------------------------------ scopes and commands

  /** A scope leaves nothing open: it ends with a command, and its words are controlled. */
  ghost predicate Finished(scope: string, nested: bool) {
    && NoBackground(scope, 0)
    && (forall k: nat :: ShellTail.Last(scope, 0, k) ==> scope[k] !in "&|<>" && (scope[k] == ';' ==> nested || ClosesAfter(scope, k)))
    && exists words :: Matched(scope, 0, words) && Controlled(words)
  }

  lemma FinishedIs(scope: string, nested: bool)
    ensures CompleteScope(scope, nested) <==> Finished(scope, nested)
  {
    hide CompleteTail, CompleteControl, NoBackground, ShellTail.Last, ClosesAfter, Matched, Controlled, Words;
    TailExactly(scope, nested);
    WordsExactly(scope, 0);
    ControlledIs(Words(scope, 0));
    forall words | Matched(scope, 0, words) ensures words == Words(scope, 0) { MatchedOnce(scope, 0, words); }
  }

  /** The text holds neither a control character nor the beginning of a heredoc, and no
      backslash ends it. */
  predicate Tame(command: string) {
    && (forall k | 0 <= k < |command| :: 32 <= command[k] as int < 127 || command[k] as int >= 160)
    && (forall k | 0 <= k < |command| - 1 :: !(command[k] == '<' && command[k + 1] == '<'))
    && (command != "" ==> command[|command| - 1] != '\\')
  }

  /** The whole command is made of pieces, each of whose scopes is finished. */
  ghost predicate Pieced(command: string, ps: Pieces) {
    && Stand(command, 0, ps, TOP) && Length(ps) == |command|
    && Finished(Owns(ps, false), false)
    && forall k | 0 <= k < |Nesteds(ps)| :: Finished(Nesteds(ps)[k], true)
  }

  /** A suffix may be appended exactly to the tame commands that are pieced together from
      finished scopes. */
  lemma SentinelExactly(command: string)
    ensures CanSentinel(command) <==> Tame(command) && exists ps :: Pieced(command, ps)
  {
    hide Scan, CompleteScope, Stand, Length, Owns, Nesteds, Finished;
    forall ps | Stand(command, 0, ps, TOP) && Length(ps) == |command|
      ensures Pieced(command, ps) <==> AllComplete([Owns(ps, false)] + Nesteds(ps))
    {
      PiecedIs(command, ps);
    }
    var scopes := Scan(command);
    if scopes.Some? { ScanExactly(command, scopes.value); }
    forall ps | Stand(command, 0, ps, TOP) && Length(ps) == |command|
      ensures scopes == Some([Owns(ps, false)] + Nesteds(ps))
    {
      ScanExactly(command, [Owns(ps, false)] + Nesteds(ps));
    }
    TameIs(command);
  }

  predicate AllComplete(scopes: seq<string>) { forall k | 0 <= k < |scopes| :: CompleteScope(scopes[k], k != 0) }

  lemma PiecedIs(command: string, ps: Pieces)
    requires Stand(command, 0, ps, TOP) && Length(ps) == |command|
    ensures Pieced(command, ps) <==> AllComplete([Owns(ps, false)] + Nesteds(ps))
  {
    hide CompleteScope, Stand, Length, Owns, Nesteds, Finished;
    var scopes := [Owns(ps, false)] + Nesteds(ps);
    FinishedIs(Owns(ps, false), false);
    forall k | 0 <= k < |Nesteds(ps)| ensures Finished(Nesteds(ps)[k], true) <==> CompleteScope(scopes[k + 1], true) {
      FinishedIs(Nesteds(ps)[k], true);
    }
    if Pieced(command, ps) {
      forall k | 0 <= k < |scopes| ensures CompleteScope(scopes[k], k != 0) {
        if k > 0 { assert Finished(Nesteds(ps)[k - 1], true); }
      }
    }
    if AllComplete(scopes) {
      assert CompleteScope(scopes[0], false);
      forall k | 0 <= k < |Nesteds(ps)| ensures Finished(Nesteds(ps)[k], true) { assert CompleteScope(scopes[k + 1], k + 1 != 0); }
    }
  }

  lemma TameIs(command: string)
    ensures CanSentinel(command) <==> Tame(command) && Scan(command).Some? && AllComplete(Scan(command).value)
  {
    hide Scan;
    assert (forall k | 0 <= k < |command| :: 32 <= command[k] as int < 127 || command[k] as int >= 160)
      <==> (forall i | 0 <= i < |command| :: !IsControl(command[i]));
    assert HasHeredoc(command) <==> exists k | 0 <= k < |command| - 1 :: command[k] == '<' && command[k + 1] == '<';
  }
}
