/** The control-grammar check of src/lib/ptyExecShell.ts, and what it accepts: exactly
    the word lists whose keywords are derivable from the shell's control grammar. */
module ShellGrammar {
  import opened Basics
  import opened ShellScan

  // ------------------------------------------------------------ words

  predicate WordChar(c: char) { !IsSpace(c) && c !in ";&|(){}<>" }

  function WordEnd(text: string, i: nat): (end: nat)
    requires i <= |text|
    ensures i <= end <= |text|
    ensures forall k :: i <= k < end ==> WordChar(text[k])
    ensures end < |text| ==> !WordChar(text[end])
    decreases |text| - i
  {
    if i < |text| && WordChar(text[i]) then WordEnd(text, i + 1) else i
  }

  /** What the word pattern finds at a place, if anything, and where to look next. */
  datatype Found = Found(words: seq<string>, end: nat)

  /** Operators, and runs of other characters. A lone ampersand matches nothing. */
  function FindWord(text: string, i: nat): (found: Found)
    requires i < |text|
    ensures i < found.end <= |text|
  {
    if i + 1 < |text| && text[i] == text[i + 1] && text[i] in "&|" then Found([text[i..i + 2]], i + 2)
    else if text[i] in ";|(){}<>" then Found([[text[i]]], i + 1)
    else if WordChar(text[i]) then Found([text[i..WordEnd(text, i)]], WordEnd(text, i))
    else Found([], i + 1)
  }

  /** The matches of the word pattern, from i on. */
  function Words(text: string, i: nat): seq<string>
    requires i <= |text|
    decreases |text| - i
  {
    if i == |text| then [] else FindWord(text, i).words + Words(text, FindWord(text, i).end)
  }

  // ------------------------------------------------------------ keywords

  datatype Keyword = If | Then | Elif | Else | Fi | Loop | Do | Done | Refused

  function KeywordOf(word: string): Option<Keyword> {
    if word in {"case", "function", "coproc", "begin", "switch", "!", "time"} then Some(Refused)
    else if word == "if" then Some(If)
    else if word == "then" then Some(Then)
    else if word == "elif" then Some(Elif)
    else if word == "else" then Some(Else)
    else if word == "fi" then Some(Fi)
    else if word in {"for", "select", "while", "until"} then Some(Loop)
    else if word == "do" then Some(Do)
    else if word == "done" then Some(Done)
    else None
  }

  /** Whether the next word is in command position, and whether a [[ test is open. */
  datatype Place = Place(command: bool, test: bool)

  function Next(place: Place, word: string): Place {
    if place.test then if word == "]]" then Place(false, false) else place
    else if word in {";", "&&", "||", "|", "(", "{"} then Place(true, false)
    else if word in {")", "}"} then Place(false, false)
    else if word in {"<", ">"} || !place.command then place
    else if word == "[[" then Place(false, true)
    else Place(word in {"if", "then", "elif", "else", "while", "until", "do"}, false)
  }

  predicate IsKeyword(place: Place, word: string) { !place.test && place.command && KeywordOf(word).Some? }

  /** The keywords among the words that stand in command position. */
  function Keywords(words: seq<string>, place: Place): seq<Keyword> {
    if words == [] then []
    else
      (if IsKeyword(place, words[0]) then [KeywordOf(words[0]).value] else [])
      + Keywords(words[1..], Next(place, words[0]))
  }

  function PlaceAfter(words: seq<string>, place: Place): Place {
    if words == [] then place else PlaceAfter(words[1..], Next(place, words[0]))
  }

  predicate EmptyParentheses(words: seq<string>) {
    exists k | 0 <= k < |words| - 1 :: words[k] == "(" && words[k + 1] == ")"
  }

  // ------------------------------------------------------------ the automaton

  datatype Frame = Condition | Body | Header | LoopBody

  /** One keyword against the open frames, innermost last. */
  function Push(frames: seq<Frame>, k: Keyword): Option<seq<Frame>> {
    var n := |frames|;
    match k
    case Refused => None
    case If => Some(frames + [Condition])
    case Loop => Some(frames + [Header])
    case Then => if n > 0 && frames[n - 1].Condition? then Some(frames[..n - 1] + [Body]) else None
    case Elif => if n > 0 && frames[n - 1].Body? then Some(frames[..n - 1] + [Condition]) else None
    case Else => if n > 0 && frames[n - 1].Body? then Some(frames) else None
    case Fi => if n > 0 && frames[n - 1].Body? then Some(frames[..n - 1]) else None
    case Do => if n > 0 && frames[n - 1].Header? then Some(frames[..n - 1] + [LoopBody]) else None
    case Done => if n > 0 && frames[n - 1].LoopBody? then Some(frames[..n - 1]) else None
  }

  predicate Accepts(frames: seq<Frame>, ks: seq<Keyword>)
    decreases |ks|
  {
    if ks == [] then frames == []
    else Push(frames, ks[0]).Some? && Accepts(Push(frames, ks[0]).value, ks[1..])
  }

  predicate CompleteControl(words: seq<string>) {
    && !EmptyParentheses(words)
    && !PlaceAfter(words, Place(true, false)).test
    && Accepts([], Keywords(words, Place(true, false)))
  }

  /** One word read by the automaton. */
  lemma ReadWord(words: seq<string>, place: Place, frames: seq<Frame>)
    requires words != []
    ensures PlaceAfter(words, place) == PlaceAfter(words[1..], Next(place, words[0]))
    ensures Accepts(frames, Keywords(words, place)) ==
      var more := Keywords(words[1..], Next(place, words[0]));
      if IsKeyword(place, words[0]) then
        var pushed := Push(frames, KeywordOf(words[0]).value);
        pushed.Some? && Accepts(pushed.value, more)
      else Accepts(frames, more)
  {
    hide KeywordOf, Next, Push;
    var more := Keywords(words[1..], Next(place, words[0]));
    if IsKeyword(place, words[0]) {
      assert Keywords(words, place)[1..] == more;
    } else {
      assert Keywords(words, place) == more;
    }
  }

  /** hasCompleteControlGrammar, after the words have been split. */
  method HasCompleteControlGrammar(words: seq<string>) returns (ok: bool)
    ensures ok == CompleteControl(words)
  {
    hide Accepts, Keywords, PlaceAfter, Push, Next, KeywordOf, IsKeyword;
    var k := 0;
    while k < |words|
      invariant 0 <= k <= |words|
      invariant forall j :: 0 <= j < k && j + 1 < |words| ==> !(words[j] == "(" && words[j + 1] == ")")
    {
      if words[k] == "(" && k + 1 < |words| && words[k + 1] == ")" { return false; }
      k := k + 1;
    }
    ok := ReadKeywords(words);
  }

  /** The loop over the words and the open frames. */
  method ReadKeywords(words: seq<string>) returns (ok: bool)
    ensures ok == (!PlaceAfter(words, Place(true, false)).test && Accepts([], Keywords(words, Place(true, false))))
  {
    hide Accepts, Keywords, PlaceAfter, Push, Next, KeywordOf;
    var frames: seq<Frame> := [];
    var place := Place(true, false);
    var k := 0;
    assert words[0..] == words;
    while k < |words|
      invariant 0 <= k <= |words|
      invariant Accepts([], Keywords(words, Place(true, false))) == Accepts(frames, Keywords(words[k..], place))
      invariant PlaceAfter(words, Place(true, false)) == PlaceAfter(words[k..], place)
    {
      var word := words[k];
      ReadWord(words[k..], place, frames);
      assert words[k..][1..] == words[k + 1..];
      if IsKeyword(place, word) {
        var pushed := Push(frames, KeywordOf(word).value);
        if pushed.None? { return false; }
        frames := pushed.value;
      }
      place := Next(place, word);
      k := k + 1;
    }
    NothingRead(frames, place);
    assert words[k..] == [];
    return frames == [] && !place.test;
  }

  lemma NothingRead(frames: seq<Frame>, place: Place)
    ensures PlaceAfter([], place) == place && Accepts(frames, Keywords([], place)) == (frames == [])
  {
  }

  // ------------------------------------------------------------ the grammar

  /** S -> empty | if S then S tail S | loop S do S done S */
  datatype Script =
    | Empty
    | Branch(condition: Script, body: Script, tail: Tail, rest: Script)
    | Repeat(header: Script, body: Script, rest: Script)

  /** T -> fi | elif S then S T | else S T */
  datatype Tail =
    | End
    | ElseIf(condition: Script, body: Script, tail: Tail)
    | Otherwise(body: Script, tail: Tail)

  function Yield(s: Script): seq<Keyword> {
    match s
    case Empty => []
    case Branch(condition, body, tail, rest) =>
      [If] + Yield(condition) + [Then] + Yield(body) + YieldTail(tail) + Yield(rest)
    case Repeat(header, body, rest) => [Loop] + Yield(header) + [Do] + Yield(body) + [Done] + Yield(rest)
  }

  function YieldTail(t: Tail): seq<Keyword> {
    match t
    case End => [Fi]
    case ElseIf(condition, body, tail) => [Elif] + Yield(condition) + [Then] + Yield(body) + YieldTail(tail)
    case Otherwise(body, tail) => [Else] + Yield(body) + YieldTail(tail)
  }

  lemma YieldIs(s: Script)
    ensures match s
      case Empty => Yield(s) == []
      case Branch(condition, body, tail, rest) =>
        Yield(s) == [If] + Yield(condition) + [Then] + Yield(body) + YieldTail(tail) + Yield(rest)
      case Repeat(header, body, rest) =>
        Yield(s) == [Loop] + Yield(header) + [Do] + Yield(body) + [Done] + Yield(rest)
  {
  }

  lemma YieldTailIs(t: Tail)
    ensures match t
      case End => YieldTail(t) == [Fi]
      case ElseIf(condition, body, tail) =>
        YieldTail(t) == [Elif] + Yield(condition) + [Then] + Yield(body) + YieldTail(tail)
      case Otherwise(body, tail) => YieldTail(t) == [Else] + Yield(body) + YieldTail(tail)
  {
  }

  lemma First(frames: seq<Frame>, k: Keyword, more: seq<Keyword>)
    ensures Accepts(frames, [k] + more) <==> Push(frames, k).Some? && Accepts(Push(frames, k).value, more)
  {
    assert ([k] + more)[1..] == more;
  }

  /** The automaton passes over any derived list and leaves the frames as they were. */
  lemma {:induction false} Passes(s: Script, frames: seq<Frame>, more: seq<Keyword>)
    ensures Accepts(frames, Yield(s) + more) == Accepts(frames, more)
    decreases s
  {
    hide Accepts, Yield, YieldTail;
    match s
    case Empty =>
      YieldIs(s);
      assert [] + more == more;
    case Branch(condition, body, tail, rest) =>
      var afterBody := YieldTail(tail) + (Yield(rest) + more);
      var afterCondition := Yield(body) + afterBody;
      YieldIs(s);
      assert Yield(s) + more == [If] + (Yield(condition) + ([Then] + afterCondition));
      First(frames, If, Yield(condition) + ([Then] + afterCondition));
      Passes(condition, frames + [Condition], [Then] + afterCondition);
      First(frames + [Condition], Then, afterCondition);
      assert (frames + [Condition])[..|frames|] == frames;
      Passes(body, frames + [Body], afterBody);
      PassesTail(tail, frames, Yield(rest) + more);
      Passes(rest, frames, more);
    case Repeat(header, body, rest) =>
      var afterBody := [Done] + (Yield(rest) + more);
      var afterHeader := Yield(body) + afterBody;
      YieldIs(s);
      assert Yield(s) + more == [Loop] + (Yield(header) + ([Do] + afterHeader));
      First(frames, Loop, Yield(header) + ([Do] + afterHeader));
      Passes(header, frames + [Header], [Do] + afterHeader);
      First(frames + [Header], Do, afterHeader);
      assert (frames + [Header])[..|frames|] == frames;
      Passes(body, frames + [LoopBody], afterBody);
      First(frames + [LoopBody], Done, Yield(rest) + more);
      assert (frames + [LoopBody])[..|frames|] == frames;
      Passes(rest, frames, more);
  }

  lemma {:induction false} PassesTail(t: Tail, frames: seq<Frame>, more: seq<Keyword>)
    ensures Accepts(frames + [Body], YieldTail(t) + more) == Accepts(frames, more)
    decreases t
  {
    hide Accepts, Yield, YieldTail;
    YieldTailIs(t);
    var top := frames + [Body];
    assert top[..|frames|] == frames;
    match t
    case End =>
      First(top, Fi, more);
    case ElseIf(condition, body, tail) =>
      var afterCondition := Yield(body) + (YieldTail(tail) + more);
      assert YieldTail(t) + more == [Elif] + (Yield(condition) + ([Then] + afterCondition));
      First(top, Elif, Yield(condition) + ([Then] + afterCondition));
      Passes(condition, frames + [Condition], [Then] + afterCondition);
      First(frames + [Condition], Then, afterCondition);
      assert (frames + [Condition])[..|frames|] == frames;
      Passes(body, top, YieldTail(tail) + more);
      PassesTail(tail, frames, more);
    case Otherwise(body, tail) =>
      assert YieldTail(t) + more == [Else] + (Yield(body) + (YieldTail(tail) + more));
      First(top, Else, Yield(body) + (YieldTail(tail) + more));
      Passes(body, top, YieldTail(tail) + more);
      PassesTail(tail, frames, more);
  }

  predicate Opens(k: Keyword) { k.If? || k.Loop? }

  /** The longest derived prefix of an accepted list, and what is left of it. */
  lemma {:induction false} Descend(frames: seq<Frame>, ks: seq<Keyword>) returns (s: Script, rest: seq<Keyword>)
    requires Accepts(frames, ks)
    ensures ks == Yield(s) + rest && Accepts(frames, rest) && |rest| <= |ks|
    ensures rest == [] || !Opens(rest[0])
    decreases |ks|, 0, 1
  {
    hide Accepts, Yield, YieldTail;
    if ks == [] || !Opens(ks[0]) {
      s, rest := Empty, ks;
      YieldIs(s);
    } else if ks[0].If? {
      s, rest := DescendBranch(frames, ks);
    } else {
      s, rest := DescendLoop(frames, ks);
    }
  }

  lemma Flat<T>(a: seq<T>, b: seq<T>, c: seq<T>, d: seq<T>, e: seq<T>, f: seq<T>, g: seq<T>)
    ensures a + (b + (c + (d + (e + (f + g))))) == a + b + c + d + e + f + g
  {
  }

  lemma {:induction false} DescendBranch(frames: seq<Frame>, ks: seq<Keyword>) returns (s: Script, rest: seq<Keyword>)
    requires Accepts(frames, ks) && ks != [] && ks[0].If?
    ensures ks == Yield(s) + rest && Accepts(frames, rest) && |rest| <= |ks|
    ensures rest == [] || !Opens(rest[0])
    decreases |ks|, 0, 0
  {
    hide Accepts, Yield, YieldTail;
    First(frames, If, ks[1..]);
    assert ks == [If] + ks[1..];
    var condition, r1 := Descend(frames + [Condition], ks[1..]);
    Enters(frames, Condition, r1);
    assert r1 == [Then] + r1[1..];
    var body, r2 := Descend(frames + [Body], r1[1..]);
    var tail, r3 := DescendTail(frames, r2);
    var after, r4 := Descend(frames, r3);
    Flat([If], Yield(condition), [Then], Yield(body), YieldTail(tail), Yield(after), r4);
    s, rest := Branch(condition, body, tail, after), r4;
    YieldIs(s);
  }

  lemma {:induction false} DescendLoop(frames: seq<Frame>, ks: seq<Keyword>) returns (s: Script, rest: seq<Keyword>)
    requires Accepts(frames, ks) && ks != [] && ks[0].Loop?
    ensures ks == Yield(s) + rest && Accepts(frames, rest) && |rest| <= |ks|
    ensures rest == [] || !Opens(rest[0])
    decreases |ks|, 0, 0
  {
    hide Accepts, Yield, YieldTail;
    First(frames, Loop, ks[1..]);
    assert ks == [Loop] + ks[1..];
    var header, r1 := Descend(frames + [Header], ks[1..]);
    Enters(frames, Header, r1);
    assert r1 == [Do] + r1[1..];
    var body, r2 := Descend(frames + [LoopBody], r1[1..]);
    Enters(frames, LoopBody, r2);
    assert r2 == [Done] + r2[1..];
    var after, r3 := Descend(frames, r2[1..]);
    Flat([Loop], Yield(header), [Do], Yield(body), [Done], Yield(after), r3);
    s, rest := Repeat(header, body, after), r3;
    YieldIs(s);
  }

  /** A frame that is open must be moved on by the next keyword that opens nothing. */
  lemma Enters(frames: seq<Frame>, top: Frame, ks: seq<Keyword>)
    requires Accepts(frames + [top], ks) && (ks == [] || !Opens(ks[0]))
    ensures ks != []
    ensures match top
      case Condition => ks[0].Then? && Accepts(frames + [Body], ks[1..])
      case Body =>
        || (ks[0].Fi? && Accepts(frames, ks[1..]))
        || (ks[0].Elif? && Accepts(frames + [Condition], ks[1..]))
        || (ks[0].Else? && Accepts(frames + [Body], ks[1..]))
      case Header => ks[0].Do? && Accepts(frames + [LoopBody], ks[1..])
      case LoopBody => ks[0].Done? && Accepts(frames, ks[1..])
  {
    assert (frames + [top])[..|frames|] == frames;
  }

  lemma {:induction false} DescendTail(frames: seq<Frame>, ks: seq<Keyword>) returns (t: Tail, rest: seq<Keyword>)
    requires Accepts(frames + [Body], ks) && (ks == [] || !Opens(ks[0]))
    ensures ks == YieldTail(t) + rest && Accepts(frames, rest) && |rest| < |ks|
    decreases |ks|, 1, 0
  {
    hide Accepts, Yield, YieldTail;
    Enters(frames, Body, ks);
    assert ks == [ks[0]] + ks[1..];
    if ks[0].Fi? {
      t, rest := End, ks[1..];
    } else if ks[0].Elif? {
      var condition, r1 := Descend(frames + [Condition], ks[1..]);
      Enters(frames, Condition, r1);
      assert r1 == [Then] + r1[1..];
      var body, r2 := Descend(frames + [Body], r1[1..]);
      var tail, r3 := DescendTail(frames, r2);
      t, rest := ElseIf(condition, body, tail), r3;
    } else {
      var body, r1 := Descend(frames + [Body], ks[1..]);
      var tail, r2 := DescendTail(frames, r1);
      t, rest := Otherwise(body, tail), r2;
    }
    YieldTailIs(t);
  }

  /** The automaton accepts exactly the derivable keyword lists. */
  lemma AcceptsExactly(ks: seq<Keyword>)
    ensures Accepts([], ks) <==> exists s: Script :: Yield(s) == ks
  {
    if Accepts([], ks) {
      var s, rest := Descend([], ks);
      assert rest == [];
      assert Yield(s) == ks;
    }
    if s: Script :| Yield(s) == ks {
      Passes(s, [], []);
      assert Yield(s) + [] == ks;
    }
  }

  /** hasCompleteControlGrammar accepts a word list exactly when it has no empty
      parentheses, no open [[ test, and its keywords are derivable; refused words are
      in no derivation. */
  lemma CompleteExactly(words: seq<string>)
    ensures CompleteControl(words) <==>
      && !EmptyParentheses(words) && !PlaceAfter(words, Place(true, false)).test
      && exists s: Script :: Yield(s) == Keywords(words, Place(true, false))
  {
    AcceptsExactly(Keywords(words, Place(true, false)));
  }

  lemma {:induction false} NothingRefused(s: Script)
    ensures Refused !in Yield(s)
    decreases s
  {
    match s
    case Empty =>
    case Branch(condition, body, tail, rest) =>
      NothingRefused(condition); NothingRefused(body); NothingRefusedTail(tail); NothingRefused(rest);
    case Repeat(header, body, rest) =>
      NothingRefused(header); NothingRefused(body); NothingRefused(rest);
  }

  lemma {:induction false} NothingRefusedTail(t: Tail)
    ensures Refused !in YieldTail(t)
    decreases t
  {
    match t
    case End =>
    case ElseIf(condition, body, tail) =>
      NothingRefused(condition); NothingRefused(body); NothingRefusedTail(tail);
    case Otherwise(body, tail) =>
      NothingRefused(body); NothingRefusedTail(tail);
  }
}
