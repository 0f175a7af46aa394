/** The control sequences of src/lib/ptyEcho.ts as the regular expressions it tests, and
    that the recognisers of EchoText decide them. */
module EchoShape {
  import opened Basics
  import opened Regex
  import opened EchoText

  type Codes = EchoText.Codes

  function Lit(c: nat): Re<nat> { Class(x => x == c) }

  function Digits(): Re<nat> { Class(x => 48 <= x <= 57) }

  /** ESC [, something, and one of the final codes. */
  function Csi(inner: Re<nat>, finals: nat -> bool): Re<nat> { Cat(Lit(27), Cat(Lit(91), Cat(inner, Class(finals)))) }

  predicate HighLow(c: nat) { c == 104 || c == 108 }

  /** ESC [ ? (\d+;)* (47|1047|1049) (;\d+)* [hl] */
  function AlternateRe(): Re<nat> {
    Csi(Cat(Lit(63), Cat(Star(Cat(Plus(Digits()), Lit(59))),
                         Cat(Alt(Word([52, 55]), Alt(Word([49, 48, 52, 55]), Word([49, 48, 52, 57]))),
                             Star(Cat(Lit(59), Plus(Digits())))))),
        HighLow)
  }

  /** ESC [ ?? [\d;]+ [hl] */
  function ModeRe(): Re<nat> {
    Csi(Cat(Maybe(Lit(63)), Plus(Class(x => 48 <= x <= 57 || x == 59))), HighLow)
  }

  /** ESC [ [\d;:]* m */
  function ColourRe(): Re<nat> { Csi(Star(Class(x => 48 <= x <= 57 || x == 59 || x == 58)), x => x == 109) }

  /** ESC [ \d* [CDGK] */
  function MoveRe(): Re<nat> { Csi(Star(Digits()), x => x == 67 || x == 68 || x == 71 || x == 75) }

  /** ESC [ \d* C */
  function ForwardRe(): Re<nat> { Csi(Star(Digits()), x => x == 67) }

  /** ESC [ (?? [56] n | [>=]? \d* c | ?? \d+ $ p) */
  function QueryRe(): Re<nat> {
    Alt(Csi(Cat(Maybe(Lit(63)), Class(x => x == 53 || x == 54)), x => x == 110),
        Alt(Csi(Cat(Maybe(Class(x => x == 62 || x == 61)), Star(Digits())), x => x == 99),
            Csi(Cat(Cat(Maybe(Lit(63)), Plus(Digits())), Lit(36)), x => x == 112)))
  }

  /** ESC [ [0-?]* [ -/]* [@-~] */
  function SequenceRe(): Re<nat> {
    Csi(Cat(Star(Class(x => 0x30 <= x <= 0x3f)), Star(Class(x => 0x20 <= x <= 0x2f))), x => 0x40 <= x <= 0x7e)
  }

  lemma CsiIs(inner: Re<nat>, finals: nat -> bool, s: Codes)
    ensures Matches(Csi(inner, finals), s) <==>
      |s| >= 3 && s[0] == 27 && s[1] == 91 && finals(s[|s| - 1]) && Matches(inner, s[2..|s| - 1])
  {
    hide Matches;
    OneThen((x: nat) => x == 27, Cat(Lit(91), Cat(inner, Class(finals))), s);
    if s != [] {
      OneThen((x: nat) => x == 91, Cat(inner, Class(finals)), s[1..]);
      if |s| > 1 {
        assert s[1..][1..] == s[2..];
        ThenOne(inner, finals, s[2..]);
        assert |s| > 2 ==> s[2..][..|s| - 3] == s[2..|s| - 1];
      }
    }
  }

  // ------------------------------------------------------------ the alternate screen

  predicate IsNumber(g: Codes) { g != [] && forall k | 0 <= k < |g| :: 48 <= g[k] <= 57 }

  predicate AllNumbers(groups: seq<Codes>) { forall k | 0 <= k < |groups| :: IsNumber(groups[k]) }

  lemma {:induction false} GroupsSplit(d: Codes, rest: Codes)
    requires 59 !in d
    ensures Groups(d + [59] + rest) == [d] + Groups(rest)
    decreases |d|
  {
    var t := d + [59] + rest;
    if d == [] {
      assert t[1..] == rest;
    } else {
      assert t[1..] == d[1..] + [59] + rest;
      GroupsSplit(d[1..], rest);
      assert [d[0]] + d[1..] == d;
    }
  }

  lemma {:induction false} GroupsWhole(d: Codes)
    requires 59 !in d
    ensures Groups(d) == [d]
  {
    if d != [] {
      GroupsWhole(d[1..]);
      assert [d[0]] + d[1..] == d;
    }
  }

  lemma NumberIs(d: Codes)
    ensures Matches(Plus(Digits()), d) <==> IsNumber(d)
    ensures IsNumber(d) ==> 59 !in d
  {
    PlusOfClass((x: nat) => 48 <= x <= 57, d);
  }

  function FrontRe(): Re<nat> { Cat(Plus(Digits()), Lit(59)) }

  function BackRe(): Re<nat> { Cat(Lit(59), Plus(Digits())) }

  lemma FrontIs(s: Codes)
    ensures Matches(FrontRe(), s) <==> s != [] && s[|s| - 1] == 59 && IsNumber(s[..|s| - 1])
  {
    hide Matches;
    ThenOne(Plus(Digits()), (x: nat) => x == 59, s);
    if s != [] { NumberIs(s[..|s| - 1]); }
  }

  lemma BackIs(s: Codes)
    ensures Matches(BackRe(), s) <==> s != [] && s[0] == 59 && IsNumber(s[1..])
  {
    hide Matches;
    OneThen((x: nat) => x == 59, Plus(Digits()), s);
    if s != [] { NumberIs(s[1..]); }
  }

  lemma {:induction false} FrontGroups(a: Codes, rest: Codes) returns (ga: seq<Codes>)
    requires Matches(Star(FrontRe()), a)
    ensures AllNumbers(ga) && Groups(a + rest) == ga + Groups(rest)
    decreases |a|
  {
    hide Matches, FrontRe, Groups;
    if a == [] {
      ga := [];
      assert a + rest == rest;
    } else {
      var i := StarSplits(FrontRe(), a);
      FrontIs(a[..i]);
      var d := a[..i - 1];
      assert a[..i][..i - 1] == d && a[..i][i - 1] == 59;
      NumberIs(d);
      ga := FrontGroups(a[i..], rest);
      assert a + rest == d + [59] + (a[i..] + rest);
      GroupsSplit(d, a[i..] + rest);
      ga := [d] + ga;
    }
  }

  lemma {:induction false} BackGroups(d: Codes, c: Codes) returns (gc: seq<Codes>)
    requires 59 !in d && Matches(Star(BackRe()), c)
    ensures AllNumbers(gc) && Groups(d + c) == [d] + gc
    decreases |c|
  {
    hide Matches, BackRe, Groups;
    if c == [] {
      gc := [];
      assert d + c == d;
      GroupsWhole(d);
    } else {
      var i := StarSplits(BackRe(), c);
      BackIs(c[..i]);
      var g := c[1..i];
      assert c[..i][1..] == g && c[..i][0] == 59;
      NumberIs(g);
      gc := BackGroups(g, c[i..]);
      assert d + c == d + [59] + (g + c[i..]);
      GroupsSplit(d, g + c[i..]);
      gc := [g] + gc;
    }
  }

  /** The first group and what follows it. */
  lemma {:induction false} GroupsFirst(t: Codes) returns (d: Codes)
    ensures 59 !in d && Groups(t)[0] == d
    ensures (t == d && Groups(t) == [d]) || (|d| < |t| && t == d + [59] + t[|d| + 1..] && Groups(t) == [d] + Groups(t[|d| + 1..]))
    decreases |t|
  {
    if t == [] {
      d := [];
    } else if t[0] == 59 {
      d := [];
      assert t == [] + [59] + t[1..];
    } else {
      d := GroupsFirst(t[1..]);
      d := [t[0]] + d;
      if |d| < |t| {
        assert t == d + [59] + t[|d| + 1..];
        GroupsSplit(d, t[|d| + 1..]);
      } else {
        assert t == d;
        GroupsWhole(d);
      }
    }
  }

  lemma {:induction false} BackMatches(t: Codes)
    requires AllNumbers(Groups(t))
    ensures Matches(Star(BackRe()), [59] + t)
    decreases |t|
  {
    hide Matches, BackRe, Groups;
    var d := GroupsFirst(t);
    var s, i := [59] + t, |d| + 1;
    assert IsNumber(d);
    assert s[..i] == [59] + d && s[..i][1..] == d;
    BackIs(s[..i]);
    if t == d {
      assert s[i..] == [];
      StarOfNone(BackRe());
    } else {
      var rest := t[|d| + 1..];
      assert s[i..] == [59] + rest;
      forall k | 0 <= k < |Groups(rest)| ensures IsNumber(Groups(rest)[k]) { assert Groups(t)[k + 1] == Groups(rest)[k]; }
      BackMatches(rest);
    }
    StarIs(BackRe(), s, i);
  }

  function WhichRe(): Re<nat> { Alt(Word([52, 55]), Alt(Word([49, 48, 52, 55]), Word([49, 48, 52, 57]))) }

  predicate Which(g: Codes) { g == [52, 55] || g == [49, 48, 52, 55] || g == [49, 48, 52, 57] }

  lemma WhichIs(g: Codes)
    ensures Matches(WhichRe(), g) <==> Which(g)
    ensures Which(g) ==> IsNumber(g)
  {
    WordMatches([52, 55], g);
    WordMatches([49, 48, 52, 55], g);
    WordMatches([49, 48, 52, 57], g);
  }

  function TailRe(): Re<nat> { Cat(WhichRe(), Star(BackRe())) }

  function ListRe(): Re<nat> { Cat(Star(FrontRe()), TailRe()) }

  lemma ListHasGroups(t: Codes)
    requires Matches(ListRe(), t)
    ensures AllNumbers(Groups(t)) && exists k :: 0 <= k < |Groups(t)| && Which(Groups(t)[k])
  {
    hide Matches, Groups, FrontRe, BackRe, WhichRe, Which;
    var i := CatSplits(Star(FrontRe()), TailRe(), t);
    var s := t[i..];
    var j := CatSplits(WhichRe(), Star(BackRe()), s);
    WhichIs(s[..j]);
    NumberIs(s[..j]);
    assert t == t[..i] + s && s == s[..j] + s[j..];
    var ga := FrontGroups(t[..i], s);
    var gc := BackGroups(s[..j], s[j..]);
    assert Groups(t)[|ga|] == s[..j];
  }

  lemma WhichThen(t: Codes, n: nat)
    requires n <= |t| && Matches(WhichRe(), t[..n]) && Matches(Star(BackRe()), t[n..])
    ensures Matches(TailRe(), t)
  {
    hide Matches, WhichRe, BackRe;
    CatIs(WhichRe(), Star(BackRe()), t, n);
  }

  lemma {:induction false} GroupsMatchList(t: Codes, k: nat)
    requires AllNumbers(Groups(t)) && k < |Groups(t)| && Which(Groups(t)[k])
    ensures Matches(ListRe(), t)
    decreases k
  {
    hide Matches, Groups, FrontRe, BackRe, WhichRe, Which, TailRe;
    var d := GroupsFirst(t);
    if k == 0 {
      WhichIs(d);
      StarOfNone(BackRe());
      StarOfNone(FrontRe());
      assert t[..0] == [] && t[0..] == t && t[..|d|] == d;
      if t == d {
        assert t[|d|..] == [];
      } else {
        var rest := t[|d| + 1..];
        forall j | 0 <= j < |Groups(rest)| ensures IsNumber(Groups(rest)[j]) { assert Groups(t)[j + 1] == Groups(rest)[j]; }
        BackMatches(rest);
        assert t[|d|..] == [59] + rest;
      }
      WhichThen(t, |d|);
      CatIs(Star(FrontRe()), TailRe(), t, 0);
    } else {
      var n := |d| + 1;
      var rest := t[n..];
      assert Groups(t)[k] == Groups(rest)[k - 1];
      forall j | 0 <= j < |Groups(rest)| ensures IsNumber(Groups(rest)[j]) { assert Groups(t)[j + 1] == Groups(rest)[j]; }
      GroupsMatchList(rest, k - 1);
      var i := CatSplits(Star(FrontRe()), TailRe(), rest);
      assert t[..n + i][..n] == d + [59] && t[..n + i][n..] == rest[..i] && t[n + i..] == rest[i..];
      assert IsNumber(d) && (d + [59])[..|d|] == d;
      FrontIs(d + [59]);
      StarIs(FrontRe(), t[..n + i], n);
      CatIs(Star(FrontRe()), TailRe(), t, n + i);
    }
  }

  lemma AlternateExactly(s: Codes)
    ensures Matches(AlternateRe(), s) <==>
      |s| >= 3 && s[0] == 27 && s[1] == 91 && AlternateScreen(s[2..|s| - 1], s[|s| - 1])
  {
    hide Matches, Groups;
    CsiIs(Cat(Lit(63), ListRe()), HighLow, s);
    if |s| >= 3 {
      var params := s[2..|s| - 1];
      OneThen((x: nat) => x == 63, ListRe(), params);
      if params != [] {
        AsciiNumbers();
        var groups := Groups(params[1..]);
        assert forall k :: 0 <= k < |groups| ==> (IsNumber(groups[k]) <==> groups[k] != [] && EchoText.AllDigits(groups[k]));
        if Matches(ListRe(), params[1..]) { ListHasGroups(params[1..]); }
        if AllNumbers(groups) && exists k :: 0 <= k < |groups| && Which(groups[k]) {
          var k :| 0 <= k < |groups| && Which(groups[k]);
          GroupsMatchList(params[1..], k);
        }
      }
    }
  }

  lemma AsciiNumbers()
    ensures Ascii("47") == [52, 55] && Ascii("1047") == [49, 48, 52, 55] && Ascii("1049") == [49, 48, 52, 57]
  {
  }

  // ------------------------------------------------------------ the other recognisers

  lemma ModeIs(s: Codes)
    ensures Matches(ModeRe(), s) <==>
      && |s| >= 3 && s[0] == 27 && s[1] == 91 && HighLow(s[|s| - 1])
      && var body := After(s[2..|s| - 1], 63); body != [] && forall k :: 0 <= k < |body| ==> Digit(body[k]) || body[k] == 59
  {
    hide Matches;
    var has := (x: nat) => 48 <= x <= 57 || x == 59;
    CsiIs(Cat(Maybe(Lit(63)), Plus(Class(has))), HighLow, s);
    if |s| >= 3 {
      var params := s[2..|s| - 1];
      MaybeThen((x: nat) => x == 63, Plus(Class(has)), params);
      PlusOfClass(has, params);
      if params != [] { PlusOfClass(has, params[1..]); }
      assert params != [] && params[0] == 63 ==> !has(params[0]);
    }
  }

  lemma ColourIs(s: Codes)
    ensures Matches(ColourRe(), s) <==>
      && |s| >= 3 && s[0] == 27 && s[1] == 91 && s[|s| - 1] == 109
      && var params := s[2..|s| - 1]; forall k :: 0 <= k < |params| ==> Digit(params[k]) || params[k] == 59 || params[k] == 58
  {
    hide Matches;
    var has := (x: nat) => 48 <= x <= 57 || x == 59 || x == 58;
    CsiIs(Star(Class(has)), x => x == 109, s);
    if |s| >= 3 { StarOfClass(has, s[2..|s| - 1]); }
  }

  lemma DigitsIs(s: Codes)
    ensures Matches(Star(Digits()), s) <==> EchoText.AllDigits(s)
  {
    StarOfClass((x: nat) => 48 <= x <= 57, s);
  }

  lemma MoveIs(s: Codes)
    ensures Matches(MoveRe(), s) <==>
      |s| >= 3 && s[0] == 27 && s[1] == 91 && s[|s| - 1] in {67, 68, 71, 75} && EchoText.AllDigits(s[2..|s| - 1])
    ensures Matches(ForwardRe(), s) <==>
      |s| >= 3 && s[0] == 27 && s[1] == 91 && s[|s| - 1] == 67 && EchoText.AllDigits(s[2..|s| - 1])
  {
    hide Matches;
    CsiIs(Star(Digits()), x => x == 67 || x == 68 || x == 71 || x == 75, s);
    CsiIs(Star(Digits()), x => x == 67, s);
    if |s| >= 3 { DigitsIs(s[2..|s| - 1]); }
  }

  /** echoCsiKind decides its regular expressions, in its order. */
  lemma CsiKindExactly(s: Codes)
    ensures EchoCsiKind(s) ==
      if Matches(AlternateRe(), s) then Foreign
      else if Matches(ModeRe(), s) then Mode
      else if Matches(ColourRe(), s) || Matches(MoveRe(), s) then Decoration
      else Foreign
  {
    hide Matches, AlternateScreen, AlternateRe, ModeRe, ColourRe, MoveRe;
    AlternateExactly(s);
    ModeIs(s);
    ColourIs(s);
    MoveIs(s);
  }

  lemma QueryExactly(s: Codes)
    ensures IsQuery(s) <==> Matches(QueryRe(), s)
  {
    hide Matches;
    var fiveOrSix := (x: nat) => x == 53 || x == 54;
    var status := Csi(Cat(Maybe(Lit(63)), Class(fiveOrSix)), x => x == 110);
    var relation := (x: nat) => x == 62 || x == 61;
    var device := Csi(Cat(Maybe(Class(relation)), Star(Digits())), x => x == 99);
    var report := Csi(Cat(Cat(Maybe(Lit(63)), Plus(Digits())), Lit(36)), x => x == 112);
    AltIs(status, Alt(device, report), s);
    AltIs(device, report, s);
    CsiIs(Cat(Maybe(Lit(63)), Class(fiveOrSix)), x => x == 110, s);
    CsiIs(Cat(Maybe(Class(relation)), Star(Digits())), x => x == 99, s);
    CsiIs(Cat(Cat(Maybe(Lit(63)), Plus(Digits())), Lit(36)), x => x == 112, s);
    if |s| >= 3 {
      var params := s[2..|s| - 1];
      StatusParams(params);
      DeviceParams(params);
      ReportParams(params);
    }
  }

  lemma AltIs(a: Re<nat>, b: Re<nat>, s: Codes)
    ensures Matches(Alt(a, b), s) <==> Matches(a, s) || Matches(b, s)
  {
  }

  lemma StatusParams(params: Codes)
    ensures Matches(Cat(Maybe(Lit(63)), Class((x: nat) => x == 53 || x == 54)), params) <==> After(params, 63) in {[53], [54]}
  {
    var has := (x: nat) => x == 53 || x == 54;
    MaybeThen((x: nat) => x == 63, Class(has), params);
    assert |params| == 1 ==> params == [params[0]];
    assert |params| == 2 ==> params[1..] == [params[1]];
  }

  lemma DeviceParams(params: Codes)
    ensures Matches(Cat(Maybe(Class((x: nat) => x == 62 || x == 61)), Star(Digits())), params) <==>
      EchoText.AllDigits(if params != [] && params[0] in {62, 61} then params[1..] else params)
  {
    hide Matches;
    MaybeThen((x: nat) => x == 62 || x == 61, Star(Digits()), params);
    DigitsIs(params);
    if params != [] { DigitsIs(params[1..]); }
  }

  lemma ReportParams(params: Codes)
    ensures Matches(Cat(Cat(Maybe(Lit(63)), Plus(Digits())), Lit(36)), params) <==>
      && params != [] && params[|params| - 1] == 36
      && var number := After(params[..|params| - 1], 63); number != [] && EchoText.AllDigits(number)
  {
    hide Matches;
    ThenOne(Cat(Maybe(Lit(63)), Plus(Digits())), (x: nat) => x == 36, params);
    if params != [] {
      var front := params[..|params| - 1];
      MaybeThen((x: nat) => x == 63, Plus(Digits()), front);
      NumberIs(front);
      if front != [] { NumberIs(front[1..]); }
    }
  }

  // ------------------------------------------------------------ sequences within a text

  /** Where the run of codes in a range ends. */
  lemma {:induction false} RunIs(s: Codes, i: nat, low: nat, high: nat)
    requires i <= |s|
    ensures var end := Run(s, i, low, high);
      (forall k :: i <= k < end ==> low <= s[k] <= high) && (end < |s| ==> !(low <= s[end] <= high))
    decreases |s| - i
  {
    if i < |s| && low <= s[i] <= high { RunIs(s, i + 1, low, high); }
  }

  /** The text begins with a sequence of exactly this length, or with none. */
  lemma SequenceExactly(s: Codes)
    ensures var n := SequenceLength(s);
      && (n > 0 ==> Matches(SequenceRe(), s[..n]))
      && forall m :: 0 <= m <= |s| && Matches(SequenceRe(), s[..m]) ==> m == n
  {
    hide Matches, SequenceRe;
    forall m | 0 <= m <= |s| && Matches(SequenceRe(), s[..m]) ensures m == SequenceLength(s) { SequenceOf(s, m); }
    if SequenceLength(s) > 0 { SequenceFound(s); }
  }

  lemma SequenceFound(s: Codes)
    requires SequenceLength(s) > 0
    ensures Matches(SequenceRe(), s[..SequenceLength(s)])
  {
    hide Matches;
    var low := (x: nat) => 0x30 <= x <= 0x3f;
    var mid := (x: nat) => 0x20 <= x <= 0x2f;
    var a := Run(s, 2, 0x30, 0x3f);
    var b := Run(s, a, 0x20, 0x2f);
    RunIs(s, 2, 0x30, 0x3f);
    RunIs(s, a, 0x20, 0x2f);
    var t := s[..b + 1];
    var inner := t[2..|t| - 1];
    CsiIs(Cat(Star(Class(low)), Star(Class(mid))), x => 0x40 <= x <= 0x7e, t);
    assert forall k :: 0 <= k < |inner| ==> inner[k] == s[k + 2];
    var front, back := inner[..a - 2], inner[a - 2..];
    assert forall k :: 0 <= k < |front| ==> front[k] == s[k + 2];
    assert forall k :: 0 <= k < |back| ==> back[k] == s[a + k];
    StarOfClass(low, front);
    StarOfClass(mid, back);
    CatIs(Star(Class(low)), Star(Class(mid)), inner, a - 2);
  }

  lemma SequenceOf(s: Codes, m: nat)
    requires m <= |s| && Matches(SequenceRe(), s[..m])
    ensures SequenceLength(s) == m
  {
    hide Matches;
    var low := (x: nat) => 0x30 <= x <= 0x3f;
    var mid := (x: nat) => 0x20 <= x <= 0x2f;
    var t := s[..m];
    CsiIs(Cat(Star(Class(low)), Star(Class(mid))), x => 0x40 <= x <= 0x7e, t);
    var inner := t[2..|t| - 1];
    var j := CatSplits(Star(Class(low)), Star(Class(mid)), inner);
    StarOfClass(low, inner[..j]);
    StarOfClass(mid, inner[j..]);
    assert forall k :: 2 <= k < 2 + j ==> s[k] == inner[..j][k - 2];
    assert forall k :: 2 + j <= k < m - 1 ==> s[k] == inner[j..][k - 2 - j];
    RunStops(s, 2, 0x30, 0x3f, 2 + j);
    RunStops(s, 2 + j, 0x20, 0x2f, m - 1);
  }

  lemma {:induction false} RunStops(s: Codes, i: nat, low: nat, high: nat, end: nat)
    requires i <= end <= |s| && (forall k :: i <= k < end ==> low <= s[k] <= high)
    requires end < |s| ==> !(low <= s[end] <= high)
    ensures Run(s, i, low, high) == end
    decreases end - i
  {
    if i < end { RunStops(s, i + 1, low, high, end); }
  }

  // ------------------------------------------------------------ a line taken apart

  /** A character, or a whole control sequence. */
  datatype Bit = Char(c: nat) | Control(codes: Codes)

  function BitText(b: Bit): Codes { if b.Char? then [b.c] else b.codes }

  /** The text is these sequences and characters, read from the left: a character stands
      alone only where no sequence begins. */
  ghost predicate Divides(text: Codes, bits: seq<Bit>) {
    if bits == [] then text == []
    else
      && BitText(bits[0]) <= text
      && (match bits[0]
          case Control(codes) => Matches(SequenceRe(), codes)
          case Char(_) => forall m :: 0 <= m <= |text| ==> !Matches(SequenceRe(), text[..m]))
      && Divides(text[|BitText(bits[0])|..], bits[1..])
  }

  /** A terminal mode that is passed on: it sets or resets modes and is no switch to or
      from the alternate screen. */
  ghost predicate PassesMode(codes: Codes) { Matches(ModeRe(), codes) && !Matches(AlternateRe(), codes) }

  /** The mode sequences of a line, each once and in order. */
  ghost function ModesOf(bits: seq<Bit>): Codes {
    if bits == [] then []
    else (if bits[0].Control? && PassesMode(bits[0].codes) then bits[0].codes else []) + ModesOf(bits[1..])
  }

  /** Some sequence of the line ends in K. */
  predicate ErasesToEnd(bits: seq<Bit>) {
    exists k | 0 <= k < |bits| :: bits[k].Control? && bits[k].codes != [] && bits[k].codes[|bits[k].codes| - 1] == 75
  }

  /** The value of a decimal numeral, read from the left. */
  function Numeral(digits: Codes, high: nat): nat {
    if digits == [] then high
    else Numeral(digits[1..], 10 * high + (if digits[0] >= 48 then digits[0] - 48 else 0))
  }

  lemma {:induction false} NumeralLast(s: Codes, high: nat)
    requires s != []
    ensures Numeral(s, high) ==
      10 * Numeral(s[..|s| - 1], high) + (if s[|s| - 1] >= 48 then s[|s| - 1] - 48 else 0)
  {
    if |s| > 1 {
      assert s[1..][..|s| - 2] == s[..|s| - 1][1..];
      NumeralLast(s[1..], 10 * high + (if s[0] >= 48 then s[0] - 48 else 0));
    } else {
      assert s[1..] == [] && s[..0] == [];
    }
  }

  lemma {:induction false} ValueIs(s: Codes)
    ensures Value(s) == Numeral(s, 0)
    decreases |s|
  {
    if s != [] {
      NumeralLast(s, 0);
      ValueIs(s[..|s| - 1]);
    }
  }

  /** The blanks a cursor advance stands for: none for any other sequence, one for a count
      of nothing or of zero. */
  ghost function BlanksOf(codes: Codes): nat {
    if !Matches(ForwardRe(), codes) || |codes| < 3 then 0
    else
      var n := Numeral(codes[2..|codes| - 1], 0);
      if n == 0 then 1 else n
  }

  /** The printable text: advances become blanks while the budget lasts, and an ESC after
      that; other sequences go. */
  ghost function TextOf(bits: seq<Bit>, budget: nat): Codes {
    if bits == [] then []
    else
      match bits[0]
      case Char(c) => [c] + TextOf(bits[1..], budget)
      case Control(codes) =>
        var n := BlanksOf(codes);
        if n <= budget then Repeat(32, n) + TextOf(bits[1..], budget - n) else [27] + TextOf(bits[1..], budget)
  }

  lemma ControlIs(raw: Codes, n: nat)
    requires n == SequenceLength(raw) > 0
    ensures Matches(SequenceRe(), raw[..n]) && BlanksOf(raw[..n]) == Advance(raw[..n])
    ensures PassesMode(raw[..n]) <==> EchoCsiKind(raw[..n]).Mode?
  {
    hide Matches, SequenceRe, ForwardRe, ModeRe, AlternateRe, Value, Numeral;
    SequenceExactly(raw);
    MoveIs(raw[..n]);
    ValueIs(raw[..n][2..n - 1]);
    CsiKindExactly(raw[..n]);
  }

  lemma CharBit(raw: Codes, budget: nat, rest: seq<Bit>)
    requires raw != [] && SequenceLength(raw) == 0 && Divides(raw[1..], rest)
    requires Strip(raw[1..], budget) == Stripped(TextOf(rest, budget), ModesOf(rest), ErasesToEnd(rest))
    ensures var bits := [Char(raw[0])] + rest;
      Divides(raw, bits) && Strip(raw, budget) == Stripped(TextOf(bits, budget), ModesOf(bits), ErasesToEnd(bits))
  {
    hide Matches, SequenceRe, EchoCsiKind, SequenceLength, Advance, PassesMode, BlanksOf, ErasesToEnd;
    var bits := [Char(raw[0])] + rest;
    SequenceExactly(raw);
    SequenceNotEmpty();
    assert bits[1..] == rest && raw[..1] == [raw[0]] && raw[..0] == [];
    ErasesFirst(bits);
    assert [] + ModesOf(rest) == ModesOf(rest);
  }

  lemma ControlBit(raw: Codes, budget: nat, rest: seq<Bit>)
    requires SequenceLength(raw) > 0
    requires var n := SequenceLength(raw); var codes := raw[..n];
      var left := if Advance(codes) <= budget then budget - Advance(codes) else budget;
      Divides(raw[n..], rest) && Strip(raw[n..], left) == Stripped(TextOf(rest, left), ModesOf(rest), ErasesToEnd(rest))
    ensures var bits := [Control(raw[..SequenceLength(raw)])] + rest;
      Divides(raw, bits) && Strip(raw, budget) == Stripped(TextOf(bits, budget), ModesOf(bits), ErasesToEnd(bits))
  {
    hide Matches, SequenceRe, EchoCsiKind, SequenceLength, Advance, PassesMode, BlanksOf, ErasesToEnd, Repeat;
    var n := SequenceLength(raw);
    var codes := raw[..n];
    var bits := [Control(codes)] + rest;
    ControlIs(raw, n);
    assert bits[1..] == rest && codes[n - 1] == raw[n - 1];
    ErasesFirst(bits);
  }

  /** Every text divides, and the first pass of the normaliser gives what the parts say. */
  lemma {:induction false} StripExactly(raw: Codes, budget: nat) returns (bits: seq<Bit>)
    ensures Divides(raw, bits)
    ensures Strip(raw, budget) == Stripped(TextOf(bits, budget), ModesOf(bits), ErasesToEnd(bits))
    decreases |raw|
  {
    hide Divides, Strip, SequenceLength, Advance, TextOf, ModesOf, ErasesToEnd;
    if raw == [] {
      bits := [];
      NothingDivides(budget);
    } else if SequenceLength(raw) == 0 {
      bits := StripExactly(raw[1..], budget);
      CharBit(raw, budget, bits);
      bits := [Char(raw[0])] + bits;
    } else {
      var n := SequenceLength(raw);
      var count := Advance(raw[..n]);
      bits := StripExactly(raw[n..], if count <= budget then budget - count else budget);
      ControlBit(raw, budget, bits);
      bits := [Control(raw[..n])] + bits;
    }
  }

  lemma NothingDivides(budget: nat)
    ensures Divides([], []) && Strip([], budget) == Stripped(TextOf([], budget), ModesOf([]), ErasesToEnd([]))
  {
  }

  lemma ErasesFirst(bits: seq<Bit>)
    requires bits != []
    ensures ErasesToEnd(bits) <==>
      || (bits[0].Control? && bits[0].codes != [] && bits[0].codes[|bits[0].codes| - 1] == 75)
      || ErasesToEnd(bits[1..])
  {
    if ErasesToEnd(bits[1..]) {
      var k :| 0 <= k < |bits[1..]| && bits[1..][k].Control? && bits[1..][k].codes != []
        && bits[1..][k].codes[|bits[1..][k].codes| - 1] == 75;
      assert bits[k + 1] == bits[1..][k];
    }
    assert forall k :: 0 < k < |bits| ==> bits[k] == bits[1..][k - 1];
  }

  lemma {:induction false} OneDivision(text: Codes, a: seq<Bit>, b: seq<Bit>)
    requires Divides(text, a) && Divides(text, b)
    ensures a == b
    decreases |a|
  {
    hide Matches, SequenceRe;
    if a == [] || b == [] {
      SequenceNotEmpty();
      assert a == b;
    } else {
      SequenceExactly(text);
      SequenceNotEmpty();
      if a[0].Control? { assert text[..|a[0].codes|] == a[0].codes; }
      if b[0].Control? { assert text[..|b[0].codes|] == b[0].codes; }
      assert a[0] == b[0];
      OneDivision(text[|BitText(a[0])|..], a[1..], b[1..]);
      assert a == [a[0]] + a[1..] && b == [b[0]] + b[1..];
    }
  }

  lemma SequenceNotEmpty()
    ensures !Matches(SequenceRe(), [])
  {
    CsiIs(Cat(Star(Class((x: nat) => 0x30 <= x <= 0x3f)), Star(Class((x: nat) => 0x20 <= x <= 0x2f))), x => 0x40 <= x <= 0x7e, []);
  }

  // ------------------------------------------------------------ the printable line

  /** The first backspace takes the character before it, if there is one, and so on. */
  ghost predicate ErasesTo(s: Codes, t: Codes)
    decreases |s|
  {
    var i := IndexOf(s, BACKSPACE);
    if i == |s| then t == s
    else if i == 0 then ErasesTo(s[1..], t)
    else ErasesTo(s[..i - 1] + s[i + 1..], t)
  }

  lemma {:induction false} BackspacedSkips(kept: Codes, a: Codes, b: Codes)
    requires BACKSPACE !in a
    ensures Backspaced(kept, a + b) == Backspaced(kept + a, b)
    decreases |a|
  {
    if a == [] {
      assert a + b == b && kept + a == kept;
    } else {
      assert (a + b)[1..] == a[1..] + b && kept + [a[0]] + a[1..] == kept + a;
      BackspacedSkips(kept + [a[0]], a[1..], b);
    }
  }

  lemma {:induction false} BackspacedErases(s: Codes)
    ensures ErasesTo(s, Backspaced([], s))
    decreases |s|
  {
    hide IndexOf;
    var i := IndexOf(s, BACKSPACE);
    assert BACKSPACE !in s[..i];
    if i == |s| {
      assert s == s[..i] + [] && [] + s[..i] == s;
      BackspacedSkips([], s[..i], []);
    } else if i == 0 {
      BackspacedErases(s[1..]);
    } else {
      var a, b := s[..i], s[i + 1..];
      var front := s[..i - 1];
      assert s == a + ([BACKSPACE] + b) && ([BACKSPACE] + b)[1..] == b;
      BackspacedSkips([], a, [BACKSPACE] + b);
      assert [] + a == a && a[..|a| - 1] == front && [] + front == front;
      assert BACKSPACE !in front;
      BackspacedSkips([], front, b);
      BackspacedErases(front + b);
    }
  }

  /** The text without the characters at some places. */
  function Surviving(s: Codes, i: nat, gone: nat -> bool): Codes
    requires i <= |s|
    decreases |s| - i
  {
    if i == |s| then [] else (if gone(i) then [] else [s[i]]) + Surviving(s, i + 1, gone)
  }

  /** Part of a blank and the return after it. */
  predicate InWrap(s: Codes, i: nat) {
    && i < |s|
    && ((s[i] == 32 && i + 1 < |s| && s[i + 1] == 13) || (s[i] == 13 && i > 0 && s[i - 1] == 32))
  }

  /** A character that the row repeats after a return. */
  predicate Repeats(s: Codes, i: nat) { i + 2 < |s| && s[i] != 13 && s[i + 1] == 13 && s[i + 2] == s[i] }

  predicate InRepeat(s: Codes, i: nat) { Repeats(s, i) || (i > 0 && Repeats(s, i - 1)) }

  lemma {:induction false} UnwrappedIs(s: Codes, i: nat)
    requires i <= |s| && (0 < i < |s| ==> !(s[i] == 13 && s[i - 1] == 32))
    ensures Unwrapped(s[i..]) == Surviving(s, i, (k: nat) => InWrap(s, k))
    decreases |s| - i
  {
    if i < |s| {
      assert s[i..][1..] == s[i + 1..];
      if s[i] == 32 && i + 1 < |s| && s[i + 1] == 13 {
        assert s[i..][2..] == s[i + 2..];
        UnwrappedIs(s, i + 2);
        assert Surviving(s, i + 1, (k: nat) => InWrap(s, k)) == Surviving(s, i + 2, (k: nat) => InWrap(s, k));
      } else {
        UnwrappedIs(s, i + 1);
      }
    }
  }

  lemma {:induction false} RejoinedIs(s: Codes, i: nat)
    requires i <= |s| && (i > 0 ==> !Repeats(s, i - 1))
    ensures Rejoined(s[i..]) == Surviving(s, i, (k: nat) => InRepeat(s, k))
    decreases |s| - i
  {
    if i < |s| {
      assert s[i..][1..] == s[i + 1..];
      if Repeats(s, i) {
        assert s[i..][2..] == s[i + 2..];
        RejoinedIs(s, i + 2);
        assert Surviving(s, i + 1, (k: nat) => InRepeat(s, k)) == Surviving(s, i + 2, (k: nat) => InRepeat(s, k));
      } else {
        RejoinedIs(s, i + 1);
      }
    }
  }

  lemma {:induction false} TrailingIs(s: Codes, c: nat) returns (tail: Codes)
    ensures s == WithoutTrailing(s, c) + tail && forall k :: 0 <= k < |tail| ==> tail[k] == c
    ensures WithoutTrailing(s, c) != [] ==> WithoutTrailing(s, c)[|WithoutTrailing(s, c)| - 1] != c
    decreases |s|
  {
    if s != [] && s[|s| - 1] == c {
      tail := TrailingIs(s[..|s| - 1], c);
      assert s == s[..|s| - 1] + [c];
      tail := tail + [c];
    } else {
      tail := [];
    }
  }

  /** JavaScript's length of the text leaves this much of the budget for blanks. */
  function BudgetOf(raw: Codes): nat { if Units(raw) <= 65_536 then 65_536 - Units(raw) else 0 }

  ghost predicate Edits(text: Codes, erased: Codes, joined: Codes, tail: Codes, line: Codes) {
    && ErasesTo(text, erased)
    && var unwrapped := Surviving(erased, 0, (k: nat) => InWrap(erased, k));
       && joined == Surviving(unwrapped, 0, (k: nat) => InRepeat(unwrapped, k))
       && joined == line + tail && (forall k :: 0 <= k < |tail| ==> tail[k] == 13)
       && (line != [] ==> line[|line| - 1] != 13)
  }

  /** What a redrawn line shows: its sequences taken out, its backspaces carried out, its
      soft wraps and repeated characters joined, and the returns at its end dropped. */
  ghost predicate Shows(bits: seq<Bit>, budget: nat, line: Codes) {
    exists erased, joined, tail :: Edits(TextOf(bits, budget), erased, joined, tail, line)
  }

  /** No C0, DEL or C1 control but backspace, line feed and return. */
  predicate Printable(s: Codes) {
    forall k | 0 <= k < |s| :: s[k] in {8, 10, 13} || 32 <= s[k] <= 126 || s[k] >= 160
  }

  lemma PrintableIs(s: Codes)
    ensures Printable(s) <==> !HasUnprintable(s)
  {
    assert forall k :: 0 <= k < |s| ==> (Unprintable(s[k]) <==> !(s[k] in {8, 10, 13} || 32 <= s[k] <= 126 || s[k] >= 160));
  }

  /** The normaliser gives exactly what the parts of the line say, or nothing when a control
      is left that it cannot edit. */
  lemma NormalizeExactly(raw: Codes) returns (bits: seq<Bit>)
    ensures Divides(raw, bits)
    ensures Normalize(raw).Some? <==> Printable(TextOf(bits, BudgetOf(raw)))
    ensures Normalize(raw).Some? ==>
      && Normalize(raw).value.modes == ModesOf(bits) && Normalize(raw).value.clearToEnd == ErasesToEnd(bits)
      && Shows(bits, BudgetOf(raw), Normalize(raw).value.text)
  {
    hide Divides, Strip, ModesOf, ErasesToEnd, TextOf, HasUnprintable, Printable, Units;
    bits := StripExactly(raw, BudgetOf(raw));
    PrintableIs(TextOf(bits, BudgetOf(raw)));
    if Normalize(raw).Some? { ShowsIs(bits, BudgetOf(raw)); }
  }

  lemma ShowsIs(bits: seq<Bit>, budget: nat)
    ensures Shows(bits, budget, WithoutTrailing(Rejoined(Unwrapped(Backspaced([], TextOf(bits, budget)))), CR))
  {
    hide TextOf, ErasesTo, Backspaced, Unwrapped, Rejoined, WithoutTrailing, Surviving, InWrap, InRepeat;
    var text := TextOf(bits, budget);
    BackspacedErases(text);
    var erased := Backspaced([], text);
    UnwrappedIs(erased, 0);
    assert erased[0..] == erased;
    var unwrapped := Unwrapped(erased);
    RejoinedIs(unwrapped, 0);
    assert unwrapped[0..] == unwrapped;
    var joined := Rejoined(unwrapped);
    var tail := TrailingIs(joined, CR);
    assert Edits(text, erased, joined, tail, WithoutTrailing(joined, CR));
  }

  // ------------------------------------------------------------ what replaces a line

  /** The text that a proven echo is replaced by: for a hidden line, a return and an erase;
      for a command, an erase to the end if the line held one, the command and a new line;
      and then the modes the line set. */
  ghost predicate Replaces(out: Codes, visible: Option<Codes>, bits: seq<Bit>) {
    match visible
    case None => out == [13, 27, 91, 50, 75] + ModesOf(bits)
    case Some(command) => out == (if ErasesToEnd(bits) then [27, 91, 75] else []) + command + [13, 10] + ModesOf(bits)
  }

  /** A line divides into parts that show this text and nothing unprintable. */
  ghost predicate Reads(text: Codes, bits: seq<Bit>, line: Codes) {
    && Divides(text, bits) && Shows(bits, BudgetOf(text), line)
    && Printable(TextOf(bits, BudgetOf(text)))
  }

  /** The bytes are the replacement of an echo of this line, and what follows them. */
  ghost predicate Swapped(encode: Codes -> Codes, out: Codes, text: Codes, line: Codes, visible: Option<Codes>, rest: Codes) {
    exists bits, shown :: Reads(text, bits, line) && Replaces(shown, visible, bits) && out == encode(shown) + rest
  }

  // ------------------------------------------------------------ what an echoed line may hold

  /** A sequence that an echoed command line may hold. */
  ghost predicate EchoSequence(s: Codes) {
    !Matches(AlternateRe(), s) && (Matches(ModeRe(), s) || Matches(ColourRe(), s) || Matches(MoveRe(), s))
  }

  /** The beginning of a sequence whose end is not there. */
  predicate Unfinished(s: Codes) {
    s == [27] || (|s| >= 2 && s[0] == 27 && s[1] == 91 && forall k | 2 <= k < |s| :: 0x20 <= s[k] <= 0x3f)
  }

  predicate Harmless(c: nat) { c == 8 || c == 13 || (c >= 32 && c != 127) }

  /** The bytes are harmless characters and echo sequences, the last one perhaps
      unfinished. */
  ghost predicate Quiet(s: Codes)
    decreases |s|
  {
    || s == [] || Unfinished(s)
    || (Harmless(s[0]) && Quiet(s[1..]))
    || (exists n :: 0 < n <= |s| && EchoSequence(s[..n]) && Quiet(s[n..]))
  }

  lemma KindIsEcho(s: Codes)
    ensures EchoSequence(s) <==> !EchoCsiKind(s).Foreign?
    ensures EchoSequence(s) ==> |s| >= 3 && s[0] == 27 && s[1] == 91 && !Parameter(s[|s| - 1])
    ensures EchoSequence(s) ==> forall k :: 2 <= k < |s| - 1 ==> Parameter(s[k])
  {
    hide Matches, AlternateRe, ModeRe, ColourRe, MoveRe, EchoCsiKind;
    CsiKindExactly(s);
    ModeIs(s);
    ColourIs(s);
    MoveIs(s);
    if EchoSequence(s) && |s| >= 3 { ParametersOf(s); }
  }

  lemma ParametersOf(s: Codes)
    requires |s| >= 3
    requires var params := s[2..|s| - 1]; var body := After(params, 63);
      || (forall k :: 0 <= k < |body| ==> Digit(body[k]) || body[k] == 59)
      || (forall k :: 0 <= k < |params| ==> Digit(params[k]) || params[k] == 59 || params[k] == 58)
      || EchoText.AllDigits(params)
    ensures forall k :: 2 <= k < |s| - 1 ==> Parameter(s[k])
  {
    var params := s[2..|s| - 1];
    var body := After(params, 63);
    forall k | 2 <= k < |s| - 1 ensures Parameter(s[k]) {
      assert s[k] == params[k - 2];
      if body != params && k > 2 { assert body[k - 3] == params[k - 2]; }
    }
  }

  lemma {:induction false} CsiEndIs(s: Codes, i: nat, end: nat)
    requires i <= end <= |s| && (forall k :: i <= k < end ==> Parameter(s[k])) && (end < |s| ==> !Parameter(s[end]))
    ensures CsiEnd(s, i) == end
    decreases end - i
  {
    if i < end { CsiEndIs(s, i + 1, end); }
  }

  lemma NoEcho(s: Codes, n: nat)
    requires 0 < n <= |s| && !(|s| >= 2 && s[0] == 27 && s[1] == 91)
    ensures !EchoSequence(s[..n])
  {
    hide EchoSequence;
    KindIsEcho(s[..n]);
  }

  /** The byte test finds a control exactly when the bytes are not of that shape. */
  lemma {:induction false} NoisyExactly(s: Codes)
    ensures HasNonEchoControl(s) <==> !Quiet(s)
    decreases |s|
  {
    hide EchoSequence, EchoCsiKind;
    if s == [] {
    } else if s[0] != ESC {
      NoisyExactly(s[1..]);
      forall n | 0 < n <= |s| ensures !EchoSequence(s[..n]) { NoEcho(s, n); }
    } else if |s| >= 2 && s[1] == 91 {
      var end := CsiEnd(s, 2);
      if end < |s| {
        NoisyExactly(s[end + 1..]);
        KindIsEcho(s[..end + 1]);
        forall n | 0 < n <= |s| && EchoSequence(s[..n]) ensures n == end + 1 {
          KindIsEcho(s[..n]);
          assert forall k :: 2 <= k < n - 1 ==> s[..n][k] == s[k];
          CsiEndIs(s, 2, n - 1);
        }
      } else {
        assert Unfinished(s);
      }
    } else {
      forall n | 0 < n <= |s| ensures !EchoSequence(s[..n]) { NoEcho(s, n); }
      assert s != [27] ==> !Unfinished(s);
    }
  }

  // ------------------------------------------------------------ what leads the output

  /** Leading traffic: the opener of a string, a query, or an echo sequence. */
  ghost predicate Leads(s: Codes) { s == [27, 93] || s == [27, 80] || Matches(QueryRe(), s) || EchoSequence(s) }

  lemma LeadExactly(s: Codes)
    ensures var n := LeadLength(s);
      && (n > 0 ==> Leads(s[..n]))
      && forall m :: 0 < m <= |s| && Leads(s[..m]) ==> m == n
  {
    hide EchoSequence, EchoCsiKind, IsQuery, Matches, QueryRe;
    forall m | 0 < m <= |s| && Leads(s[..m]) ensures m == LeadLength(s) { LeadOf(s, m); }
    var n := LeadLength(s);
    if n > 0 {
      QueryExactly(s[..n]);
      KindIsEcho(s[..n]);
      if s[1] == 93 || s[1] == 80 { assert s[..2] == [s[0], s[1]]; }
    }
  }

  lemma LeadOf(s: Codes, m: nat)
    requires 0 < m <= |s| && Leads(s[..m])
    ensures LeadLength(s) == m
  {
    hide EchoSequence, EchoCsiKind, IsQuery, Matches, QueryRe;
    var t := s[..m];
    QueryExactly(t);
    KindIsEcho(t);
    if IsQuery(t) { QueryShape(t); }
    assert forall k :: 0 <= k < m ==> t[k] == s[k];
    if t[1] == 91 { CsiEndIs(s, 2, m - 1); }
  }

  lemma QueryShape(s: Codes)
    requires IsQuery(s)
    ensures |s| >= 3 && s[0] == 27 && s[1] == 91 && !Parameter(s[|s| - 1]) && forall k :: 2 <= k < |s| - 1 ==> Parameter(s[k])
  {
    var params := s[2..|s| - 1];
    forall k | 2 <= k < |s| - 1 ensures Parameter(s[k]) {
      assert s[k] == params[k - 2];
      if s[|s| - 1] == 110 { StatusHas(params, k - 2); }
      else if s[|s| - 1] == 99 { DeviceHas(params, k - 2); }
      else { ReportHas(params, k - 2); }
    }
  }

  lemma StatusHas(params: Codes, k: nat)
    requires k < |params| && After(params, 63) in {[53], [54]}
    ensures Parameter(params[k])
  {
    var body := After(params, 63);
    assert body[0] == 53 || body[0] == 54;
  }

  lemma DeviceHas(params: Codes, k: nat)
    requires k < |params| && EchoText.AllDigits(if params[0] in {62, 61} then params[1..] else params)
    ensures Parameter(params[k])
  {
    if params[0] in {62, 61} && k > 0 { assert params[k] == params[1..][k - 1]; }
  }

  lemma ReportHas(params: Codes, k: nat)
    requires k < |params| && params[|params| - 1] == 36 && EchoText.AllDigits(After(params[..|params| - 1], 63))
    ensures Parameter(params[k])
  {
    var front := params[..|params| - 1];
    var body := After(front, 63);
    if k < |front| {
      assert params[k] == front[k];
      if body != front && k > 0 { assert body[k - 1] == front[k]; }
    }
  }

  // ------------------------------------------------------------ what ends an expectation

  /** 6973;RP; thirty-two hexadecimal digits and a semicolon, at the front. */
  ghost predicate HasReply(prefix: Codes, nonce: Codes) {
    && [54, 57, 55, 51, 59, 82, 80, 59] + nonce + [59] <= prefix
    && |nonce| == 32 && forall k :: 0 <= k < 32 ==> 48 <= nonce[k] <= 57 || 97 <= nonce[k] <= 102
  }

  lemma ReplyExactly(kind: StringKind, prefix: Codes, nonce: Codes)
    ensures ReplyNonce(kind, prefix) == Some(nonce) <==> kind.Osc? && HasReply(prefix, nonce)
  {
    assert Ascii("6973;RP;") == [54, 57, 55, 51, 59, 82, 80, 59];
    if ReplyNonce(kind, prefix) == Some(nonce) {
      assert prefix == prefix[..8] + prefix[8..40] + [prefix[40]] + prefix[41..];
    }
    if HasReply(prefix, nonce) {
      var head := [54, 57, 55, 51, 59, 82, 80, 59] + nonce + [59];
      assert prefix[..41] == head;
      assert prefix[..8] == head[..8] && prefix[8..40] == head[8..40] && prefix[40] == head[40];
    }
  }

  /** 6973; at the front, or 133; with A, C or D that is the whole or is followed by a
      semicolon, BEL or ESC. */
  predicate Announces(prefix: Codes) {
    [54, 57, 55, 51, 59] <= prefix || MarkAt(prefix, 65) || MarkAt(prefix, 67) || MarkAt(prefix, 68)
  }

  predicate MarkAt(prefix: Codes, c: nat) {
    || prefix == [49, 51, 51, 59, c] || [49, 51, 51, 59, c, 59] <= prefix
    || [49, 51, 51, 59, c, 7] <= prefix || [49, 51, 51, 59, c, 27] <= prefix
  }

  lemma LifecycleExactly(kind: StringKind, prefix: Codes)
    ensures IsLifecycle(kind, prefix) <==> kind.Osc? && Announces(prefix)
  {
    assert Ascii("6973;") == [54, 57, 55, 51, 59] && Ascii("133;") == [49, 51, 51, 59];
    if |prefix| >= 5 {
      var c := prefix[4];
      assert prefix[..5] == prefix[..4] + [c];
      if |prefix| > 5 { assert prefix[..6] == prefix[..4] + [c, prefix[5]]; } else { assert prefix == prefix[..5]; }
      forall d ensures MarkAt(prefix, d) <==> prefix[..4] == [49, 51, 51, 59] && d == c && (|prefix| == 5 || prefix[5] in {59, 7, 27}) {
        MarkIs(prefix, d);
      }
    }
  }

  lemma MarkIs(prefix: Codes, d: nat)
    requires |prefix| >= 5
    ensures MarkAt(prefix, d) <==> prefix[..4] == [49, 51, 51, 59] && d == prefix[4] && (|prefix| == 5 || prefix[5] in {59, 7, 27})
  {
    var c := prefix[4];
    assert prefix[..5] == prefix[..4] + [c];
    if |prefix| > 5 { assert prefix[..6] == prefix[..4] + [c, prefix[5]]; } else { assert prefix == prefix[..5]; }
    if prefix[..4] == [49, 51, 51, 59] && d == c && |prefix| > 5 && prefix[5] in {59, 7, 27} {
      assert prefix[..6] == [49, 51, 51, 59, d, prefix[5]];
    }
    if [49, 51, 51, 59, d, 59] <= prefix { assert prefix[..4] == [49, 51, 51, 59, d, 59][..4]; }
    if [49, 51, 51, 59, d, 7] <= prefix { assert prefix[..4] == [49, 51, 51, 59, d, 7][..4]; }
    if [49, 51, 51, 59, d, 27] <= prefix { assert prefix[..4] == [49, 51, 51, 59, d, 27][..4]; }
  }
}
