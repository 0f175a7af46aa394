/** How the splitter of src/lib/nesting.ts cuts a command into words: the parts of shell
    text that make it up, the words they spell, and when the command is compound. */
module ShellWords {
  import opened Basics
  import opened ShellScan
  import opened ShellQuoting

  /** A part of double-quoted text: a character, an escape, or a backslash that stays. */
  datatype Part = Char(c: char) | Escape(c: char) | Kept(c: char)

  /** A part of a command outside double quotes. */
  datatype Atom = Blank(c: char) | Plain(c: char) | Escaped(c: char) | InSingle(text: string) | InDouble(parts: seq<Part>)

  /** How a command ends: in full, with a backslash, or in quotes, perhaps on a backslash. */
  datatype Ending = Full | Cut | OpenSingle(text: string) | OpenDouble(parts: seq<Part>, cut: bool)

  const ESCAPED: string := "$`\"\\\n"

  predicate GoodPart(p: Part) {
    match p
    case Char(c) => c != '"' && c != '\\'
    case Escape(c) => c in ESCAPED
    case Kept(c) => c !in ESCAPED
  }

  predicate GoodParts(parts: seq<Part>) { forall p | p in parts :: GoodPart(p) }

  predicate Good(a: Atom) {
    match a
    case Blank(c) => IsSpaceCode(c as int)
    case Plain(c) => !IsSpaceCode(c as int) && c !in "\\'\""
    case Escaped(_) => true
    case InSingle(text) => '\'' !in text
    case InDouble(parts) => GoodParts(parts)
  }

  predicate GoodEnding(e: Ending) {
    match e
    case OpenSingle(text) => '\'' !in text
    case OpenDouble(parts, _) => GoodParts(parts)
    case _ => true
  }

  // ------------------------------------------------------------ spelling

  function PartText(p: Part): string { if p.Char? then [p.c] else ['\\', p.c] }

  function PartsText(parts: seq<Part>): string { if parts == [] then "" else PartText(parts[0]) + PartsText(parts[1..]) }

  function AtomText(a: Atom): string {
    match a
    case Blank(c) => [c]
    case Plain(c) => [c]
    case Escaped(c) => ['\\', c]
    case InSingle(text) => ['\''] + text + ['\'']
    case InDouble(parts) => ['"'] + PartsText(parts) + ['"']
  }

  function AtomsText(atoms: seq<Atom>): string { if atoms == [] then "" else AtomText(atoms[0]) + AtomsText(atoms[1..]) }

  function EndingText(e: Ending): string {
    match e
    case Full => ""
    case Cut => "\\"
    case OpenSingle(text) => ['\''] + text
    case OpenDouble(parts, cut) => ['"'] + PartsText(parts) + if cut then ['\\'] else []
  }

  ghost predicate Spells(atoms: seq<Atom>, e: Ending, command: string) {
    (forall a :: a in atoms ==> Good(a)) && GoodEnding(e) && command == AtomsText(atoms) + EndingText(e)
  }

  // ------------------------------------------------------------ words

  /** An escaped line feed stands for nothing. */
  function PartValue(p: Part): string {
    match p
    case Char(c) => [c]
    case Escape(c) => if c == '\n' then "" else [c]
    case Kept(c) => ['\\', c]
  }

  function PartsValue(parts: seq<Part>): string { if parts == [] then "" else PartValue(parts[0]) + PartsValue(parts[1..]) }

  function Value(a: Atom): string {
    match a
    case Blank(_) => ""
    case Plain(c) => [c]
    case Escaped(c) => if c == '\n' then "" else [c]
    case InSingle(text) => text
    case InDouble(parts) => PartsValue(parts)
  }

  function Listed(word: Option<string>): seq<string> { if word.Some? then [word.value] else [] }

  function Extended(word: Option<string>, more: string): Option<string> { Some((if word.Some? then word.value else "") + more) }

  /** The word that the last atoms belong to, if they are not behind a blank. */
  function Begun(atoms: seq<Atom>, word: Option<string>): Option<string> {
    if atoms == [] then word
    else Begun(atoms[1..], if atoms[0].Blank? then None else Extended(word, Value(atoms[0])))
  }

  /** The words that a blank ends. */
  function Ended(atoms: seq<Atom>, word: Option<string>): seq<string> {
    if atoms == [] then []
    else if atoms[0].Blank? then Listed(word) + Ended(atoms[1..], None)
    else Ended(atoms[1..], Extended(word, Value(atoms[0])))
  }

  /** The last word counts with what an open quote has added to it, but not before a
      backslash that ends the text. */
  function Words(atoms: seq<Atom>, e: Ending, word: Option<string>): seq<string> {
    Ended(atoms, word) +
    match e
    case Full => Listed(Begun(atoms, word))
    case Cut => []
    case OpenSingle(text) => Listed(Extended(Begun(atoms, word), text))
    case OpenDouble(parts, cut) => if cut then [] else Listed(Extended(Begun(atoms, word), PartsValue(parts)))
  }

  /** An operator, or a number sign where a word could begin, outside quotes and escapes. */
  predicate Operates(atoms: seq<Atom>, k: nat, inWord: bool)
    requires k < |atoms|
  {
    && atoms[k].Plain?
    && (atoms[k].c in ";&|<>()`" || (atoms[k].c == '#' && if k == 0 then !inWord else atoms[k - 1].Blank?))
  }

  predicate Compound(atoms: seq<Atom>, inWord: bool) { exists k | 0 <= k < |atoms| :: Operates(atoms, k, inWord) }

  // ------------------------------------------------------------ the splitter spells them

  function WordOf(r: Reader): Option<string> { if r.started then Some(r.current) else None }

  /** A reader whose unbegun word is empty. */
  predicate Neat(r: Reader) { r.started || r.current == "" }

  function Expected(r: Reader, atoms: seq<Atom>, e: Ending): Split {
    Split(r.words + Words(atoms, e, WordOf(r)), e.Full?, r.compound || Compound(atoms, r.started))
  }

  lemma CompoundFirst(a: Atom, rest: seq<Atom>, inWord: bool)
    ensures Compound([a] + rest, inWord) <==>
      (a.Plain? && (a.c in ";&|<>()`" || (a.c == '#' && !inWord))) || Compound(rest, !a.Blank?)
  {
    var all := [a] + rest;
    if Compound(rest, !a.Blank?) {
      var k :| 0 <= k < |rest| && Operates(rest, k, !a.Blank?);
      assert all[k + 1] == rest[k] && (k > 0 ==> all[k] == rest[k - 1]);
      assert Operates(all, k + 1, inWord);
    }
    if a.Plain? && (a.c in ";&|<>()`" || (a.c == '#' && !inWord)) { assert Operates(all, 0, inWord); }
    if Compound(all, inWord) {
      var k :| 0 <= k < |all| && Operates(all, k, inWord);
      if k > 0 {
        assert all[k] == rest[k - 1] && (k > 1 ==> all[k - 1] == rest[k - 2]);
        assert Operates(rest, k - 1, !a.Blank?);
      }
    }
  }

  /** One atom ahead of the others. */
  lemma Ahead(r: Reader, a: Atom, atoms: seq<Atom>, e: Ending, next: Reader)
    requires r.quote.Bare? && Neat(r)
    requires next == if a.Blank? then Reader(r.Word(), "", false, Bare, r.compound)
      else r.(current := r.current + Value(a), started := true,
              compound := r.compound || (a.Plain? && (a.c in ";&|<>()`" || (a.c == '#' && !r.started))))
    ensures Expected(r, [a] + atoms, e) == Expected(next, atoms, e)
  {
    hide Value, Compound;
    CompoundFirst(a, atoms, r.started);
    assert ([a] + atoms)[1..] == atoms && ([a] + atoms)[0] == a;
    assert Words([a] + atoms, e, WordOf(r)) == (if a.Blank? then Listed(WordOf(r)) else []) + Words(atoms, e, WordOf(next));
    assert r.Word() == r.words + Listed(WordOf(r));
  }

  /** From inside single quotes to the closing quote or the end. */
  lemma {:induction false} SingleTail(r: Reader, text: string, i: nat) returns (body: string)
    requires r.quote.Single? && r.started && i <= |text|
    ensures var j := i + |body|;
      && j <= |text| && text[i..j] == body && '\'' !in body
      && (if j == |text| then SplitFrom(r, text, i) == Split(r.words + [r.current + body], false, r.compound)
          else text[j] == '\'' && SplitFrom(r, text, i) == SplitFrom(r.(current := r.current + body, quote := Bare), text, j + 1))
    decreases |text| - i
  {
    hide IsSpace;
    body := "";
    assert r.current + "" == r.current;
    if i < |text| && text[i] != '\'' {
      var rest := SingleTail(r.Take(text[i]), text, i + 1);
      body := [text[i]] + rest;
      assert r.current + [text[i]] + rest == r.current + body;
      assert text[i..i + |body|] == [text[i]] + text[i + 1..i + 1 + |rest|];
    }
  }

  /** What ends a double-quoted text. */
  datatype Shut = Closed | Unclosed | CutOff

  function ShutText(how: Shut): string {
    match how
    case Closed => "\""
    case Unclosed => ""
    case CutOff => "\\"
  }

  /** What the splitter makes of a double-quoted text that ends at j. */
  ghost predicate AfterDouble(r: Reader, text: string, i: nat, value: string, how: Shut, j: nat) {
    match how
    case Closed => SplitFrom(r, text, i) == SplitFrom(r.(current := r.current + value, quote := Bare), text, j)
    case Unclosed => j == |text| && SplitFrom(r, text, i) == Split(r.words + [r.current + value], false, r.compound)
    case CutOff => j == |text| && SplitFrom(r, text, i) == Split(r.words, false, r.compound)
  }

  lemma {:induction false} DoubleTail(r: Reader, text: string, i: nat) returns (parts: seq<Part>, how: Shut)
    requires r.quote.Double? && r.started && i <= |text|
    ensures var j := i + |PartsText(parts)| + |ShutText(how)|;
      && j <= |text| && text[i..j] == PartsText(parts) + ShutText(how) && GoodParts(parts)
      && AfterDouble(r, text, i, PartsValue(parts), how, j)
    decreases |text| - i
  {
    hide SplitFrom, PartsText, PartsValue, GoodPart, PartText, PartValue;
    PartsEmpty();
    parts := [];
    assert r.current + "" == r.current;
    if i == |text| {
      how := Unclosed;
      AtEnd(r, text);
    } else if text[i] == '"' {
      how := Closed;
      DoubleStep(r, text, i);
      assert text[i..i + 1] == "\"";
    } else if text[i] == '\\' && i + 1 == |text| {
      how := CutOff;
      CutStep(r, text, i);
      assert text[i..i + 1] == "\\";
    } else {
      var p := PartAt(r, text, i);
      var n := |PartText(p)|;
      var r' := r.(current := r.current + PartValue(p));
      PartGoes(p);
      var rest;
      rest, how := DoubleTail(r', text, i + n);
      parts := [p] + rest;
      PartsFirst(p, rest);
      DoubleJoins(r, text, i, p, rest, how);
    }
  }

  lemma PartGoes(p: Part)
    ensures PartText(p) != ""
  {
  }

  /** A part ahead of the others. */
  lemma DoubleJoins(r: Reader, text: string, i: nat, p: Part, rest: seq<Part>, how: Shut)
    requires var n := |PartText(p)|; var j := i + n + |PartsText(rest)| + |ShutText(how)|;
      && j <= |text| && text[i..i + n] == PartText(p) && text[i + n..j] == PartsText(rest) + ShutText(how)
      && var r' := r.(current := r.current + PartValue(p));
         SplitFrom(r, text, i) == SplitFrom(r', text, i + n) && AfterDouble(r', text, i + n, PartsValue(rest), how, j)
    ensures var j := i + |PartsText([p] + rest)| + |ShutText(how)|;
      && j <= |text| && text[i..j] == PartsText([p] + rest) + ShutText(how)
      && AfterDouble(r, text, i, PartsValue([p] + rest), how, j)
  {
    hide SplitFrom, PartsText, PartsValue, PartText, PartValue, ShutText;
    PartsFirst(p, rest);
    var n := |PartText(p)|;
    var j := i + n + |PartsText(rest)| + |ShutText(how)|;
    assert r.current + PartValue(p) + PartsValue(rest) == r.current + PartsValue([p] + rest);
    assert text[i..j] == text[i..i + n] + text[i + n..j];
    assert PartText(p) + (PartsText(rest) + ShutText(how)) == PartsText([p] + rest) + ShutText(how);
  }

  lemma PartsEmpty()
    ensures PartsText([]) == "" && PartsValue([]) == ""
  {
  }

  lemma PartsFirst(p: Part, rest: seq<Part>)
    ensures PartsText([p] + rest) == PartText(p) + PartsText(rest) && PartsValue([p] + rest) == PartValue(p) + PartsValue(rest)
    ensures GoodPart(p) && GoodParts(rest) ==> GoodParts([p] + rest)
  {
  }

  lemma AtEnd(r: Reader, text: string)
    ensures SplitFrom(r, text, |text|) == Split(r.Word(), r.quote.Bare?, r.compound)
  {
  }

  lemma DoubleStep(r: Reader, text: string, i: nat)
    requires r.quote.Double? && i < |text| && text[i] == '"'
    ensures SplitFrom(r, text, i) == SplitFrom(r.(quote := Bare), text, i + 1)
  {
  }

  lemma CutStep(r: Reader, text: string, i: nat)
    requires !r.quote.Single? && i + 1 == |text| && text[i] == '\\'
    ensures SplitFrom(r, text, i) == Split(r.words, false, r.compound)
  {
  }

  /** The next part of a double-quoted text. */
  lemma PartAt(r: Reader, text: string, i: nat) returns (p: Part)
    requires r.quote.Double? && r.started && i < |text| && text[i] != '"' && (text[i] == '\\' ==> i + 1 < |text|)
    ensures GoodPart(p) && i + |PartText(p)| <= |text| && text[i..i + |PartText(p)|] == PartText(p)
    ensures SplitFrom(r, text, i) == SplitFrom(r.(current := r.current + PartValue(p)), text, i + |PartText(p)|)
  {
    hide SplitFrom;
    assert r.current + "" == r.current;
    if text[i] != '\\' {
      p := Char(text[i]);
      TakeStep(r, text, i);
      assert text[i..i + 1] == [text[i]];
    } else {
      assert text[i..i + 2] == [text[i], text[i + 1]];
      if text[i + 1] in ESCAPED {
        p := Escape(text[i + 1]);
        EscapeStep(r, text, i);
      } else {
        p := Kept(text[i + 1]);
        TakeStep(r, text, i);
        TakeStep(r.Take('\\'), text, i + 1);
        assert r.current + ['\\'] + [text[i + 1]] == r.current + ['\\', text[i + 1]];
      }
    }
  }

  lemma TakeStep(r: Reader, text: string, i: nat)
    requires r.quote.Double? && i < |text| && text[i] != '"'
    requires text[i] == '\\' ==> i + 1 < |text| && text[i + 1] !in ESCAPED
    ensures SplitFrom(r, text, i) == SplitFrom(r.Take(text[i]), text, i + 1)
  {
  }

  lemma EscapeStep(r: Reader, text: string, i: nat)
    requires !r.quote.Single? && i + 1 < |text| && text[i] == '\\' && (r.quote.Bare? || text[i + 1] in ESCAPED)
    ensures SplitFrom(r, text, i) ==
      SplitFrom((if text[i + 1] == '\n' then r else r.Take(text[i + 1])).(started := true), text, i + 2)
  {
  }

  lemma BareStep(r: Reader, text: string, i: nat)
    requires r.quote.Bare? && i < |text| && text[i] != '\\'
    ensures SplitFrom(r, text, i) == SplitFrom(
      if text[i] == '\'' then r.(quote := Single, started := true)
      else if text[i] == '"' then r.(quote := Double, started := true)
      else if IsSpaceCode(text[i] as int) then Reader(r.Word(), "", false, Bare, r.compound)
      else r.(current := r.current + [text[i]], started := true,
              compound := r.compound || text[i] in ";&|<>()`" || (text[i] == '#' && !r.started)), text, i + 1)
  {
  }

  /** The atom at i is read, up to j. */
  ghost predicate OneRead(r: Reader, text: string, i: nat, a: Atom, next: Reader) {
    var j := i + |AtomText(a)|;
    && Good(a) && j <= |text| && text[i..j] == AtomText(a)
    && SplitFrom(r, text, i) == SplitFrom(next, text, j)
  }

  /** The reader behind an atom. */
  function Behind(r: Reader, a: Atom): Reader {
    if a.Blank? then Reader(r.Word(), "", false, Bare, r.compound)
    else r.(current := r.current + Value(a), started := true,
            compound := r.compound || (a.Plain? && (a.c in ";&|<>()`" || (a.c == '#' && !r.started))))
  }

  /** The command ends so within the part at i. */
  ghost predicate EndsSo(r: Reader, text: string, i: nat, e: Ending)
    requires i <= |text|
  {
    GoodEnding(e) && text[i..] == EndingText(e) && SplitFrom(r, text, i) == Expected(r, [], e)
  }

  lemma SingleAt(r: Reader, text: string, i: nat) returns (a: Option<Atom>, e: Ending)
    requires r.quote.Bare? && Neat(r) && i < |text| && text[i] == '\''
    ensures if a.Some? then OneRead(r, text, i, a.value, Behind(r, a.value)) else EndsSo(r, text, i, e)
  {
    hide SplitFrom, Expected, AtomText, EndingText;
    var r1 := r.(quote := Single, started := true);
    SingleOpens(r, text, i);
    var body := SingleTail(r1, text, i + 1);
    var j := i + 1 + |body|;
    if j == |text| {
      a, e := None, OpenSingle(body);
      assert text[i..] == [text[i]] + text[i + 1..j];
      NothingMore(r, e);
      SingleTexts(body);
    } else {
      a, e := Some(InSingle(body)), Full;
      SingleTexts(body);
      assert text[i..j] == [text[i]] + text[i + 1..j];
      assert text[i..j + 1] == text[i..j] + [text[j]];
      assert r1.(current := r1.current + body, quote := Bare) == Behind(r, a.value);
    }
  }

  lemma SingleTexts(body: string)
    ensures AtomText(InSingle(body)) == ['\''] + body + ['\''] && EndingText(OpenSingle(body)) == ['\''] + body
  {
  }

  lemma SingleOpens(r: Reader, text: string, i: nat)
    requires r.quote.Bare? && i < |text| && text[i] == '\''
    ensures SplitFrom(r, text, i) == SplitFrom(r.(quote := Single, started := true), text, i + 1)
  {
    hide SplitFrom;
    BareStep(r, text, i);
  }

  lemma DoubleAt(r: Reader, text: string, i: nat) returns (a: Option<Atom>, e: Ending)
    requires r.quote.Bare? && Neat(r) && i < |text| && text[i] == '"'
    ensures if a.Some? then OneRead(r, text, i, a.value, Behind(r, a.value)) else EndsSo(r, text, i, e)
  {
    hide SplitFrom, Expected, PartsText, PartsValue, GoodParts;
    BareStep(r, text, i);
    var parts, how := DoubleTail(r.(quote := Double, started := true), text, i + 1);
    var j := i + 1 + |PartsText(parts)| + |ShutText(how)|;
    assert text[i..j] == [text[i]] + text[i + 1..j];
    if how.Closed? {
      a, e := Some(InDouble(parts)), Full;
      assert text[i..j] == ['"'] + PartsText(parts) + ['"'];
    } else {
      a, e := None, OpenDouble(parts, how.CutOff?);
      assert text[i..] == text[i..j];
      assert text[i..j] == ['"'] + PartsText(parts) + ShutText(how);
      NothingMore(r, e);
    }
  }

  lemma AtomAt(r: Reader, text: string, i: nat) returns (a: Option<Atom>, e: Ending)
    requires r.quote.Bare? && Neat(r) && i < |text|
    ensures if a.Some? then OneRead(r, text, i, a.value, Behind(r, a.value)) else EndsSo(r, text, i, e)
  {
    hide SplitFrom, Expected;
    assert text[i..i + 1] == [text[i]];
    e := Full;
    if text[i] == '\'' {
      a, e := SingleAt(r, text, i);
    } else if text[i] == '"' {
      a, e := DoubleAt(r, text, i);
    } else if text[i] == '\\' {
      if i + 1 == |text| {
        a, e := None, Cut;
        CutStep(r, text, i);
        NothingMore(r, e);
        assert text[i..] == "\\" && r.words + [] == r.words;
      } else {
        a := Some(Escaped(text[i + 1]));
        EscapeStep(r, text, i);
        assert text[i..i + 2] == [text[i], text[i + 1]] && r.current + "" == r.current;
      }
    } else {
      BareStep(r, text, i);
      a := Some(if IsSpaceCode(text[i] as int) then Blank(text[i]) else Plain(text[i]));
    }
  }

  lemma {:induction false} Spelled(r: Reader, text: string, i: nat) returns (atoms: seq<Atom>, e: Ending)
    requires r.quote.Bare? && Neat(r) && i <= |text|
    ensures Spells(atoms, e, text[i..]) && SplitFrom(r, text, i) == Expected(r, atoms, e)
    decreases |text| - i
  {
    hide SplitFrom, Good, AtomText, AtomsText, EndingText, GoodEnding, Expected, Value;
    if i == |text| {
      atoms, e := [], Full;
      AtEnd(r, text);
      NothingMore(r, Full);
      LastSpells(Full);
      NoText();
    } else {
      var a;
      a, e := AtomAt(r, text, i);
      if a.None? {
        atoms := [];
        LastSpells(e);
      } else {
        var next, j := Behind(r, a.value), i + |AtomText(a.value)|;
        AtomGoes(a.value);
        var rest;
        rest, e := Spelled(next, text, j);
        atoms := [a.value] + rest;
        Ahead(r, a.value, rest, e, next);
        assert text[i..] == text[i..j] + text[j..];
        AtomsFirst(a.value, rest, e, text[j..]);
      }
    }
  }

  lemma NoText()
    ensures EndingText(Full) == "" && GoodEnding(Full)
  {
  }

  lemma AtomGoes(a: Atom)
    ensures AtomText(a) != ""
  {
  }

  lemma AtomsFirst(a: Atom, rest: seq<Atom>, e: Ending, text: string)
    requires Good(a) && Spells(rest, e, text)
    ensures Spells([a] + rest, e, AtomText(a) + text)
  {
    hide Good, AtomText, GoodEnding, EndingText;
    assert ([a] + rest)[1..] == rest;
    assert AtomText(a) + AtomsText(rest) + EndingText(e) == AtomText(a) + (AtomsText(rest) + EndingText(e));
  }

  lemma LastSpells(e: Ending)
    requires GoodEnding(e)
    ensures Spells([], e, EndingText(e))
  {
    assert "" + EndingText(e) == EndingText(e);
  }

  /** The splitter gives the words that the command spells, says whether it ended outside
      quotes and backslashes, and calls it compound exactly when an operator, or a comment,
      stands outside them. */
  lemma SplitExactly(command: string)
    ensures exists atoms, e ::
      Spells(atoms, e, command) && SplitOf(command) == Split(Words(atoms, e, None), e.Full?, Compound(atoms, false))
  {
    hide SplitFrom, Spells, Words, Compound;
    var atoms, e := Spelled(EMPTY, command, 0);
    assert command[0..] == command && [] + Words(atoms, e, None) == Words(atoms, e, None);
  }

  lemma NothingMore(r: Reader, e: Ending)
    ensures Expected(r, [], e) == Split(r.words + (match e
      case Full => Listed(WordOf(r))
      case Cut => []
      case OpenSingle(text) => Listed(Extended(WordOf(r), text))
      case OpenDouble(parts, cut) => if cut then [] else Listed(Extended(WordOf(r), PartsValue(parts)))), e.Full?, r.compound)
  {
  }
}
