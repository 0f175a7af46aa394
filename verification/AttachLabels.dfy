/** What the labels of src/lib/attachInput.ts are read as and what they are printed from:
    the three label patterns, transcripts, and the citation of a retrieved passage. */
module AttachLabels {
  import opened Basics
  import opened TextLines
  import opened FitText
  import opened Attach
  import opened AttachFold
  import opened AttachTrips

  // ------------------------------------------------------------ the three patterns

  const EM_DASH: nat := 0x2014

  function FileLine(name: Text): Text { Units("Attached file ") + [EM_DASH] + Units(" ") + name + Units(":") }

  function Sep(): Text { Units(" ") + [EM_DASH] + Units(" transcribed on-device by ") }

  function ImageLine(name: Text, model: Text): Text { Units("[image: ") + name + Sep() + model + Units("]") }

  function Dash(): Text { Units(" ") + [EM_DASH] + Units(" ") }

  /** What a doc label says between its brackets. */
  function Cited(name: Text, locator: Option<Text>): Text { if locator.Some? then name + Dash() + locator.value else name }

  function DocLine(name: Text, locator: Option<Text>): Text { Units("[docs: ") + Cited(name, locator) + Units("]") }

  lemma {:induction false} BetweenIs(line: Text, open: Text, close: Text, inside: Text)
    ensures Between(line, open, close) == Some(inside) <==> line == open + inside + close && OneLine(inside)
  {
    if line == open + inside + close {
      assert line[|open|..|line| - |close|] == inside && line[|line| - |close|..] == close;
    }
    if Between(line, open, close) == Some(inside) {
      assert line == line[..|open|] + line[|open|..|line| - |close|] + line[|line| - |close|..];
    }
  }

  lemma FixedTexts()
    ensures FileOpen() == Units("Attached file ") + [EM_DASH] + Units(" ") && Units(":") == [58] && Units("]") == [93]
    ensures ImageOpen() == Units("[image: ") && DocsOpen() == Units("[docs: ")
    ensures By() == Sep() && Locating() == Dash()
  {
    assert Units(" ") == [32];
    assert [32, EM_DASH] == [32] + [EM_DASH];
    assert [32, EM_DASH, 32] == [32] + [EM_DASH] + [32];
    assert [EM_DASH, 32] == [EM_DASH] + [32];
    assert Units("Attached file ") + [EM_DASH, 32] == Units("Attached file ") + [EM_DASH] + [32];
  }

  lemma FileLabelExactly(line: Text, b: Block)
    ensures FileLabel(line) == Some(b) <==>
      b == Block(FileBlock, b.name, None, None, [], false) && OneLine(b.name) && line == FileLine(b.name)
  {
    hide OneLine;
    FixedTexts();
    BetweenIs(line, FileOpen(), [58], b.name);
    if FileLabel(line).Some? { BetweenIs(line, FileOpen(), [58], FileLabel(line).value.name); }
  }

  /** sep stands in t at k, with something on both sides. */
  predicate Splits(t: Text, sep: Text, k: nat) { 0 < k && k + |sep| < |t| && sep <= t[k..] }

  lemma SplitsIs(t: Text, sep: Text, a: Text, b: Text)
    requires t == a + sep + b && a != [] && b != []
    ensures Splits(t, sep, |a|) && t[..|a|] == a && t[|a| + |sep|..] == b
  {
    assert t[|a|..] == sep + b;
  }

  lemma SplitParts(t: Text, sep: Text, k: nat)
    requires Splits(t, sep, k)
    ensures t == t[..k] + sep + t[k + |sep|..]
  {
    assert t[k..][..|sep|] == sep;
    assert t[k..] == t[k..][..|sep|] + t[k..][|sep|..];
    assert t[k..][|sep|..] == t[k + |sep|..];
    assert t == t[..k] + t[k..];
  }

  lemma {:induction false} LastSplitIs(t: Text, sep: Text, k: nat)
    requires k + |sep| <= |t|
    ensures match LastSplit(t, sep, k)
      case None => forall j: nat :: j <= k ==> !Splits(t, sep, j)
      case Some(at) => at <= k && Splits(t, sep, at) && forall j: nat :: at < j <= k ==> !Splits(t, sep, j)
  {
    if k > 0 && !(sep <= t[k..] && k + |sep| < |t|) { LastSplitIs(t, sep, k - 1); }
  }

  lemma {:induction false} FirstSplitIs(t: Text, sep: Text, k: nat)
    requires k <= |t|
    ensures match FirstSplit(t, sep, k)
      case None => forall j: nat :: k <= j ==> !Splits(t, sep, j)
      case Some(at) => k <= at && Splits(t, sep, at) && forall j: nat :: k <= j < at ==> !Splits(t, sep, j)
    decreases |t| - k
  {
    if k + |sep| < |t| && !(k > 0 && sep <= t[k..]) { FirstSplitIs(t, sep, k + 1); }
  }

  lemma OneLineParts(a: Text, b: Text, c: Text)
    ensures a != [] && OneLine(a + b + c) ==> OneLine(a)
    ensures c != [] && OneLine(a + b + c) ==> OneLine(c)
  {
    if a != [] && OneLine(a + b + c) { assert forall k :: 0 <= k < |a| ==> (a + b + c)[k] == a[k]; }
    if c != [] && OneLine(a + b + c) { assert forall k :: 0 <= k < |c| ==> (a + b + c)[|a| + |b| + k] == c[k]; }
  }

  /** The line is an image label with this name and model, the name as long as it can be. */
  ghost predicate IsImageLine(line: Text, name: Text, model: Text) {
    && name != [] && model != [] && OneLine(name + Sep() + model) && line == ImageLine(name, model)
    && forall k: nat :: k > |name| ==> !Splits(name + Sep() + model, Sep(), k)
  }

  /** The line is a doc label with this name and locator, the name as short as it can be. */
  ghost predicate IsDocLine(line: Text, name: Text, locator: Option<Text>) {
    && name != [] && (locator.Some? ==> locator.value != []) && OneLine(Cited(name, locator)) && line == DocLine(name, locator)
    && forall k: nat :: (locator.Some? ==> k < |name|) ==> !Splits(Cited(name, locator), Dash(), k)
  }

  lemma ImageFound(line: Text)
    requires ImageLabel(line).Some?
    ensures var b := ImageLabel(line).value; b.model.Some? && IsImageLine(line, b.name, b.model.value)
  {
    hide OneLine, Splits, LastSplit, Sep;
    FixedTexts();
    var sep := Sep();
    var b := ImageLabel(line).value;
    var inside := Between(line, ImageOpen(), [93]).value;
    BetweenIs(line, ImageOpen(), [93], inside);
    LastSplitIs(inside, sep, |inside| - |sep|);
    Nonempty(inside, sep, |b.name|);
    SplitParts(inside, sep, |b.name|);
    ImageText(b.name, b.model.value);
    Beyond(inside, sep);
  }

  lemma ImageRead(line: Text, name: Text, model: Text)
    requires IsImageLine(line, name, model)
    ensures ImageLabel(line) == Some(Block(ImageBlock, name, Some(model), None, [], false))
  {
    hide OneLine, Splits, LastSplit, Sep;
    FixedTexts();
    var sep := Sep();
    var inside := name + sep + model;
    ImageText(name, model);
    BetweenIs(line, ImageOpen(), [93], inside);
    LastSplitIs(inside, sep, |inside| - |sep|);
    SplitsIs(inside, sep, name, model);
  }

  lemma ImageText(name: Text, model: Text)
    ensures ImageLine(name, model) == Units("[image: ") + (name + Sep() + model) + Units("]")
  {
  }

  lemma Nonempty(t: Text, sep: Text, k: nat)
    requires Splits(t, sep, k)
    ensures t[..k] != [] && t[k + |sep|..] != []
  {
  }

  lemma DocFound(line: Text)
    requires DocLabel(line).Some?
    ensures var b := DocLabel(line).value; IsDocLine(line, b.name, b.locator)
  {
    hide OneLine, Splits, FirstSplit, Dash;
    FixedTexts();
    var dash := Dash();
    var b := DocLabel(line).value;
    var inside := Between(line, DocsOpen(), [93]).value;
    BetweenIs(line, DocsOpen(), [93], inside);
    FirstSplitIs(inside, dash, 0);
    if b.locator.Some? {
      Nonempty(inside, dash, |b.name|);
      SplitParts(inside, dash, |b.name|);
    } else {
      LineNotEmpty(inside);
    }
  }

  lemma LineNotEmpty(t: Text)
    requires OneLine(t)
    ensures t != []
  {
  }

  lemma DocRead(line: Text, name: Text, locator: Option<Text>)
    requires IsDocLine(line, name, locator)
    ensures DocLabel(line) == Some(Block(DocBlock, name, None, locator, [], false))
  {
    hide OneLine, Splits, FirstSplit, Dash;
    FixedTexts();
    var dash := Dash();
    var inside := Cited(name, locator);
    BetweenIs(line, DocsOpen(), [93], inside);
    FirstSplitIs(inside, dash, 0);
    if locator.Some? { SplitsIs(inside, dash, name, locator.value); }
  }

  /** The line is the label of this block, whose text is still to come. */
  ghost predicate Labels(line: Text, b: Block) {
    && b.body == [] && !b.truncated
    && match b.kind
       case FileBlock => b.model == b.locator == None && OneLine(b.name) && line == FileLine(b.name)
       case ImageBlock => b.model.Some? && b.locator.None? && IsImageLine(line, b.name, b.model.value)
       case DocBlock => b.model.None? && IsDocLine(line, b.name, b.locator)
  }

  /** The three patterns, of which a line fits at most one. */
  lemma LabelExactly(line: Text, b: Block)
    ensures LabelOf(line) == Some(b) <==> Labels(line, b)
  {
    hide OneLine, IsImageLine, IsDocLine, FileLabel, ImageLabel, DocLabel;
    FileLabelExactly(line, b);
    if FileLabel(line).Some? { FileLabelExactly(line, FileLabel(line).value); }
    if ImageLabel(line).Some? {
      ImageFound(line);
      var c := ImageLabel(line).value;
      ImageRead(line, c.name, c.model.value);
    }
    if DocLabel(line).Some? {
      DocFound(line);
      var c := DocLabel(line).value;
      DocRead(line, c.name, c.locator);
    }
    match b.kind {
      case FileBlock =>
      case ImageBlock =>
        if b.model.Some? && IsImageLine(line, b.name, b.model.value) {
          ImageRead(line, b.name, b.model.value);
          ImageStarts(line, b.name, b.model.value);
        }
      case DocBlock =>
        if IsDocLine(line, b.name, b.locator) {
          DocRead(line, b.name, b.locator);
          DocStarts(line, b.name, b.locator);
        }
    }
  }

  lemma ImageStarts(line: Text, name: Text, model: Text)
    requires IsImageLine(line, name, model)
    ensures FileLabel(line).None?
  {
    hide OneLine, Splits;
    FixedTexts();
    assert line[0] == Units("[image: ")[0] == '[' as nat;
    if FileLabel(line).Some? { FileStarts(line); }
  }

  lemma FileStarts(line: Text)
    requires FileLabel(line).Some?
    ensures line != [] && line[0] == 'A' as nat
  {
    hide OneLine;
    FileLabelExactly(line, FileLabel(line).value);
    assert line[0] == Units("Attached file ")[0];
  }

  lemma DocStarts(line: Text, name: Text, locator: Option<Text>)
    requires IsDocLine(line, name, locator)
    ensures FileLabel(line).None? && ImageLabel(line).None?
  {
    hide OneLine, Splits;
    FixedTexts();
    assert line[0] == Units("[docs: ")[0] == '[' as nat && line[1] == Units("[docs: ")[1] == 'd' as nat;
    if FileLabel(line).Some? { FileStarts(line); }
    if ImageLabel(line).Some? { ImageSecond(line); }
  }

  lemma ImageSecond(line: Text)
    requires ImageLabel(line).Some?
    ensures |line| > 1 && line[1] == 'i' as nat
  {
    hide OneLine, Splits;
    ImageFound(line);
    assert line[1] == Units("[image: ")[1];
  }

  lemma Beyond(t: Text, sep: Text)
    ensures forall k: nat :: k + |sep| > |t| ==> !Splits(t, sep, k)
  {
  }
}
