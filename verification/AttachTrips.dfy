/** The two round trips of src/lib/attachInput.ts: attachments folded into a prompt and
    split out for display, retrieved passages folded in and stripped before replay. Each
    holds for exactly the prompts that the theorems name. */
module AttachTrips {
  import opened Basics
  import opened TextLines
  import opened FitText
  import opened Attach
  import opened AttachFold

  // ------------------------------------------------------------ attachments

  /** A staged attachment; an empty text or image is an absent one. */
  datatype Attachment = Attachment(image: bool, name: Text, mediaType: Text, data: Text, text: Text)

  datatype Image = Image(mediaType: Text, data: Text)

  datatype Outgoing = Outgoing(prompt: Text, images: seq<Image>)

  function FilePart(a: Attachment): Part {
    Part(FileOpen() + a.name + [58], a.text)
  }

  function Files(staged: seq<Attachment>): seq<Part> {
    if staged == [] then []
    else (if !staged[0].image && staged[0].text != [] then [FilePart(staged[0])] else []) + Files(staged[1..])
  }

  function Images(staged: seq<Attachment>): seq<Image> {
    if staged == [] then []
    else
      (if staged[0].image && staged[0].data != [] then [Image(staged[0].mediaType, staged[0].data)] else [])
      + Images(staged[1..])
  }

  function NonBlank(parts: seq<Text>): seq<Text> {
    if parts == [] then [] else (if Trim(parts[0]) != [] then [parts[0]] else []) + NonBlank(parts[1..])
  }

  function OutgoingOf(prompt: Text, staged: seq<Attachment>): Outgoing {
    Outgoing(JoinParts(NonBlank([prompt] + Texts(Files(staged)))), Images(staged))
  }

  predicate Folds(a: Attachment) { !a.image && a.text != [] }

  lemma TextsUnfold(staged: seq<Attachment>)
    requires staged != []
    ensures Texts(Files(staged)) == (if Folds(staged[0]) then [PartText(FilePart(staged[0]))] else []) + Texts(Files(staged[1..]))
  {
    hide PartText, FilePart;
    var rest := Files(staged[1..]);
    if Folds(staged[0]) {
      assert Files(staged)[1..] == rest;
    } else {
      assert Files(staged) == rest && [] + Texts(rest) == Texts(rest);
    }
  }

  lemma ImagesUnfold(staged: seq<Attachment>)
    requires staged != []
    ensures Images(staged) ==
      (if staged[0].image && staged[0].data != [] then [Image(staged[0].mediaType, staged[0].data)] else [])
      + Images(staged[1..])
  {
  }

  method DropBlank(parts: seq<Text>) returns (kept: seq<Text>)
    ensures kept == NonBlank(parts)
  {
    hide Trim;
    kept := [];
    var k := 0;
    assert parts[0..] == parts;
    while k < |parts|
      invariant 0 <= k <= |parts|
      invariant kept + NonBlank(parts[k..]) == NonBlank(parts)
    {
      assert parts[k..][1..] == parts[k + 1..];
      if Trim(parts[k]) != [] { kept := kept + [parts[k]]; }
      k := k + 1;
    }
  }

  /** buildOutgoing */
  method BuildOutgoing(prompt: Text, staged: seq<Attachment>) returns (r: Outgoing)
    ensures r == OutgoingOf(prompt, staged)
  {
    hide JoinParts, FilePart, PartText, Texts, Files, Images;
    var images: seq<Image> := [];
    var parts: seq<Text> := [prompt];
    var k := 0;
    NoTexts();
    assert staged[0..] == staged;
    while k < |staged|
      invariant 0 <= k <= |staged|
      invariant images + Images(staged[k..]) == Images(staged)
      invariant parts + Texts(Files(staged[k..])) == [prompt] + Texts(Files(staged))
    {
      var a := staged[k];
      assert staged[k..][1..] == staged[k + 1..];
      TextsUnfold(staged[k..]);
      ImagesUnfold(staged[k..]);
      if a.image {
        if a.data != [] { images := images + [Image(a.mediaType, a.data)]; }
      } else if a.text != [] {
        parts := parts + [PartText(FilePart(a))];
      }
      k := k + 1;
    }
    assert staged[k..] == [] && images == Images(staged) && parts == [prompt] + Texts(Files(staged));
    var kept := DropBlank(parts);
    return Outgoing(JoinParts(kept), images);
  }

  lemma NoTexts()
    ensures Texts(Files([])) == [] && Images([]) == []
  {
  }

  /** What split should find of the attachments. */
  function Expected(staged: seq<Attachment>): seq<Block> {
    if staged == [] then []
    else
      (if !staged[0].image && staged[0].text != [] then [FileOf(staged[0].name, staged[0].text, false)] else [])
      + Expected(staged[1..])
  }

  predicate Foldable(staged: seq<Attachment>) {
    forall k | 0 <= k < |staged| :: !staged[k].image && staged[k].text != [] ==> OneLine(staged[k].name)
  }

  lemma FileMark(name: Text)
    requires OneLine(name)
    ensures var mark := FileOpen() + name + [58];
      LabelOf(mark) == Some(FileOf(name, [], false)) && LINE_FEED !in mark && mark[0] == 65
  {
    var open := FileOpen();
    var mark := open + name + [58];
    assert mark[|open|..|mark| - 1] == name && mark[|mark| - 1..] == [58] && open <= mark;
    assert forall k :: 0 <= k < |open| ==> open[k] != LINE_FEED;
    assert "Attached file "[0] as int == 65;
  }

  predicate Marked(p: Part) { PartOk(p) && p.mark != [] && !IsSpaceCode(p.mark[0]) }

  lemma {:induction false} FilesOk(staged: seq<Attachment>)
    requires Foldable(staged)
    ensures forall k :: 0 <= k < |Files(staged)| ==> Marked(Files(staged)[k])
    ensures PartsOk(Files(staged)) && Blocks(Files(staged)) == Expected(staged)
  {
    hide Marked, FilePart, PartOk, BlockOf;
    if staged != [] {
      var a, rest := staged[0], Files(staged[1..]);
      FilesOk(staged[1..]);
      if Folds(a) {
        FileIsMarked(a);
        assert Files(staged) == [FilePart(a)] + rest;
        assert Files(staged)[1..] == rest;
      } else {
        assert Files(staged) == rest && Expected(staged) == Expected(staged[1..]);
      }
    }
  }

  lemma FileIsMarked(a: Attachment)
    requires OneLine(a.name)
    ensures Marked(FilePart(a)) && PartOk(FilePart(a)) && BlockOf(FilePart(a)) == FileOf(a.name, a.text, false)
  {
    hide LabelOf, FileOpen;
    FileMark(a.name);
  }

  /** A labelled part is never blank, so the filter keeps it. */
  lemma {:induction false} TextsKept(parts: seq<Part>)
    requires forall k :: 0 <= k < |parts| ==> Marked(parts[k])
    ensures NonBlank(Texts(parts)) == Texts(parts)
  {
    hide Trim, PartOk, IsSpaceCode;
    if parts != [] {
      assert Marked(parts[0]);
      var text := PartText(parts[0]);
      assert text[0] == parts[0].mark[0];
      TrimBlank(text);
      TextsKept(parts[1..]);
    }
  }

  /** With a blank prompt the first part begins the message. */
  lemma SplitBare(parts: seq<Part>)
    requires parts != [] && PartsOk(parts)
    ensures SplitOf(JoinParts(Texts(parts))) == Split([], Blocks(parts))
  {
    hide Lines, Tail, LabelOf, PartOk, PartLines, Scan, PartText, Occurs, Join, Empties, Trim, JoinParts;
    var p, more := parts[0], parts[1..];
    assert PartOk(p) && PartsOk(more);
    MarkIsLine(p);
    PartTextLines(p);
    FoldedLines(PartText(p), PartLines(p), more);
    assert Texts(parts) == [PartText(p)] + Texts(more);
    var all := PartLines(p) + Tail(more);
    OccursWhole(all);
    OccursJoin(all, 0, PartLines(p), Tail(more));
    ScanPart(all, 0, p);
    SplitTail(all, |PartLines(p)|, more);
    JoinEmpties(|more|);
    TrimBlank(Join(Empties(|more|)));
  }

  /** Split undoes fold: for a prompt with no label-then-fence pair, and any attachments
      with one-line names, whatever runs of ticks their bodies contain. */
  lemma FoldSplit(prompt: Text, staged: seq<Attachment>)
    requires NoPair(Lines(prompt)) && Foldable(staged)
    ensures SplitOf(OutgoingOf(prompt, staged).prompt) == Split(Trim(prompt), Expected(staged))
  {
    hide Lines, Trim, SplitOf, PartsOk, NoPair, JoinParts;
    var parts := Files(staged);
    FilesOk(staged);
    TextsKept(parts);
    assert ([prompt] + Texts(parts))[1..] == Texts(parts);
    if Trim(prompt) != [] {
      SplitFolded(prompt, parts);
    } else if parts != [] {
      assert [] + Texts(parts) == Texts(parts);
      SplitBare(parts);
    } else {
      NothingOpens();
      assert Texts(parts) == [] && NonBlank([prompt] + Texts(parts)) == [] + NonBlank([]) == [];
      SplitFolded([], []);
      JoinNothing();
    }
  }

  lemma NothingOpens()
    ensures NoPair(Lines([])) && PartsOk([]) && Trim([]) == []
  {
    EmptyIsNoLabel();
    assert Lines([]) == [[]];
  }

  lemma JoinNothing()
    ensures JoinParts([[]] + Texts([])) == [] && JoinParts([]) == [] && Blocks([]) == []
  {
  }

  lemma {:induction false} PairIsFound(lines: seq<Text>, i: nat, j: nat)
    requires i <= j < |lines| && Opens(lines, j)
    ensures SplitFrom(lines, i).blocks != []
    decreases j - i
  {
    hide LabelOf, FenceRun;
    if Scan(lines, i).None? { PairIsFound(lines, i + 1, j); }
  }

  predicate RoundTrips(prompt: Text, staged: seq<Attachment>) {
    SplitOf(OutgoingOf(prompt, staged).prompt) == Split(Trim(prompt), Expected(staged))
  }

  /** The prompts for which the round trip holds whatever is attached are exactly those
      with no label line followed by a fence. */
  lemma FoldSplitExactly(prompt: Text)
    ensures (forall staged :: Foldable(staged) ==> RoundTrips(prompt, staged)) <==> NoPair(Lines(prompt))
  {
    if NoPair(Lines(prompt)) {
      forall staged | Foldable(staged) ensures RoundTrips(prompt, staged) { FoldSplit(prompt, staged); }
    } else {
      PairBreaks(prompt);
    }
  }

  lemma PairBreaks(prompt: Text)
    requires !NoPair(Lines(prompt))
    ensures Foldable([]) && !RoundTrips(prompt, [])
  {
    hide Lines, Trim, LabelOf, FenceRun, SplitFrom;
    var lines := Lines(prompt);
    var j :| 0 <= j < |lines| && Opens(lines, j);
    PairIsFound(lines, 0, j);
    LabelNotBlank(prompt, j);
    assert Files([]) == [] && Texts([]) == [] && Expected([]) == [];
    assert [prompt] + [] == [prompt] && [prompt][1..] == [];
    assert NonBlank([prompt]) == [prompt] + NonBlank([]);
    assert [prompt] + NonBlank([]) == [prompt];
  }

  /** A prompt with a label line is not blank. */
  lemma LabelNotBlank(prompt: Text, j: nat)
    requires j < |Lines(prompt)| && LabelOf(Lines(prompt)[j]).Some?
    ensures Trim(prompt) != []
  {
    hide Lines, Trim;
    var line := Lines(prompt)[j];
    assert line[0] == 65 || line[0] == 91 by { LabelStarts(line); }
    TrimBlank(prompt);
    JoinLines(prompt);
    if Blank(prompt) { BlankLines(Lines(prompt), j); }
  }

  lemma LabelStarts(line: Text)
    requires LabelOf(line).Some?
    ensures line != [] && (line[0] == 65 || line[0] == 91)
  {
    assert FileOpen()[0] == 65 && ImageOpen()[0] == 91 && DocsOpen()[0] == 91;
  }

  lemma {:induction false} BlankLines(lines: seq<Text>, j: nat)
    requires j < |lines| && Blank(Join(lines))
    ensures Blank(lines[j])
  {
    if |lines| > 1 {
      var first, rest := lines[0], Join(lines[1..]);
      var t := first + [LINE_FEED] + rest;
      assert forall k :: 0 <= k < |first| ==> t[k] == first[k];
      assert forall k :: 0 <= k < |rest| ==> t[|first| + 1 + k] == rest[k];
      if j > 0 { BlankLines(lines[1..], j - 1); }
    }
  }

  // ------------------------------------------------------------ retrieved passages

  const DOC_INJECT_MAX_CHARS: nat := 4_000
  const DOC_LABEL_FIELD_MAX_BYTES: nat := 160

  datatype Bucket = Local(name: Text) | Qdrant(name: Text, connection: Text)

  datatype Hit = Hit(text: Text, heading: Text, page: Option<nat>, fileName: Text, bucket: Option<Bucket>)

  /** Control and format characters and line separators become blanks, brackets and
      ticks lose their meaning. Which units format text is a parameter. */
  function Tamed(format: nat -> bool, c: nat): nat {
    if c <= 0x1f || 0x7f <= c <= 0x9f || c == 0x2028 || c == 0x2029 || format(c) then 32
    else if c == 91 then 40
    else if c == 93 then 41
    else if c == TICK then 39
    else c
  }

  /** Every run of white space becomes one blank. */
  function Squeezed(t: Text): Text {
    if t == [] then []
    else if !IsSpaceCode(t[0]) then [t[0]] + Squeezed(t[1..])
    else if |t| > 1 && IsSpaceCode(t[1]) then Squeezed(t[1..])
    else [32] + Squeezed(t[1..])
  }

  /** sanitizeDocLabelField */
  function Sanitized(format: nat -> bool, value: Text): Text {
    var tamed := seq(|value|, k requires 0 <= k < |value| => Tamed(format, value[k]));
    TrimEnd(Fit(Trim(Squeezed(tamed)), DOC_LABEL_FIELD_MAX_BYTES, FromStart))
  }

  /** A unit that cannot end the label, start a fence or begin a new line. */
  predicate Harmless(c: nat) { Dot(c) && c != 91 && c != 93 && c != TICK }

  predicate AllHarmless(t: Text) { forall k | 0 <= k < |t| :: Harmless(t[k]) }

  lemma {:induction false} SqueezedHarmless(t: Text)
    requires AllHarmless(t)
    ensures AllHarmless(Squeezed(t))
  {
    if t != [] { SqueezedHarmless(t[1..]); }
  }

  lemma {:induction false} TrimStartHarmless(t: Text)
    requires AllHarmless(t)
    ensures AllHarmless(TrimStart(t))
  {
    if t != [] { TrimStartHarmless(t[1..]); }
  }

  lemma TamedHarmless(format: nat -> bool, value: Text)
    ensures AllHarmless(seq(|value|, k requires 0 <= k < |value| => Tamed(format, value[k])))
  {
  }

  lemma {:induction false} PrefixIsCheaper(t: Text, n: nat)
    requires n <= |t|
    ensures Utf8(t[..n]) <= Utf8(t)
  {
    if n > 0 {
      if |t| >= 2 && High(t[0]) && Low(t[1]) {
        if n > 1 {
          PrefixIsCheaper(t[2..], n - 2);
          assert t[..n][2..] == t[2..][..n - 2];
        } else {
          assert t[..n] == [t[0]] && Utf8([t[0]]) == Cost(t[0]) + Utf8([]);
        }
      } else {
        PrefixIsCheaper(t[1..], n - 1);
        assert t[..n][1..] == t[1..][..n - 1];
      }
    }
  }

  /** A label field never breaks out of its label and stays short, whatever it was. */
  lemma SanitizedIsHarmless(format: nat -> bool, value: Text)
    ensures AllHarmless(Sanitized(format, value)) && Utf8(Sanitized(format, value)) <= DOC_LABEL_FIELD_MAX_BYTES
  {
    hide Tamed, Squeezed, TrimStart, Fit, Harmless, Utf8;
    var tamed := seq(|value|, k requires 0 <= k < |value| => Tamed(format, value[k]));
    TamedHarmless(format, value);
    SqueezedHarmless(tamed);
    TrimStartHarmless(TrimEnd(Squeezed(tamed)));
    var fitted := Fit(Trim(Squeezed(tamed)), DOC_LABEL_FIELD_MAX_BYTES, FromStart);
    FitStart(Trim(Squeezed(tamed)), DOC_LABEL_FIELD_MAX_BYTES);
    var out := TrimEnd(fitted);
    assert out == fitted[..|out|];
    PrefixIsCheaper(fitted, |out|);
  }

  function OrElse(t: Text, other: string): Text { if t == [] then Units(other) else t }

  function Decimal(n: nat): Text { if n < 10 then [48 + n] else Decimal(n / 10) + [48 + n % 10] }

  function Slash(): Text { [32, 47, 32] }

  function Source(format: nat -> bool, bucket: Option<Bucket>): Text {
    match bucket
    case None => []
    case Some(Local(name)) => Units("Local / ") + OrElse(Sanitized(format, name), "Unnamed bucket") + Slash()
    case Some(Qdrant(name, connection)) =>
      Units("Qdrant / ") + OrElse(Sanitized(format, connection), "Unknown connection") + Slash()
      + OrElse(Sanitized(format, name), "Unnamed bucket") + Slash()
  }

  function Locator(format: nat -> bool, hit: Hit): Text {
    var page := if hit.page.Some? then Units("p.") + Decimal(hit.page.value) else [];
    var heading := Sanitized(format, hit.heading);
    if page == [] then heading else if heading == [] then page else page + Locating() + heading
  }

  /** What a passage's label says between its brackets. */
  function Citation(format: nat -> bool, hit: Hit): Text {
    Source(format, hit.bucket) + OrElse(Sanitized(format, hit.fileName), "Untitled document")
    + (if Locator(format, hit) == [] then [] else Locating() + Locator(format, hit))
  }

  function PassagePart(format: nat -> bool, hit: Hit, text: Text): Part {
    Part(DocsOpen() + Citation(format, hit) + [93], text)
  }

  /** The passages that fit the budget, in order. */
  function Passages(format: nat -> bool, hits: seq<Hit>, budget: nat): seq<Part> {
    if hits == [] then []
    else
      var text := Fit(hits[0].text, if budget < DOC_INJECT_MAX_CHARS then budget else DOC_INJECT_MAX_CHARS, FromStart);
      if Trim(text) == [] then []
      else
        [PassagePart(format, hits[0], text)]
        + if budget <= |text| then [] else Passages(format, hits[1..], budget - |text|)
  }

  datatype Folded = Folded(prompt: Text, count: nat)

  function FoldedOf(format: nat -> bool, prompt: Text, hits: seq<Hit>): Folded {
    var parts := Passages(format, hits, DOC_INJECT_MAX_CHARS);
    if hits == [] then Folded(prompt, 0) else Folded(JoinParts([prompt] + Texts(parts)), |parts|)
  }

  /** foldRetrievedPassages */
  method FoldRetrievedPassages(format: nat -> bool, prompt: Text, hits: seq<Hit>) returns (r: Folded)
    ensures r == FoldedOf(format, prompt, hits)
  {
    hide JoinParts, PartText, PassagePart, Fit, Trim, Passages, Texts;
    if hits == [] { return Folded(prompt, 0); }
    var parts: seq<Text> := [prompt];
    var budget, count, k := DOC_INJECT_MAX_CHARS, 0, 0;
    ghost var left := Passages(format, hits, budget);
    ghost var all := left;
    assert hits[0..] == hits;
    while k < |hits|
      invariant 0 <= k <= |hits| && 0 < budget <= DOC_INJECT_MAX_CHARS
      invariant left == Passages(format, hits[k..], budget)
      invariant parts + Texts(left) == [prompt] + Texts(all) && count + |left| == |all|
    {
      var hit := hits[k];
      assert hits[k..][1..] == hits[k + 1..];
      PassagesUnfold(format, hits[k..], budget);
      var text, _ := FitUtf8(hit.text, if budget < DOC_INJECT_MAX_CHARS then budget else DOC_INJECT_MAX_CHARS, FromStart);
      if Trim(text) == [] { break; }
      FitStart(hit.text, if budget < DOC_INJECT_MAX_CHARS then budget else DOC_INJECT_MAX_CHARS);
      TextsFirst(left);
      parts := parts + [PartText(PassagePart(format, hit, text))];
      count := count + 1;
      left := left[1..];
      if budget <= |text| { break; }
      budget := budget - |text|;
      k := k + 1;
    }
    if k == |hits| { PassagesUnfold(format, [], budget); }
    TextsFirst(left);
    assert parts == [prompt] + Texts(all);
    return Folded(JoinParts(parts), count);
  }

  lemma PassagesUnfold(format: nat -> bool, hits: seq<Hit>, budget: nat)
    ensures var text := if hits == [] then [] else
              Fit(hits[0].text, if budget < DOC_INJECT_MAX_CHARS then budget else DOC_INJECT_MAX_CHARS, FromStart);
      if hits == [] || Trim(text) == [] then Passages(format, hits, budget) == []
      else
        && Passages(format, hits, budget) != []
        && Passages(format, hits, budget)[0] == PassagePart(format, hits[0], text)
        && Passages(format, hits, budget)[1..] == if budget <= |text| then [] else Passages(format, hits[1..], budget - |text|)
  {
    hide Fit, Trim, PassagePart;
  }

  lemma TextsFirst(parts: seq<Part>)
    ensures if parts == [] then Texts(parts) == [] else Texts(parts) == [PartText(parts[0])] + Texts(parts[1..])
  {
  }

  function Total(parts: seq<Part>): nat { if parts == [] then 0 else |parts[0].body| + Total(parts[1..]) }

  /** The passages folded into one turn hold no more than the budget, and each one is a
      beginning of its hit's text that is not blank. */
  lemma {:induction false} PassagesFit(format: nat -> bool, hits: seq<Hit>, budget: nat)
    ensures var parts := Passages(format, hits, budget);
      && Total(parts) <= budget && |parts| <= |hits|
      && forall k :: 0 <= k < |parts| ==> parts[k].body <= hits[k].text && Trim(parts[k].body) != []
    decreases |hits|
  {
    hide Fit, Trim, PassagePart, Passages;
    PassagesUnfold(format, hits, budget);
    if hits != [] {
      var limit := if budget < DOC_INJECT_MAX_CHARS then budget else DOC_INJECT_MAX_CHARS;
      var text := Fit(hits[0].text, limit, FromStart);
      FitStart(hits[0].text, limit);
      if Trim(text) != [] {
        PassageIs(format, hits[0], text);
        if |text| < budget { PassagesFit(format, hits[1..], budget - |text|); }
      }
    }
  }

  lemma PassageIs(format: nat -> bool, hit: Hit, text: Text)
    ensures PassagePart(format, hit, text).body == text
  {
    hide Citation;
  }

  // ------------------------------------------------------------ stripping what was folded

  predicate DocsOk(parts: seq<Part>) {
    PartsOk(parts) && forall k | 0 <= k < |parts| :: BlockOf(parts[k]).kind.DocBlock?
  }

  /** A label between the docs brackets reads as a doc label. */
  lemma DocMark(inside: Text)
    requires OneLine(inside)
    ensures var mark := DocsOpen() + inside + [93];
      LabelOf(mark).Some? && LabelOf(mark).value.kind.DocBlock? && LINE_FEED !in mark
  {
    hide FirstSplit;
    var open := DocsOpen();
    var mark := open + inside + [93];
    assert mark[|open|..|mark| - 1] == inside && mark[|mark| - 1..] == [93] && open <= mark;
    assert mark[0] == 91 && FileOpen()[0] == 65;
    assert mark[1] == 100 && ImageOpen()[1] == 105;
    assert !(FileOpen() <= mark) && !(ImageOpen() <= mark);
    assert forall k :: 0 <= k < |open| ==> open[k] != LINE_FEED;
  }

  lemma {:induction false} DecimalIsHarmless(n: nat)
    ensures AllHarmless(Decimal(n)) && Decimal(n) != []
  {
    if n >= 10 { DecimalIsHarmless(n / 10); }
  }

  lemma HarmlessJoin(a: Text, b: Text)
    ensures AllHarmless(a) && AllHarmless(b) ==> AllHarmless(a + b)
  {
  }

  lemma FixedHarmless()
    ensures AllHarmless(Units("Local / ")) && AllHarmless(Units("Qdrant / ")) && AllHarmless(Units("Unnamed bucket"))
    ensures AllHarmless(Units("Unknown connection")) && AllHarmless(Units("Untitled document")) && AllHarmless(Units("p."))
    ensures AllHarmless(Slash()) && AllHarmless(Locating()) && Units("Untitled document") != []
  {
  }

  lemma SourceHarmless(format: nat -> bool, bucket: Option<Bucket>)
    ensures AllHarmless(Source(format, bucket))
  {
    hide AllHarmless, Sanitized, Units, Slash;
    FixedHarmless();
    match bucket
    case None => NothingHarmless();
    case Some(Local(name)) =>
      var b := OrElse(Sanitized(format, name), "Unnamed bucket");
      SanitizedIsHarmless(format, name);
      HarmlessJoin(Units("Local / "), b);
      HarmlessJoin(Units("Local / ") + b, Slash());
    case Some(Qdrant(name, connection)) =>
      var b, c := OrElse(Sanitized(format, name), "Unnamed bucket"), OrElse(Sanitized(format, connection), "Unknown connection");
      SanitizedIsHarmless(format, name);
      SanitizedIsHarmless(format, connection);
      HarmlessJoin(Units("Qdrant / "), c);
      HarmlessJoin(Units("Qdrant / ") + c, Slash());
      HarmlessJoin(Units("Qdrant / ") + c + Slash(), b);
      HarmlessJoin(Units("Qdrant / ") + c + Slash() + b, Slash());
  }

  lemma LocatorHarmless(format: nat -> bool, hit: Hit)
    ensures AllHarmless(Locator(format, hit))
  {
    hide AllHarmless, Sanitized, Units, Decimal;
    FixedHarmless();
    NothingHarmless();
    SanitizedIsHarmless(format, hit.heading);
    var page := if hit.page.Some? then Units("p.") + Decimal(hit.page.value) else [];
    if hit.page.Some? {
      DecimalIsHarmless(hit.page.value);
      HarmlessJoin(Units("p."), Decimal(hit.page.value));
    }
    HarmlessJoin(page, Locating());
    HarmlessJoin(page + Locating(), Sanitized(format, hit.heading));
  }

  lemma NothingHarmless()
    ensures AllHarmless([])
  {
  }

  /** The citation is one line, so its label is a doc label. */
  lemma CitationIsOneLine(format: nat -> bool, hit: Hit)
    ensures OneLine(Citation(format, hit))
  {
    hide AllHarmless, Sanitized, Units, Source, Locator;
    FixedHarmless();
    NothingHarmless();
    var source, locator := Source(format, hit.bucket), Locator(format, hit);
    var name := OrElse(Sanitized(format, hit.fileName), "Untitled document");
    SourceHarmless(format, hit.bucket);
    LocatorHarmless(format, hit);
    SanitizedIsHarmless(format, hit.fileName);
    HarmlessJoin(source, name);
    HarmlessJoin(Locating(), locator);
    var rest := if locator == [] then [] else Locating() + locator;
    HarmlessJoin(source + name, rest);
    HarmlessIsOneLine(Citation(format, hit), name);
  }

  lemma HarmlessIsOneLine(t: Text, part: Text)
    requires AllHarmless(t) && part != [] && |t| >= |part|
    ensures OneLine(t)
  {
  }

  lemma {:induction false} PassagesOk(format: nat -> bool, hits: seq<Hit>, budget: nat)
    ensures DocsOk(Passages(format, hits, budget))
    decreases |hits|
  {
    hide Fit, Trim, Passages, PassagePart, Citation, PartOk, BlockOf;
    PassagesUnfold(format, hits, budget);
    var parts := Passages(format, hits, budget);
    if parts != [] {
      var limit := if budget < DOC_INJECT_MAX_CHARS then budget else DOC_INJECT_MAX_CHARS;
      var text := Fit(hits[0].text, limit, FromStart);
      PassageIsDoc(format, hits[0], text);
      if |text| < budget { PassagesOk(format, hits[1..], budget - |text|); }
      assert forall k :: 1 <= k < |parts| ==> parts[k] == parts[1..][k - 1];
    }
  }

  lemma PassageIsDoc(format: nat -> bool, hit: Hit, text: Text)
    ensures var p := PassagePart(format, hit, text); PartOk(p) && BlockOf(p).kind.DocBlock?
  {
    hide Citation, LabelOf, DocsOpen;
    CitationIsOneLine(format, hit);
    DocMark(Citation(format, hit));
  }

  lemma {:induction false} StripTail(lines: seq<Text>, i: nat, parts: seq<Part>)
    requires DocsOk(parts) && Occurs(lines, i, Tail(parts)) && i + |Tail(parts)| == |lines|
    ensures StripFrom(lines, i) == Stripped(Empties(|parts|), |parts|)
    decreases |parts|
  {
    hide PartLines, PartOk, Scan, LabelOf, BlockOf, Occurs, Tail;
    if parts == [] {
      assert Tail(parts) == [] by { NoTail(); }
    } else {
      var p := parts[0];
      assert PartOk(p);
      TailAt(lines, i, parts);
      EmptyScan(lines, i);
      ScanPart(lines, i + 1, p);
      StripTail(lines, i + 1 + |PartLines(p)|, parts[1..]);
    }
  }

  lemma NoTail()
    ensures Tail([]) == []
  {
  }

  /** Every block of these lines is closed, and none is a doc block. */
  predicate DocFree(lines: seq<Text>, i: nat)
    requires i <= |lines|
    decreases |lines| - i
  {
    i == |lines| ||
      match Scan(lines, i)
      case None => DocFree(lines, i + 1)
      case Some(found) => !found.block.truncated && !found.block.kind.DocBlock? && DocFree(lines, found.next)
  }

  /** A block that is closed within the front is scanned the same with lines after it,
      and a line that opens nothing still opens nothing. */
  lemma ScanFront(front: seq<Text>, tail: seq<Text>, i: nat)
    requires i < |front| && (tail == [] || FenceRun(tail[0]) == 0)
    ensures Scan(front, i).None? ==> Scan(front + tail, i).None?
    ensures Scan(front, i).Some? && !Scan(front, i).value.block.truncated ==> Scan(front + tail, i) == Scan(front, i)
  {
    hide LabelOf, FenceRun, Join;
    var lines := front + tail;
    if Opens(front, i) {
      var n := FenceRun(front[i + 1]);
      var end := CloseAt(front, i + 2, n);
      if end < |front| {
        CloseIs(lines, i + 2, n, end);
        assert lines[i + 2..end] == front[i + 2..end];
      }
    }
  }

  lemma {:induction false} StripFront(front: seq<Text>, tail: seq<Text>, i: nat)
    requires i <= |front| && DocFree(front, i) && (tail == [] || FenceRun(tail[0]) == 0)
    ensures StripFrom(front + tail, i) == After(front[i..], 0, StripFrom(front + tail, |front|))
    decreases |front| - i
  {
    hide Scan, StripFrom, FenceRun;
    var lines := front + tail;
    if i == |front| {
      var rest := StripFrom(lines, i);
      assert [] + rest.kept == rest.kept;
    } else {
      ScanFront(front, tail, i);
      StripUnfolds(lines, i, [], 0);
      ScanWithin(front, i);
      var next := if Scan(front, i).None? then i + 1 else Scan(front, i).value.next;
      StripFront(front, tail, next);
      var rest := StripFrom(lines, |front|);
      var part := lines[i..next];
      assert front[i..] == part + front[next..];
      assert [] + part == part && part + (front[next..] + rest.kept) == front[i..] + rest.kept;
      assert Scan(front, i).None? ==> part == [lines[i]];
      var all := StripFrom(lines, i);
      assert [] + all.kept == all.kept;
    }
  }

  lemma ScanWithin(lines: seq<Text>, i: nat)
    requires i < |lines|
    ensures Scan(lines, i).Some? ==> i < Scan(lines, i).value.next <= |lines|
  {
  }

  lemma {:induction false} FeedsSuffix(t: Text)
    ensures var n := Feeds(t); forall k :: |t| - n <= k < |t| ==> t[k] == LINE_FEED
  {
    if t != [] && t[|t| - 1] == LINE_FEED { FeedsSuffix(t[..|t| - 1]); }
  }

  lemma TrimCollapsed(t: Text)
    ensures TrimEnd(Collapsed(t)) == TrimEnd(t)
  {
    if Feeds(t) >= 3 {
      var front, back := t[..|t| - Feeds(t)], t[|t| - Feeds(t)..];
      FeedsSuffix(t);
      assert t == front + back;
      TrimEndBlank(front, back);
      TrimEndBlank(front, [LINE_FEED]);
    }
  }

  lemma StripFolded(prompt: Text, parts: seq<Part>)
    requires DocFree(Lines(prompt), 0) && DocsOk(parts)
    ensures StripOf(JoinParts([prompt] + Texts(parts))) == History(TrimEnd(prompt), |parts|)
  {
    hide Lines, Tail, Texts, FenceRun, PartOk, BlockOf, StripFrom, DocFree, Collapsed, TrimEnd;
    var lines := Lines(prompt);
    JoinLines(prompt);
    FoldedLines(prompt, lines, parts);
    var all := lines + Tail(parts);
    TailStarts(parts);
    StripFront(lines, Tail(parts), 0);
    OccursWhole(all);
    OccursJoin(all, 0, lines, Tail(parts));
    StripTail(all, |lines|, parts);
    assert lines[0..] == lines;
    TrimFront(lines, |parts|);
    TrimCollapsed(Join(lines + Empties(|parts|)));
  }

  predicate Replays(format: nat -> bool, prompt: Text, hits: seq<Hit>) {
    var folded := FoldedOf(format, prompt, hits);
    StripOf(folded.prompt) == History(TrimEnd(prompt), folded.count)
  }

  /** Stripping undoes folding and counts what was folded. */
  lemma FoldStrip(format: nat -> bool, prompt: Text, hits: seq<Hit>)
    requires DocFree(Lines(prompt), 0)
    ensures Replays(format, prompt, hits)
  {
    hide Lines, DocFree, StripOf, TrimEnd, JoinParts, Passages;
    PassagesOk(format, hits, DOC_INJECT_MAX_CHARS);
    var parts := Passages(format, hits, DOC_INJECT_MAX_CHARS);
    StripFolded(prompt, parts);
    if hits == [] {
      StripFolded(prompt, []);
      assert JoinParts([prompt] + Texts([])) == prompt by { JoinAlone(prompt); }
    }
  }

  lemma JoinAlone(prompt: Text)
    ensures JoinParts([prompt] + Texts([])) == prompt
  {
    assert [prompt] + Texts([]) == [prompt];
  }

  // ------------------------------------------------------------ and only then

  const SAMPLE := Hit([120], [], None, [97], None)

  /** The five lines of the sample passage: none but the fences is a fence, and no label
      opens among them after the first. */
  lemma SampleTail(format: nat -> bool)
    ensures var parts := Passages(format, [SAMPLE], DOC_INJECT_MAX_CHARS);
      && |parts| == 1
      && var tail := Tail(parts);
         && |tail| == 5 && FenceRun(tail[0]) == 0 && FenceRun(tail[1]) == 0 && FenceRun(tail[2]) == 3
         && FenceRun(tail[3]) == 0 && LabelOf(tail[3]).None? && LabelOf(tail[4]).None?
  {
    hide Citation, Trim, PassagePart, Passages;
    var text := Fit([120], DOC_INJECT_MAX_CHARS, FromStart);
    assert text == [120] by { assert Utf8([120]) == Cost(120) + Utf8([]); }
    PassagesUnfold(format, [SAMPLE], DOC_INJECT_MAX_CHARS);
    assert Trim([120]) != [] by { TrimBlank([120]); }
    assert [SAMPLE][1..] == [];
    PassagesUnfold(format, [], DOC_INJECT_MAX_CHARS - 1);
    var p := PassagePart(format, SAMPLE, text);
    SampleLines(format, p);
  }

  lemma SampleLines(format: nat -> bool, p: Part)
    requires p == PassagePart(format, SAMPLE, [120])
    ensures var tail := Tail([p]);
      && |tail| == 5 && FenceRun(tail[0]) == 0 && FenceRun(tail[1]) == 0 && FenceRun(tail[2]) == 3
      && FenceRun(tail[3]) == 0 && LabelOf(tail[3]).None? && LabelOf(tail[4]).None?
  {
    hide Citation, LabelOf, Lines;
    assert Lines([120]) == [[120]] by { OneLineOnly(); }
    var fence := FenceFor([120]);
    FenceIsFence([120]);
    assert Longest([120]) == 0 by { assert Longest([]) == 0; }
    assert Tail([p]) == [[]] + [p.mark, fence] + [[120]] + [fence] + Tail([]);
    assert DocsOpen()[0] == 91;
    assert p.mark[0] == 91;
    NotLabels(fence);
  }

  lemma OneLineOnly()
    ensures Lines([120]) == [[120]]
  {
    assert [120][1..] == [];
  }

  lemma NotLabels(fence: Text)
    requires fence != [] && fence[0] == TICK
    ensures LabelOf([120]).None? && LabelOf(fence).None?
  {
    if LabelOf([120]).Some? { LabelStarts([120]); }
    if LabelOf(fence).Some? { LabelStarts(fence); }
  }

  /** Where a prompt breaks the discipline, stripping counts wrongly: one doc block too
      many on its own, or none at all once a passage follows. */
  lemma {:induction false} BadFront(front: seq<Text>, tail: seq<Text>, i: nat)
    requires i <= |front| && !DocFree(front, i) && |tail| == 5
    requires FenceRun(tail[0]) == 0 && FenceRun(tail[1]) == 0 && FenceRun(tail[2]) == 3 && FenceRun(tail[3]) == 0
    requires LabelOf(tail[3]).None? && LabelOf(tail[4]).None?
    ensures StripFrom(front, i).count > 0 || StripFrom(front + tail, i).count == 0
    decreases |front| - i
  {
    hide FenceRun, LabelOf, Scan;
    ScanFront(front, tail, i);
    ScanWithin(front, i);
    match Scan(front, i)
    case None => BadFront(front, tail, i + 1);
    case Some(found) =>
      if !found.block.kind.DocBlock? {
        if found.block.truncated { Swallowed(front, tail, i); } else { BadFront(front, tail, found.next); }
      }
  }

  /** An unterminated block swallows the passage after it. */
  lemma Swallowed(front: seq<Text>, tail: seq<Text>, i: nat)
    requires i < |front| && Scan(front, i).Some? && Scan(front, i).value.block.truncated && |tail| == 5
    requires !Scan(front, i).value.block.kind.DocBlock?
    requires FenceRun(tail[0]) == 0 && FenceRun(tail[1]) == 0 && FenceRun(tail[2]) == 3 && FenceRun(tail[3]) == 0
    requires LabelOf(tail[3]).None? && LabelOf(tail[4]).None?
    ensures StripFrom(front + tail, i).count == 0
  {
    hide FenceRun, LabelOf, Join;
    var lines, m := front + tail, |front|;
    var n := FenceRun(front[i + 1]);
    assert lines[i] == front[i] && lines[i + 1] == front[i + 1];
    assert lines[m] == tail[0] && lines[m + 1] == tail[1] && lines[m + 2] == tail[2] && lines[m + 3] == tail[3] && lines[m + 4] == tail[4];
    assert forall k :: i + 2 <= k < m ==> FenceRun(lines[k]) != n by {
      assert forall k :: i + 2 <= k < m ==> lines[k] == front[k];
    }
    var end := CloseAt(lines, i + 2, n);
    if n == 3 { CloseIs(lines, i + 2, n, m + 2); }
    assert end == m + 2 || end >= m + 4;
    LateCount(lines, m + 3);
  }

  lemma LateCount(lines: seq<Text>, i: nat)
    requires i + 2 == |lines| && LabelOf(lines[i]).None? && LabelOf(lines[i + 1]).None?
    ensures StripFrom(lines, i).count == 0 && StripFrom(lines, i + 1).count == 0 && StripFrom(lines, i + 2).count == 0
  {
    hide LabelOf;
    assert StripFrom(lines, i + 2).count == 0;
    assert StripFrom(lines, i + 1) == StripFrom(lines, i + 2).(kept := [lines[i + 1]] + StripFrom(lines, i + 2).kept);
  }

  /** The prompts for which stripping undoes folding whatever is retrieved are exactly
      those without a doc block and without an unterminated block. */
  lemma FoldStripExactly(format: nat -> bool, prompt: Text)
    ensures (forall hits :: Replays(format, prompt, hits)) <==> DocFree(Lines(prompt), 0)
  {
    hide Replays, DocFree, Lines;
    if DocFree(Lines(prompt), 0) {
      forall hits ensures Replays(format, prompt, hits) { FoldStrip(format, prompt, hits); }
    } else {
      var _ := BadPrompt(format, prompt);
    }
  }

  lemma BadPrompt(format: nat -> bool, prompt: Text) returns (hits: seq<Hit>)
    requires !DocFree(Lines(prompt), 0)
    ensures !Replays(format, prompt, hits)
  {
    hide Lines, DocFree, StripFrom, LabelOf, FenceRun, TrimEnd, Collapsed, Passages, Texts, Tail;
    var parts := Passages(format, [SAMPLE], DOC_INJECT_MAX_CHARS);
    SampleTail(format);
    PassagesOk(format, [SAMPLE], DOC_INJECT_MAX_CHARS);
    JoinLines(prompt);
    FoldedLines(prompt, Lines(prompt), parts);
    BadFront(Lines(prompt), Tail(parts), 0);
    if StripFrom(Lines(prompt), 0).count > 0 {
      hits := [];
      assert FoldedOf(format, prompt, hits) == Folded(prompt, 0);
      assert StripOf(prompt).count > 0;
    } else {
      hits := [SAMPLE];
      var content := JoinParts([prompt] + Texts(parts));
      assert FoldedOf(format, prompt, hits) == Folded(content, 1);
      assert StripOf(content).count == 0;
    }
  }
}
