/** What src/lib/attachInput.ts shows of a retrieved passage, which passages it folds, and
    the transcripts of images, as the splitter reads them back. */
module AttachCites {
  import opened Basics
  import opened TextLines
  import opened FitText
  import opened Attach
  import opened AttachFold
  import opened AttachTrips
  import opened AttachLabels

  // ------------------------------------------------------------ label fields

  /** The characters that are no space, each with whether a space stands before it. */
  function Marks(t: Text, behind: bool): seq<(nat, bool)> {
    if t == [] then []
    else if IsSpaceCode(t[0]) then Marks(t[1..], true)
    else [(t[0], behind)] + Marks(t[1..], false)
  }

  /** Spaces are single blanks, and none stands at the front or at the end. */
  predicate Tidy(t: Text) {
    && SingleBlanks(t) && (t != [] ==> !IsSpaceCode(t[0]) && !IsSpaceCode(t[|t| - 1]))
  }

  predicate SingleBlanks(t: Text) {
    forall k | 0 <= k < |t| :: IsSpaceCode(t[k]) ==> t[k] == 32 && (k + 1 < |t| ==> !IsSpaceCode(t[k + 1]))
  }

  /** The same words, with a blank between any two. */
  predicate TidyOf(t: Text, r: Text) { Tidy(r) && Marks(r, true) == Marks(t, true) }

  /** Brackets become parentheses, a tick an apostrophe; controls, format characters and
      line separators become blanks. */
  predicate Stands(format: nat -> bool, c: nat, d: nat) {
    if c <= 0x1f || 0x7f <= c <= 0x9f || c == 0x2028 || c == 0x2029 || format(c) then d == 32
    else if c == '[' as nat then d == '(' as nat
    else if c == ']' as nat then d == ')' as nat
    else if c == '`' as nat then d == '\'' as nat
    else d == c
  }

  lemma {:induction false} SqueezedMarks(t: Text, behind: bool)
    ensures Marks(Squeezed(t), behind) == Marks(t, behind) && SingleBlanks(Squeezed(t))
    ensures Squeezed(t) == [] <==> t == []
    ensures t != [] ==> (IsSpaceCode(Squeezed(t)[0]) <==> IsSpaceCode(t[0]))
  {
    hide IsSpaceCode;
    BlankIsSpace();
    if t == [] {
    } else if !IsSpaceCode(t[0]) {
      SqueezedMarks(t[1..], false);
      assert Squeezed(t)[1..] == Squeezed(t[1..]);
    } else if |t| > 1 && IsSpaceCode(t[1]) {
      SqueezedMarks(t[1..], behind);
      SqueezedMarks(t[1..], true);
    } else {
      SqueezedMarks(t[1..], true);
      assert Squeezed(t)[1..] == Squeezed(t[1..]);
    }
  }

  lemma BlankIsSpace()
    ensures IsSpaceCode(32)
  {
  }

  lemma {:induction false} TrimStartMarks(t: Text)
    requires SingleBlanks(t)
    ensures Marks(TrimStart(t), true) == Marks(t, true) && SingleBlanks(TrimStart(t))
    ensures TrimStart(t) != [] ==> !IsSpaceCode(TrimStart(t)[0]) && TrimStart(t)[|TrimStart(t)| - 1] == t[|t| - 1]
  {
    hide IsSpaceCode;
    if t != [] && IsSpaceCode(t[0]) { TrimStartMarks(t[1..]); }
  }

  lemma {:induction false} LastSpace(t: Text, behind: bool)
    requires t != [] && IsSpaceCode(t[|t| - 1])
    ensures Marks(t[..|t| - 1], behind) == Marks(t, behind)
  {
    hide IsSpaceCode;
    if |t| > 1 {
      assert t[..|t| - 1][1..] == t[1..][..|t| - 2];
      LastSpace(t[1..], if IsSpaceCode(t[0]) then true else false);
    }
  }

  lemma {:induction false} TrimEndMarks(t: Text, behind: bool)
    requires SingleBlanks(t)
    ensures Marks(TrimEnd(t), behind) == Marks(t, behind) && SingleBlanks(TrimEnd(t))
    decreases |t|
  {
    hide IsSpaceCode;
    if t != [] && IsSpaceCode(t[|t| - 1]) {
      LastSpace(t, behind);
      TrimEndMarks(t[..|t| - 1], behind);
    }
  }

  /** A field shows the words of its value with harmless characters, cut from the end when
      they take more than 160 bytes. */
  lemma FieldExactly(format: nat -> bool, value: Text)
    ensures exists tamed: Text, tidy: Text ::
      && |tamed| == |value| && (forall k :: 0 <= k < |value| ==> Stands(format, value[k], tamed[k]))
      && TidyOf(tamed, tidy) && Sanitized(format, value) <= tidy
      && (Utf8(tidy) <= 160 ==> Sanitized(format, value) == tidy)
  {
    hide Marks, Squeezed, TrimEnd, TrimStart, Trim, Tidy, Fit, Utf8, IsSpaceCode;
    var tamed := seq(|value|, k requires 0 <= k < |value| => Tamed(format, value[k]));
    var squeezed := Squeezed(tamed);
    SqueezedMarks(tamed, true);
    var tidy := Trim(squeezed);
    FitStart(tidy, DOC_LABEL_FIELD_MAX_BYTES);
    var fitted := Fit(tidy, DOC_LABEL_FIELD_MAX_BYTES, FromStart);
    TrimIsTidy(squeezed);
    assert TidyOf(tamed, tidy);
    PrefixOf(TrimEnd(fitted), fitted, tidy);
    if Utf8(tidy) <= 160 { TidyEnds(tidy); }
    assert Stands(format, 0, 32);
  }

  lemma {:induction false} EndsInNoSpace(t: Text)
    ensures TrimEnd(t) != [] ==> !IsSpaceCode(TrimEnd(t)[|TrimEnd(t)| - 1])
  {
  }

  lemma TrimIsTidy(t: Text)
    requires SingleBlanks(t)
    ensures Tidy(Trim(t)) && Marks(Trim(t), true) == Marks(t, true)
  {
    hide Marks;
    var cut := TrimEnd(t);
    EndsInNoSpace(t);
    TrimEndMarks(t, true);
    TrimStartMarks(cut);
  }

  lemma PrefixOf(a: Text, b: Text, c: Text)
    requires a <= b <= c
    ensures a <= c
  {
  }

  lemma TidyEnds(t: Text)
    requires Tidy(t)
    ensures TrimEnd(t) == t
  {
  }

  // ------------------------------------------------------------ citations

  function Shown(format: nat -> bool, value: Text, absent: string): Text {
    if Sanitized(format, value) == [] then Units(absent) else Sanitized(format, value)
  }

  /** Where the passage comes from, and its file. */
  function CitedName(format: nat -> bool, hit: Hit): Text {
    (match hit.bucket
     case None => []
     case Some(Local(name)) => Units("Local / ") + Shown(format, name, "Unnamed bucket") + Units(" / ")
     case Some(Qdrant(name, connection)) =>
       Units("Qdrant / ") + Shown(format, connection, "Unknown connection") + Units(" / ")
       + Shown(format, name, "Unnamed bucket") + Units(" / "))
    + Shown(format, hit.fileName, "Untitled document")
  }

  predicate IsPage(t: Text, page: nat) {
    && t != [] && (t[0] == '0' as nat ==> |t| == 1) && (forall k | 0 <= k < |t| :: '0' as nat <= t[k] <= '9' as nat)
    && Value(t) == page
  }

  function Value(t: Text): nat
    requires forall k | 0 <= k < |t| :: '0' as nat <= t[k] <= '9' as nat
  {
    if t == [] then 0 else 10 * Value(t[..|t| - 1]) + (t[|t| - 1] - '0' as nat)
  }

  /** Page and heading, where the passage has them. */
  ghost predicate CitedPlace(format: nat -> bool, hit: Hit, place: Option<Text>) {
    var heading := Sanitized(format, hit.heading);
    match hit.page
    case None => place == if heading == [] then None else Some(heading)
    case Some(page) =>
      exists digits: Text :: IsPage(digits, page)
        && place == Some(Units("p.") + digits + if heading == [] then [] else Dash() + heading)
  }

  lemma {:induction false} DecimalIsPage(n: nat)
    ensures IsPage(Decimal(n), n)
  {
    if n >= 10 {
      DecimalIsPage(n / 10);
      assert Decimal(n)[..|Decimal(n)| - 1] == Decimal(n / 10);
      if Decimal(n)[0] == '0' as nat { assert Decimal(n / 10)[0] == '0' as nat; DecimalZero(n / 10); }
    } else {
      assert Decimal(n)[..0] == [];
    }
  }

  lemma DecimalZero(n: nat)
    requires n > 0
    ensures Decimal(n)[0] != '0' as nat
  {
    if n >= 10 { DecimalZero(n / 10); }
  }

  /** No dash that announces a place stands in the name. */
  ghost predicate DashFree(name: Text, place: Option<Text>) {
    forall k: nat :: k < |name| ==> !Splits(Cited(name, place), Dash(), k)
  }

  lemma CitationIs(format: nat -> bool, hit: Hit) returns (place: Option<Text>)
    ensures CitedPlace(format, hit, place)
    ensures Citation(format, hit) == Cited(CitedName(format, hit), place)
    ensures place.Some? ==> place.value != []
  {
    hide Sanitized, Units, Decimal, IsPage;
    FixedTexts();
    SlashIs();
    assert Source(format, hit.bucket) + OrElse(Sanitized(format, hit.fileName), "Untitled document") == CitedName(format, hit);
    var locator := Locator(format, hit);
    place := if locator == [] then None else Some(locator);
    if hit.page.Some? {
      DecimalIsPage(hit.page.value);
      var digits := Decimal(hit.page.value);
      var heading := Sanitized(format, hit.heading);
      PageShows(digits);
      assert locator == Units("p.") + digits + if heading == [] then [] else Dash() + heading;
    }
  }

  lemma SlashIs()
    ensures Slash() == Units(" / ")
  {
  }

  lemma PageShows(digits: Text)
    ensures Units("p.") + digits != [] && Units("p.") + digits + [] == Units("p.") + digits
    ensures forall heading: Text :: Units("p.") + digits + Locating() + heading == Units("p.") + digits + (Dash() + heading)
  {
    FixedTexts();
    forall heading: Text ensures Units("p.") + digits + Locating() + heading == Units("p.") + digits + (Dash() + heading) {
    }
  }

  /** The label of a passage is read back as the file it names and the place in it, unless
      the name itself holds the dash that announces a place. */
  lemma CitationExactly(format: nat -> bool, hit: Hit) returns (place: Option<Text>)
    ensures CitedPlace(format, hit, place)
    ensures var name := CitedName(format, hit);
      var mark := PassagePart(format, hit, []).mark;
      && mark == DocLine(name, place)
      && (DocLabel(mark) == Some(Block(DocBlock, name, None, place, [], false)) <==> DashFree(name, place))
  {
    hide CitedName, CitedPlace, Citation, DashFree, DocLabel, OneLine;
    place := CitationIs(format, hit);
    var name := CitedName(format, hit);
    CitationIsOneLine(format, hit);
    FixedTexts();
    MarkIs(format, hit);
    NameShows(format, hit);
    ReadBack(name, place);
  }

  lemma MarkIs(format: nat -> bool, hit: Hit)
    ensures PassagePart(format, hit, []).mark == DocsOpen() + Citation(format, hit) + [93]
  {
    hide Citation;
  }

  lemma NameShows(format: nat -> bool, hit: Hit)
    ensures CitedName(format, hit) != []
  {
    hide Sanitized;
    assert Units("Untitled document")[0] == 'U' as nat;
  }

  lemma ReadBack(name: Text, place: Option<Text>)
    requires name != [] && (place.Some? ==> place.value != [])
    requires OneLine(Cited(name, place))
    ensures DocLabel(DocLine(name, place)) == Some(Block(DocBlock, name, None, place, [], false)) <==> DashFree(name, place)
  {
    hide OneLine, DocLabel;
    var line := DocLine(name, place);
    if DashFree(name, place) {
      if place.None? {
        forall k: nat ensures !Splits(name, Dash(), k) { if k < |name| { assert !Splits(Cited(name, place), Dash(), k); } }
      }
      DocRead(line, name, place);
    }
    if DocLabel(line) == Some(Block(DocBlock, name, None, place, [], false)) {
      DocFound(line);
    }
  }

  // ------------------------------------------------------------ which passages are folded

  /** What is left of the budget before passage k. */
  function Left(parts: seq<Part>, budget: nat, k: nat): int
    requires k <= |parts|
  {
    if k == 0 then budget else Left(parts, budget, k - 1) - |parts[k - 1].body|
  }

  function Cut(hit: Hit, left: int): Text {
    Fit(hit.text, if left < 0 then 0 else if left < 4_000 then left else 4_000, FromStart)
  }

  lemma {:induction false} LeftShifts(parts: seq<Part>, budget: nat, k: nat)
    requires 0 < k <= |parts| && |parts[0].body| <= budget
    ensures Left(parts, budget, k) == Left(parts[1..], budget - |parts[0].body|, k - 1)
  {
    if k > 1 { LeftShifts(parts, budget, k - 1); }
  }

  predicate PassageIs(format: nat -> bool, hit: Hit, part: Part, left: int) {
    && left > 0 && part.body == Cut(hit, left) && Trim(part.body) != []
    && part.mark == Units("[docs: ") + Citation(format, hit) + Units("]")
  }

  /** The first hits are folded, each as much of it as the budget still holds, until the
      budget is spent or what is left of a hit would be blank. */
  ghost predicate FoldedSo(format: nat -> bool, hits: seq<Hit>, budget: nat, parts: seq<Part>) {
    && |parts| <= |hits|
    && (forall k :: 0 <= k < |parts| ==> PassageIs(format, hits[k], parts[k], Left(parts, budget, k)))
    && (|parts| < |hits| ==> Stops(hits[|parts|], Left(parts, budget, |parts|)))
  }

  predicate Stops(hit: Hit, left: int) { left <= 0 || Trim(Cut(hit, left)) == [] }

  lemma OneAhead(format: nat -> bool, hits: seq<Hit>, budget: nat, p: Part, rest: seq<Part>)
    requires hits != [] && PassageIs(format, hits[0], p, budget) && |p.body| < budget
    requires FoldedSo(format, hits[1..], budget - |p.body|, rest)
    ensures FoldedSo(format, hits, budget, [p] + rest)
  {
    hide PassageIs, Stops, Left;
    var parts := [p] + rest;
    assert parts[1..] == rest;
    LeftFirst(parts, budget);
    forall k | 0 < k <= |parts| ensures Left(parts, budget, k) == Left(rest, budget - |p.body|, k - 1) { LeftShifts(parts, budget, k); }
    forall k | 0 < k < |parts| ensures PassageIs(format, hits[k], parts[k], Left(parts, budget, k)) {
      assert parts[k] == rest[k - 1] && hits[k] == hits[1..][k - 1];
    }
    if |parts| < |hits| { assert hits[|parts|] == hits[1..][|rest|]; }
  }

  lemma LeftFirst(parts: seq<Part>, budget: nat)
    ensures Left(parts, budget, 0) == budget
    ensures parts != [] ==> Left(parts, budget, 1) == budget - |parts[0].body|
  {
  }

  lemma {:induction false} PassagesExactly(format: nat -> bool, hits: seq<Hit>, budget: nat)
    requires budget > 0
    ensures FoldedSo(format, hits, budget, Passages(format, hits, budget))
    decreases |hits|
  {
    hide Fit, Trim, PassagePart, Passages, Citation, Left;
    PassagesUnfold(format, hits, budget);
    var parts := Passages(format, hits, budget);
    LeftFirst(parts, budget);
    if hits != [] {
      var text := Cut(hits[0], budget);
      FitStart(hits[0].text, if budget < 4_000 then budget else 4_000);
      if Trim(text) != [] {
        MarkOf(format, hits[0], text);
        var left := budget - |text|;
        if left > 0 {
          var rest := Passages(format, hits[1..], left);
          PassagesExactly(format, hits[1..], left);
          OneAhead(format, hits, budget, parts[0], rest);
          assert parts == [parts[0]] + rest;
        }
      }
    }
  }

  lemma MarkOf(format: nat -> bool, hit: Hit, text: Text)
    ensures PassagePart(format, hit, text).body == text
    ensures PassagePart(format, hit, text).mark == Units("[docs: ") + Citation(format, hit) + Units("]")
  {
    hide Citation;
    FixedTexts();
  }

  // ------------------------------------------------------------ images

  /** Which of the staged attachments go out as images: those with data, in their order. */
  predicate Picks(staged: seq<Attachment>, places: seq<nat>) {
    && (forall k | 0 <= k < |places| :: places[k] < |staged| && staged[places[k]].image && staged[places[k]].data != [])
    && (forall j, k | 0 <= j < k < |places| :: places[j] < places[k])
    && (forall i | 0 <= i < |staged| :: staged[i].image && staged[i].data != [] ==> i in places)
  }

  ghost predicate SentAs(staged: seq<Attachment>, places: seq<nat>, images: seq<Image>) {
    Picks(staged, places) && Copies(staged, places, images)
  }

  ghost predicate Copies(staged: seq<Attachment>, places: seq<nat>, images: seq<Image>) {
    |images| == |places| && forall k :: 0 <= k < |places| ==> IsImageOf(staged, places[k], images[k])
  }

  predicate IsImageOf(staged: seq<Attachment>, i: nat, image: Image) {
    i < |staged| && image == Image(staged[i].mediaType, staged[i].data)
  }

  function Later(places: seq<nat>): (r: seq<nat>)
    ensures |r| == |places| && forall k :: 0 <= k < |r| ==> r[k] == places[k] + 1
  {
    seq(|places|, k requires 0 <= k < |places| => places[k] + 1)
  }

  lemma LaterPicks(a: Attachment, staged: seq<Attachment>, places: seq<nat>)
    requires Picks(staged, places)
    ensures Picks([a] + staged, (if a.image && a.data != [] then [0] else []) + Later(places))
  {
    var all, later := [a] + staged, Later(places);
    var next := (if a.image && a.data != [] then [0] else []) + later;
    forall i | 0 <= i < |all| && all[i].image && all[i].data != [] ensures i in next {
      if i > 0 {
        assert all[i] == staged[i - 1];
        LaterHas(places, i - 1);
      }
    }
    assert forall k :: 0 <= k < |later| ==> all[later[k]] == staged[places[k]];
  }

  lemma LaterHas(places: seq<nat>, i: nat)
    requires i in places
    ensures i + 1 in Later(places)
  {
    var j :| 0 <= j < |places| && places[j] == i;
    assert Later(places)[j] == i + 1;
  }

  lemma {:induction false} ImagesExactly(staged: seq<Attachment>) returns (places: seq<nat>)
    ensures SentAs(staged, places, Images(staged))
  {
    hide Picks, IsImageOf, Images;
    if staged == [] {
      places := [];
      NothingPicked();
    } else {
      var rest := ImagesExactly(staged[1..]);
      LaterPicks(staged[0], staged[1..], rest);
      assert [staged[0]] + staged[1..] == staged;
      var later := Later(rest);
      places := (if staged[0].image && staged[0].data != [] then [0] else []) + later;
      InPlace(staged, rest);
    }
  }

  lemma NothingPicked()
    ensures Picks([], []) && Images([]) == []
  {
  }

  lemma InPlace(staged: seq<Attachment>, rest: seq<nat>)
    requires staged != [] && Copies(staged[1..], rest, Images(staged[1..]))
    ensures Copies(staged, (if staged[0].image && staged[0].data != [] then [0] else []) + Later(rest), Images(staged))
  {
    hide Images, IsImageOf;
    ImagesUnfold(staged);
    var sent := staged[0].image && staged[0].data != [];
    var places := (if sent then [0] else []) + Later(rest);
    forall k | 0 <= k < |places| ensures IsImageOf(staged, places[k], Images(staged)[k]) {
      if sent && k == 0 {
        FirstImage(staged);
      } else {
        var j := if sent then k - 1 else k;
        assert Images(staged)[k] == Images(staged[1..])[j] && places[k] == rest[j] + 1;
        MovedImage(staged, rest[j], Images(staged[1..])[j]);
      }
    }
  }

  lemma FirstImage(staged: seq<Attachment>)
    requires staged != []
    ensures IsImageOf(staged, 0, Image(staged[0].mediaType, staged[0].data))
  {
  }

  lemma MovedImage(staged: seq<Attachment>, i: nat, image: Image)
    requires staged != [] && IsImageOf(staged[1..], i, image)
    ensures IsImageOf(staged, i + 1, image)
  {
  }

  // ------------------------------------------------------------ transcripts

  /** An image, the model that read it and what it read. */
  datatype Transcript = Transcript(name: Text, model: Text, text: Text)

  function TranscriptPart(t: Transcript): Part { Part(ImageLine(t.name, t.model), t.text) }

  function TranscriptParts(ts: seq<Transcript>): seq<Part> {
    if ts == [] then [] else [TranscriptPart(ts[0])] + TranscriptParts(ts[1..])
  }

  /** transcribeImages, once every image has been read. */
  function Transcribed(prompt: Text, ts: seq<Transcript>): Text {
    JoinParts(NonBlank([prompt] + Texts(TranscriptParts(ts))))
  }

  function TranscriptBlocks(ts: seq<Transcript>): seq<Block> {
    if ts == [] then []
    else [Block(ImageBlock, ts[0].name, Some(ts[0].model), None, ts[0].text, false)] + TranscriptBlocks(ts[1..])
  }

  ghost predicate Labelled(t: Transcript) { IsImageLine(ImageLine(t.name, t.model), t.name, t.model) }

  lemma TranscriptMarked(t: Transcript)
    requires Labelled(t)
    ensures var p := TranscriptPart(t);
      Marked(p) && PartOk(p) && BlockOf(p) == Block(ImageBlock, t.name, Some(t.model), None, t.text, false)
  {
    hide OneLine, LabelOf, Splits, ImageLine;
    var b := Block(ImageBlock, t.name, Some(t.model), None, [], false);
    LabelExactly(ImageLine(t.name, t.model), b);
    ImageLineStarts(t.name, t.model);
  }

  lemma ImageLineStarts(name: Text, model: Text)
    requires OneLine(name + Sep() + model)
    ensures var line := ImageLine(name, model); line != [] && line[0] == '[' as nat && !IsSpaceCode(line[0]) && LINE_FEED !in line
  {
    ImageText(name, model);
    var line := ImageLine(name, model);
    assert line[0] == Units("[image: ")[0];
    assert LINE_FEED !in Units("[image: ") && LINE_FEED !in Units("]");
    assert LINE_FEED !in name + Sep() + model;
  }

  lemma {:induction false} TranscriptsMarked(ts: seq<Transcript>)
    requires forall k :: 0 <= k < |ts| ==> Labelled(ts[k])
    ensures var parts := TranscriptParts(ts);
      PartsOk(parts) && Blocks(parts) == TranscriptBlocks(ts) && forall k :: 0 <= k < |parts| ==> Marked(parts[k])
  {
    hide Labelled, Marked, PartOk, TranscriptPart, BlockOf;
    if ts != [] {
      TranscriptMarked(ts[0]);
      TranscriptsMarked(ts[1..]);
      assert TranscriptParts(ts)[1..] == TranscriptParts(ts[1..]);
    }
  }

  /** Splitting a transcribed prompt gives back the prompt and each transcript with its
      image and model. */
  lemma TranscriptSplit(prompt: Text, ts: seq<Transcript>)
    requires NoPair(Lines(prompt)) && forall k :: 0 <= k < |ts| ==> Labelled(ts[k])
    ensures SplitOf(Transcribed(prompt, ts)) == Split(Trim(prompt), TranscriptBlocks(ts))
  {
    hide Lines, Trim, SplitOf, NoPair, JoinParts, Labelled, Marked, Texts;
    TranscriptsMarked(ts);
    KeptFolded(prompt, TranscriptParts(ts));
  }

  lemma KeptFolded(prompt: Text, parts: seq<Part>)
    requires NoPair(Lines(prompt)) && PartsOk(parts) && forall k :: 0 <= k < |parts| ==> Marked(parts[k])
    ensures SplitOf(JoinParts(NonBlank([prompt] + Texts(parts)))) == Split(Trim(prompt), Blocks(parts))
  {
    hide Lines, Trim, SplitOf, PartsOk, NoPair, JoinParts, Marked, Blocks;
    TextsKept(parts);
    assert ([prompt] + Texts(parts))[1..] == Texts(parts);
    if Trim(prompt) != [] {
      SplitFolded(prompt, parts);
    } else if parts != [] {
      assert [] + Texts(parts) == Texts(parts);
      SplitBare(parts);
    } else {
      NothingOpens();
      assert Texts(parts) == [] && NonBlank([prompt] + Texts(parts)) == [] + NonBlank([]) == [];
      SplitFolded([], []);
      JoinNothing();
    }
  }
}
