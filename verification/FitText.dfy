/** fitUtf8 of src/lib/attachments.ts: cut a text to a number of UTF-8 bytes, keeping its
    beginning or its end. */
module FitText {
  import opened Basics
  import opened TextLines

  predicate High(c: nat) { 0xd800 <= c <= 0xdbff }

  predicate Low(c: nat) { 0xdc00 <= c <= 0xdfff }

  function Cost(c: nat): (n: nat)
    ensures 1 <= n <= 3
  {
    if c < 0x80 then 1 else if c < 0x800 then 2 else 3
  }

  /** Length of the UTF-8 encoding; a lone surrogate becomes the replacement character. */
  function Utf8(t: Text): (n: nat)
    ensures n >= |t|
  {
    if t == [] then 0
    else if |t| >= 2 && High(t[0]) && Low(t[1]) then 4 + Utf8(t[2..])
    else Cost(t[0]) + Utf8(t[1..])
  }

  datatype Keep = FromStart | FromEnd

  /** slice(0, chars) or slice(-chars); slice(-0) is the whole text. */
  function Take(t: Text, chars: nat, keep: Keep): Text
    requires chars <= |t|
  {
    if keep.FromStart? then t[..chars] else if chars == 0 then t else t[|t| - chars..]
  }

  /** Shrink by a tenth until what is kept fits. */
  function Shrunk(t: Text, limit: nat, keep: Keep, chars: nat): (n: nat)
    requires chars <= |t|
    ensures n <= chars
    ensures n > 0 ==> Utf8(Take(t, n, keep)) <= limit
    ensures n == 0 && chars > 0 ==> Utf8(Take(t, 1, keep)) > limit
    decreases chars
  {
    if chars > 0 && Utf8(Take(t, chars, keep)) > limit then Shrunk(t, limit, keep, 9 * chars / 10) else chars
  }

  function Start(t: Text, limit: nat): nat { if |t| < limit then |t| else limit }

  function Fit(t: Text, limit: nat, keep: Keep): Text {
    if Utf8(t) <= limit then t else Take(t, Shrunk(t, limit, keep, Start(t, limit)), keep)
  }

  /** fitUtf8 */
  method FitUtf8(text: Text, limit: nat, keep: Keep) returns (out: Text, chars: nat)
    ensures out == Fit(text, limit, keep)
    ensures chars <= |text| && (Utf8(text) > limit ==> out == Take(text, chars, keep))
  {
    if Utf8(text) <= limit { return text, |text|; }
    chars := if |text| < limit then |text| else limit;
    out := Take(text, chars, keep);
    while chars > 0 && Utf8(out) > limit
      invariant chars <= |text| && out == Take(text, chars, keep)
      invariant Shrunk(text, limit, keep, Start(text, limit)) == Shrunk(text, limit, keep, chars)
      decreases chars
    {
      chars := 9 * chars / 10;
      out := Take(text, chars, keep);
    }
  }

  /** Keeping the beginning always fits, keeps a prefix, and cuts only what is too long. */
  lemma FitStart(t: Text, limit: nat)
    ensures var out := Fit(t, limit, FromStart);
      && out <= t && Utf8(out) <= limit && |out| <= limit
      && (out == t <==> Utf8(t) <= limit)
  {
  }

  /** The last unit costs no more than any text that ends with it. */
  lemma {:induction false} LastIsCheap(t: Text)
    requires t != []
    ensures Cost(t[|t| - 1]) <= Utf8(t)
  {
    if |t| >= 2 && High(t[0]) && Low(t[1]) {
      if |t| > 2 { LastIsCheap(t[2..]); }
    } else if |t| > 1 {
      LastIsCheap(t[1..]);
    }
  }

  lemma OneUnit(c: nat)
    ensures Utf8([c]) == Cost(c)
  {
    assert Utf8([c]) == Cost(c) + Utf8([]);
  }

  /** Keeping the end gives an end of the text that fits, or the whole text. */
  lemma FitEndIsEnd(t: Text, limit: nat)
    ensures var out := Fit(t, limit, FromEnd);
      && |out| <= |t| && out == t[|t| - |out|..]
      && (Utf8(out) <= limit || out == t)
      && (t != [] ==> out != [])
  {
    hide Utf8;
  }

  /** Keeping the end fits exactly when the last unit alone does: below that, chars
      reaches zero and slice(-0) gives the whole text back. */
  lemma FitEndExactly(t: Text, limit: nat)
    ensures Utf8(Fit(t, limit, FromEnd)) <= limit <==> t == [] || Cost(t[|t| - 1]) <= limit
    ensures limit >= 3 ==> Utf8(Fit(t, limit, FromEnd)) <= limit
    ensures Utf8(Fit(t, limit, FromEnd)) > limit ==> Fit(t, limit, FromEnd) == t
  {
    hide Utf8, Shrunk, Fit;
    var out := Fit(t, limit, FromEnd);
    FitEndIsEnd(t, limit);
    if t == [] {
      NothingCosts();
    } else {
      LastIsCheap(out);
      assert out[|out| - 1] == t[|t| - 1];
      if Cost(t[|t| - 1]) <= limit { LastFits(t, limit); }
    }
  }

  lemma NothingCosts()
    ensures Utf8([]) == 0
  {
  }

  lemma LastFits(t: Text, limit: nat)
    requires t != [] && Cost(t[|t| - 1]) <= limit
    ensures Utf8(Fit(t, limit, FromEnd)) <= limit
  {
    hide Utf8;
    OneUnit(t[|t| - 1]);
    assert Take(t, 1, FromEnd) == [t[|t| - 1]];
  }

  /** A two-unit text that cannot be cut to two bytes comes back whole. */
  lemma FitEndTooSmall()
    ensures var t := [0x20ac, 0x20ac]; Fit(t, 2, FromEnd) == t && Utf8(Fit(t, 2, FromEnd)) > 2
  {
    hide Utf8, Fit;
    FitEndExactly([0x20ac, 0x20ac], 2);
  }

  lemma {:induction false} ShrunkSteps(t: Text, limit: nat, keep: Keep, chars: nat)
    requires chars <= |t|
    ensures var n := Shrunk(t, limit, keep, chars);
      n == chars || exists longer: nat :: longer <= chars && n == 9 * longer / 10 && Utf8(Take(t, longer, keep)) > limit
    decreases chars
  {
    if chars > 0 && Utf8(Take(t, chars, keep)) > limit { ShrunkSteps(t, limit, keep, 9 * chars / 10); }
  }

  /** Not more is cut than a step demands: what is kept is as long as it may be at all, or
      a tenth more would not have fitted. */
  lemma FitKeeps(t: Text, limit: nat, keep: Keep)
    ensures Utf8(t) <= limit ==> Fit(t, limit, keep) == t
    ensures Utf8(t) > limit ==>
      exists chars: nat :: chars <= |t| && Fit(t, limit, keep) == Take(t, chars, keep)
        && (|| chars == (if |t| < limit then |t| else limit)
            || exists longer: nat :: longer <= |t| && chars == 9 * longer / 10 && Utf8(Take(t, longer, keep)) > limit)
  {
    hide Utf8, Shrunk, Take;
    ShrunkSteps(t, limit, keep, Start(t, limit));
    var chars := Shrunk(t, limit, keep, Start(t, limit));
    assert Utf8(t) > limit ==> Fit(t, limit, keep) == Take(t, chars, keep);
  }

  // ------------------------------------------------------------ UTF-8

  /** The code points of a text: surrogate pairs joined, lone surrogates replaced. */
  function Scalars(t: Text): seq<nat> {
    if t == [] then []
    else if |t| >= 2 && 0xd800 <= t[0] < 0xdc00 && 0xdc00 <= t[1] < 0xe000 then
      [0x10000 + 0x400 * (t[0] - 0xd800) + (t[1] - 0xdc00)] + Scalars(t[2..])
    else [if 0xd800 <= t[0] < 0xe000 then 0xfffd else t[0]] + Scalars(t[1..])
  }

  /** The bytes of one code point. */
  function Bytes(c: nat): seq<nat> {
    if c < 0x80 then [c]
    else if c < 0x800 then [0xc0 + c / 0x40, 0x80 + c % 0x40]
    else if c < 0x10000 then [0xe0 + c / 0x1000, 0x80 + c / 0x40 % 0x40, 0x80 + c % 0x40]
    else [0xf0 + c / 0x40000, 0x80 + c / 0x1000 % 0x40, 0x80 + c / 0x40 % 0x40, 0x80 + c % 0x40]
  }

  function Encoded(cs: seq<nat>): seq<nat> { if cs == [] then [] else Bytes(cs[0]) + Encoded(cs[1..]) }

  /** The measured length is that of the encoded text. */
  lemma {:induction false} EncodedLength(t: Text)
    requires forall k :: 0 <= k < |t| ==> t[k] < 0x10000
    ensures |Encoded(Scalars(t))| == Utf8(t)
    decreases |t|
  {
    hide Bytes;
    if t != [] {
      var n := if |t| >= 2 && High(t[0]) && Low(t[1]) then 2 else 1;
      var cs := Scalars(t);
      EncodedLength(t[n..]);
      assert cs[1..] == Scalars(t[n..]);
      BytesOf(cs[0]);
    }
  }

  lemma BytesOf(c: nat)
    ensures |Bytes(c)| == if c < 0x80 then 1 else if c < 0x800 then 2 else if c < 0x10000 then 3 else 4
  {
  }
}
