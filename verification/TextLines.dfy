/** Texts as sequences of UTF-16 code units, and their lines. */
module TextLines {
  import opened Basics

  type Text = seq<nat>

  const LINE_FEED: nat := 10

  function Units(s: string): (t: Text)
    ensures |t| == |s|
  {
    seq(|s|, i requires 0 <= i < |s| => s[i] as int)
  }

  /** split("\n") */
  function Lines(t: Text): (lines: seq<Text>)
    ensures lines != []
    ensures forall k :: 0 <= k < |lines| ==> LINE_FEED !in lines[k]
  {
    var i := IndexOf(t, LINE_FEED);
    if i == |t| then NoFeed(t); [t]
    else
      NoFeed(t[..i]);
      [t[..i]] + Lines(t[i + 1..])
  }

  lemma NoFeed(t: Text)
    ensures IndexOf(t, LINE_FEED) == |t| ==> LINE_FEED !in t
    ensures LINE_FEED !in t ==> IndexOf(t, LINE_FEED) == |t|
    ensures LINE_FEED !in t[..IndexOf(t, LINE_FEED)]
  {
    hide IndexOf;
  }

  /** join("\n") */
  function Join(lines: seq<Text>): Text {
    if lines == [] then []
    else if |lines| == 1 then lines[0]
    else lines[0] + [LINE_FEED] + Join(lines[1..])
  }

  predicate FeedFree(lines: seq<Text>) { forall k | 0 <= k < |lines| :: LINE_FEED !in lines[k] }

  lemma {:induction false} JoinLines(t: Text)
    ensures Join(Lines(t)) == t
    decreases |t|
  {
    hide IndexOf;
    var i := IndexOf(t, LINE_FEED);
    if i < |t| {
      JoinLines(t[i + 1..]);
      assert t == t[..i] + [LINE_FEED] + t[i + 1..];
      assert Lines(t)[1..] == Lines(t[i + 1..]);
    }
  }

  lemma {:induction false} LinesJoin(lines: seq<Text>)
    requires lines != [] && FeedFree(lines)
    ensures Lines(Join(lines)) == lines
  {
    hide IndexOf;
    var t := Join(lines);
    if |lines| == 1 {
      NoFeed(lines[0]);
      assert lines == [lines[0]];
    } else {
      var n := |lines[0]|;
      LinesJoin(lines[1..]);
      assert t[n] == LINE_FEED && t[..n] == lines[0] && t[n + 1..] == Join(lines[1..]);
      FirstFeed(t, n);
      assert lines == [lines[0]] + lines[1..];
    }
  }

  lemma FirstFeed(t: Text, n: nat)
    requires n < |t| && t[n] == LINE_FEED && LINE_FEED !in t[..n]
    ensures IndexOf(t, LINE_FEED) == n
  {
    hide IndexOf;
    var i := IndexOf(t, LINE_FEED);
    assert forall k :: 0 <= k < n ==> t[k] == t[..n][k];
  }

  lemma {:induction false} JoinConcat(a: seq<Text>, b: seq<Text>)
    requires a != [] && b != []
    ensures Join(a + b) == Join(a) + [LINE_FEED] + Join(b)
  {
    if |a| == 1 {
      assert (a + b)[1..] == b;
    } else {
      JoinConcat(a[1..], b);
      assert (a + b)[1..] == a[1..] + b;
    }
  }

  // ------------------------------------------------------------ trimming

  function TrimEnd(t: Text): (r: Text)
    ensures r <= t
    ensures r == [] || !IsSpaceCode(r[|r| - 1])
  {
    if t != [] && IsSpaceCode(t[|t| - 1]) then TrimEnd(t[..|t| - 1]) else t
  }

  function TrimStart(t: Text): Text {
    if t != [] && IsSpaceCode(t[0]) then TrimStart(t[1..]) else t
  }

  function Trim(t: Text): Text { TrimStart(TrimEnd(t)) }

  predicate Blank(t: Text) { forall k | 0 <= k < |t| :: IsSpaceCode(t[k]) }

  lemma {:induction false} TrimEndBlank(t: Text, blank: Text)
    requires Blank(blank)
    ensures TrimEnd(t + blank) == TrimEnd(t)
    decreases |blank|
  {
    if blank == [] {
      assert t + blank == t;
    } else {
      var n := |blank| - 1;
      TrimEndBlank(t, blank[..n]);
      assert (t + blank)[|t + blank| - 1] == blank[n] && (t + blank)[..|t + blank| - 1] == t + blank[..n];
    }
  }

  lemma {:induction false} TrimBlank(t: Text)
    ensures Blank(t) <==> TrimEnd(t) == []
    ensures Blank(t) <==> Trim(t) == []
  {
    if t != [] && IsSpaceCode(t[|t| - 1]) {
      TrimBlank(t[..|t| - 1]);
      assert forall k :: 0 <= k < |t| - 1 ==> t[..|t| - 1][k] == t[k];
    } else if t != [] {
      StartKeeps(t);
    }
  }

  lemma {:induction false} StartKeeps(t: Text)
    requires t != [] && !IsSpaceCode(t[|t| - 1])
    ensures TrimStart(t) != []
  {
    if IsSpaceCode(t[0]) { StartKeeps(t[1..]); }
  }

  /** Trimming takes off white space and nothing else. */
  lemma TrimIs(t: Text) returns (before: Text, after: Text)
    ensures t == before + Trim(t) + after && Blank(before) && Blank(after)
    ensures Trim(t) != [] ==> !IsSpaceCode(Trim(t)[0]) && !IsSpaceCode(Trim(t)[|Trim(t)| - 1])
  {
    after := TrimEndIs(t);
    before := TrimStartIs(TrimEnd(t));
  }

  lemma {:induction false} TrimStartIs(t: Text) returns (before: Text)
    ensures t == before + TrimStart(t) && Blank(before)
    ensures TrimStart(t) != [] ==> !IsSpaceCode(TrimStart(t)[0]) && TrimStart(t)[|TrimStart(t)| - 1] == t[|t| - 1]
  {
    hide IsSpaceCode;
    before := [];
    if t != [] && IsSpaceCode(t[0]) {
      before := TrimStartIs(t[1..]);
      before := [t[0]] + before;
    }
  }

  lemma {:induction false} TrimEndIs(t: Text) returns (after: Text)
    ensures t == TrimEnd(t) + after && Blank(after)
    decreases |t|
  {
    hide IsSpaceCode;
    after := [];
    if t != [] && IsSpaceCode(t[|t| - 1]) {
      var n := |t| - 1;
      after := TrimEndIs(t[..n]);
      assert t == t[..n] + [t[n]];
      after := after + [t[n]];
    }
  }
}
