/** Which files a scan of src-tauri/src/ssh_config.rs reads, told from the include graph:
    who includes whom, whatever the order of include lines and directory listings. */
module SshGraph {
  import opened Basics
  import opened SshConfig

  // ------------------------------------------------------------ what a scan misses

  ghost predicate Reads(fs: Files, entry: string, file: string) { file in Paths(Scan(fs, entry)) }

  /** A file met first at the greatest depth whose includes were still to be followed from
      a shorter way to it. */
  ghost predicate MetTooDeep(fs: Files, entry: string, visit: Job, file: string) {
    && visit in Scan(fs, entry) && visit.depth == MAX_INCLUDE_DEPTH && Includes(fs, visit.path, file)
    && exists n :: 0 <= n < MAX_INCLUDE_DEPTH && Reaches(fs, entry, visit.path, n)
  }

  /** What was read, and at which depth. */
  lemma ScanReads(fs: Files, entry: string)
    ensures Sound(fs, entry, [], Scan(fs, entry))
    ensures |Scan(fs, entry)| < 64 ==> Closed(fs, [], Scan(fs, entry))
    ensures |Scan(fs, entry)| < 64 && Target(fs, entry).Some? ==> Reads(fs, entry, Target(fs, entry).value)
  {
    hide Visits;
    var queue := [Job(entry, 0)];
    assert queue[0] == Job(entry, 0);
    VisitsSound(fs, entry, queue, []);
    if |Scan(fs, entry)| < MAX_FILES { VisitsClosed(fs, queue, []); }
  }

  /** Everything within three includes of the entry is read. */
  ghost predicate ReadsAll(fs: Files, entry: string) {
    forall file, n :: 0 <= n <= MAX_INCLUDE_DEPTH && Reaches(fs, entry, file, n) ==> Reads(fs, entry, file)
  }

  /** Whatever a file met too deep includes is read all the same. */
  ghost predicate NothingCut(fs: Files, entry: string) {
    forall visit, file :: MetTooDeep(fs, entry, visit, file) ==> Reads(fs, entry, file)
  }

  lemma {:induction false} ReachedIsRead(fs: Files, entry: string, file: string, n: nat)
    requires n <= MAX_INCLUDE_DEPTH && Reaches(fs, entry, file, n) && |Scan(fs, entry)| < MAX_FILES
    requires NothingCut(fs, entry)
    ensures Reads(fs, entry, file)
    decreases n
  {
    hide Scan, Includes, Target;
    ScanReads(fs, entry);
    if n > 0 {
      var from :| Reaches(fs, entry, from, n - 1) && Includes(fs, from, file);
      ReachedIsRead(fs, entry, from, n - 1);
      var k :| 0 <= k < |Scan(fs, entry)| && Paths(Scan(fs, entry))[k] == from;
      var visit := Scan(fs, entry)[k];
      if visit.depth < MAX_INCLUDE_DEPTH {
        assert Met(fs, [], Scan(fs, entry), file);
      } else {
        assert MetTooDeep(fs, entry, visit, file);
      }
    }
  }

  /** With fewer than 64 files read, everything within three includes of the entry was
      read exactly if whatever a file met too deep includes was read all the same. */
  lemma MissesExactly(fs: Files, entry: string)
    requires |Scan(fs, entry)| < MAX_FILES
    ensures ReadsAll(fs, entry) <==> NothingCut(fs, entry)
  {
    hide Reads, Scan, Includes, Target;
    if NothingCut(fs, entry) {
      forall file, n | 0 <= n <= MAX_INCLUDE_DEPTH && Reaches(fs, entry, file, n) ensures Reads(fs, entry, file) {
        ReachedIsRead(fs, entry, file, n);
      }
    }
    if ReadsAll(fs, entry) {
      forall visit, file | MetTooDeep(fs, entry, visit, file) ensures Reads(fs, entry, file) {
        var n :| 0 <= n < MAX_INCLUDE_DEPTH && Reaches(fs, entry, visit.path, n);
        assert Reaches(fs, entry, file, n + 1);
      }
    }
  }

  // ------------------------------------------------------------ long ways round

  /** The entry reaches a file over three includes through four different files. */
  ghost predicate Detour(fs: Files, entry: string, e: string, a: string, b: string, file: string) {
    && Target(fs, entry) == Some(e) && Includes(fs, e, a) && Includes(fs, a, b) && Includes(fs, b, file)
    && e != a && e != b && e != file && a != b && a != file && b != file
  }

  ghost predicate LongWay(fs: Files, entry: string, file: string) {
    exists e, a, b :: Detour(fs, entry, e, a, b, file)
  }

  /** A file within two includes that has a long way round to it includes nothing. */
  ghost predicate OneDepth(fs: Files, entry: string) {
    forall file, next, n :: 0 <= n < MAX_INCLUDE_DEPTH && Reaches(fs, entry, file, n) && LongWay(fs, entry, file) ==>
      !Includes(fs, file, next)
  }

  /** The entry reaches a file over n includes, of files with no long way round to them. */
  ghost predicate Clear(fs: Files, entry: string, file: string, n: nat)
    decreases n
  {
    if n == 0 then Target(fs, entry) == Some(file)
    else exists from :: Clear(fs, entry, from, n - 1) && !LongWay(fs, entry, from) && Includes(fs, from, file)
  }

  /** Fewer than 64 files are within three includes of the entry. */
  ghost predicate FewFiles(fs: Files, entry: string, files: set<string>) {
    |files| < 64 && forall file, n :: 0 <= n <= MAX_INCLUDE_DEPTH && Reaches(fs, entry, file, n) ==> file in files
  }

  // ------------------------------------------------------------ how a file came to be read

  /** What is queued at a depth is the entry, or was named by a file read one less deep. */
  ghost predicate Owned(fs: Files, entry: string, read: seq<Job>, depth: nat, target: Option<string>) {
    target.Some? ==>
      if depth == 0 then target == Target(fs, entry)
      else exists parent :: parent in read && parent.depth + 1 == depth && Includes(fs, parent.path, target.value)
  }

  ghost predicate Parented(fs: Files, entry: string, queue: seq<Job>, read: seq<Job>) {
    && (forall k :: 0 <= k < |queue| ==> Owned(fs, entry, read, queue[k].depth, Target(fs, queue[k].path)))
    && (forall k :: 0 <= k < |read| ==> Owned(fs, entry, read, read[k].depth, Some(read[k].path)))
  }

  lemma OwnedLater(fs: Files, entry: string, read: seq<Job>, visit: Job, depth: nat, target: Option<string>)
    requires Owned(fs, entry, read, depth, target)
    ensures Owned(fs, entry, read + [visit], depth, target)
  {
    hide Target, Includes;
  }

  lemma FollowOwned(fs: Files, entry: string, read: seq<Job>, visit: Job, job: Job)
    requires visit in read && job in Follow(fs, visit)
    ensures Owned(fs, entry, read, job.depth, Target(fs, job.path))
  {
    hide Expanded, Target, Parse;
    ExpandedAre(fs, Parse(fs.lines(visit.path).value).includes, visit.depth + 1, job);
    if Target(fs, job.path).Some? { assert Includes(fs, visit.path, Target(fs, job.path).value); }
  }

  lemma StepParented(fs: Files, entry: string, queue: seq<Job>, read: seq<Job>, visit: Job)
    requires queue != [] && Parented(fs, entry, queue, read)
    requires Target(fs, queue[|queue| - 1].path) == Some(visit.path) && visit.depth == queue[|queue| - 1].depth
    ensures Parented(fs, entry, queue[..|queue| - 1] + Follow(fs, visit), read + [visit])
  {
    hide Owned, Target, Follow;
    var n, more, read' := |queue| - 1, Follow(fs, visit), read + [visit];
    var queue' := queue[..n] + more;
    forall k | 0 <= k < |queue'| ensures Owned(fs, entry, read', queue'[k].depth, Target(fs, queue'[k].path)) {
      if k < n {
        OwnedLater(fs, entry, read, visit, queue[k].depth, Target(fs, queue[k].path));
      } else {
        assert visit in read' && queue'[k] == more[k - n];
        FollowOwned(fs, entry, read', visit, more[k - n]);
      }
    }
    forall k | 0 <= k < |read'| ensures Owned(fs, entry, read', read'[k].depth, Some(read'[k].path)) {
      if k < |read| {
        OwnedLater(fs, entry, read, visit, read[k].depth, Some(read[k].path));
      } else {
        OwnedLater(fs, entry, read, visit, queue[n].depth, Target(fs, queue[n].path));
      }
    }
  }

  lemma {:induction false} VisitsParented(fs: Files, entry: string, queue: seq<Job>, read: seq<Job>)
    requires |read| <= MAX_FILES && Parented(fs, entry, queue, read) && Distinct(Paths(read))
    ensures Parented(fs, entry, [], Visits(fs, queue, read)) && Distinct(Paths(Visits(fs, queue, read)))
    decreases MAX_FILES - |read|, |queue|
  {
    hide Target, Follow, Owned, Paths;
    if queue != [] && |read| < MAX_FILES {
      var n := |queue| - 1;
      var file := Target(fs, queue[n].path);
      if file.None? || file.value in Paths(read) {
        VisitsParented(fs, entry, queue[..n], read);
      } else {
        var visit := Job(file.value, queue[n].depth);
        StepParented(fs, entry, queue, read, visit);
        VisitsRead(fs, queue, read, visit);
        DistinctNext(Paths(read), file.value);
        VisitsParented(fs, entry, queue[..n] + Follow(fs, visit), read + [visit]);
      }
    }
  }

  lemma ScanParented(fs: Files, entry: string)
    ensures Parented(fs, entry, [], Scan(fs, entry)) && Distinct(Paths(Scan(fs, entry)))
  {
    hide Visits, Target;
    var queue := [Job(entry, 0)];
    assert queue[0] == Job(entry, 0);
    VisitsParented(fs, entry, queue, []);
  }

  /** One file is read at one depth. */
  lemma OneVisit(visits: seq<Job>, u: Job, v: Job)
    requires Distinct(Paths(visits)) && u in visits && v in visits && u.path == v.path
    ensures u == v
  {
    var i :| 0 <= i < |visits| && visits[i] == u;
    var j :| 0 <= j < |visits| && visits[j] == v;
    assert Paths(visits)[i] == Paths(visits)[j];
  }

  lemma ParentOf(fs: Files, entry: string, visit: Job) returns (parent: Job)
    requires visit in Scan(fs, entry) && visit.depth > 0
    ensures parent in Scan(fs, entry) && parent.depth + 1 == visit.depth && Includes(fs, parent.path, visit.path)
  {
    hide Includes, Target, Scan;
    ScanParented(fs, entry);
    var all := Scan(fs, entry);
    var k :| 0 <= k < |all| && all[k] == visit;
    assert Owned(fs, entry, all, visit.depth, Some(visit.path));
    parent :| parent in all && parent.depth + 1 == visit.depth && Includes(fs, parent.path, visit.path);
  }

  /** A file is read at depth three only by a long way round. */
  lemma DeepIsLongWay(fs: Files, entry: string, visit: Job)
    requires visit in Scan(fs, entry) && visit.depth == MAX_INCLUDE_DEPTH
    ensures LongWay(fs, entry, visit.path)
  {
    hide Includes, Target, Scan;
    ScanParented(fs, entry);
    var all := Scan(fs, entry);
    var b := ParentOf(fs, entry, visit);
    var a := ParentOf(fs, entry, b);
    var e := ParentOf(fs, entry, a);
    var k :| 0 <= k < |all| && all[k] == e;
    assert Owned(fs, entry, all, e.depth, Some(e.path));
    if e.path == a.path { OneVisit(all, e, a); }
    if e.path == b.path { OneVisit(all, e, b); }
    if e.path == visit.path { OneVisit(all, e, visit); }
    if a.path == b.path { OneVisit(all, a, b); }
    if a.path == visit.path { OneVisit(all, a, visit); }
    if b.path == visit.path { OneVisit(all, b, visit); }
    assert Detour(fs, entry, e.path, a.path, b.path, visit.path);
  }

  // ------------------------------------------------------------ what is surely read

  lemma {:induction false} DistinctWithin(s: seq<string>, files: set<string>)
    requires Distinct(s) && forall k :: 0 <= k < |s| ==> s[k] in files
    ensures |s| <= |files|
    decreases |s|
  {
    if s != [] {
      var n := |s| - 1;
      DistinctWithin(s[..n], files - {s[n]});
    }
  }

  lemma FewAreRead(fs: Files, entry: string, files: set<string>)
    requires FewFiles(fs, entry, files)
    ensures |Scan(fs, entry)| < MAX_FILES
  {
    hide Scan, Reaches;
    ScanParented(fs, entry);
    ScanReads(fs, entry);
    DistinctWithin(Paths(Scan(fs, entry)), files);
  }

  /** Whatever has a way to it of files with no long way round is read, in every order. */
  lemma {:induction false} ClearIsRead(fs: Files, entry: string, file: string, n: nat)
    requires n <= MAX_INCLUDE_DEPTH && Clear(fs, entry, file, n) && |Scan(fs, entry)| < MAX_FILES
    ensures Reads(fs, entry, file)
    decreases n
  {
    hide Scan, Includes, Target, LongWay;
    ScanReads(fs, entry);
    if n > 0 {
      var from :| Clear(fs, entry, from, n - 1) && !LongWay(fs, entry, from) && Includes(fs, from, file);
      ClearIsRead(fs, entry, from, n - 1);
      var k :| 0 <= k < |Scan(fs, entry)| && Paths(Scan(fs, entry))[k] == from;
      var visit := Scan(fs, entry)[k];
      if visit.depth == MAX_INCLUDE_DEPTH { DeepIsLongWay(fs, entry, visit); }
      assert Met(fs, [], Scan(fs, entry), file);
    }
  }

  /** Everything within three includes of the entry is read when there are fewer than 64
      such files, and none that includes something is reached both over fewer than three
      includes and by a long way round. */
  lemma ReadInFull(fs: Files, entry: string, files: set<string>)
    requires FewFiles(fs, entry, files) && OneDepth(fs, entry)
    ensures ReadsAll(fs, entry)
  {
    hide Scan, Includes, Reaches, Reads, LongWay, ReadsAll, MetTooDeep, OneDepth;
    FewAreRead(fs, entry, files);
    forall visit, file ensures !MetTooDeep(fs, entry, visit, file) { NotTooDeep(fs, entry, visit, file); }
    MissesExactly(fs, entry);
  }

  lemma NotTooDeep(fs: Files, entry: string, visit: Job, file: string)
    requires OneDepth(fs, entry)
    ensures !MetTooDeep(fs, entry, visit, file)
  {
    hide Scan, Includes, Reaches, LongWay;
    if visit in Scan(fs, entry) && visit.depth == MAX_INCLUDE_DEPTH { DeepIsLongWay(fs, entry, visit); }
  }

  /** More finely: each file must have one such way to it. */
  lemma ReadInFullByClearWays(fs: Files, entry: string, files: set<string>)
    requires FewFiles(fs, entry, files)
    requires forall file, n :: 0 <= n <= MAX_INCLUDE_DEPTH && Reaches(fs, entry, file, n) ==>
      exists m :: 0 <= m <= MAX_INCLUDE_DEPTH && Clear(fs, entry, file, m)
    ensures ReadsAll(fs, entry)
  {
    hide Scan, Reaches, Clear, Reads;
    FewAreRead(fs, entry, files);
    forall file, n | 0 <= n <= MAX_INCLUDE_DEPTH && Reaches(fs, entry, file, n) ensures Reads(fs, entry, file) {
      var m :| 0 <= m <= MAX_INCLUDE_DEPTH && Clear(fs, entry, file, m);
      ClearIsRead(fs, entry, file, m);
    }
  }

  // ------------------------------------------------------------ the same includes in another order

  function NamedBy(fs: Files, includes: seq<string>): seq<string> {
    if includes == [] then [] else fs.expand(includes[0]) + NamedBy(fs, includes[1..])
  }

  /** The paths that a file's includes name, in order. */
  function Named(fs: Files, file: string): seq<string> {
    if fs.lines(file).None? then [] else NamedBy(fs, Parse(fs.lines(file).value).includes)
  }

  /** The same files, each naming the same paths as often, in whatever order. */
  ghost predicate Reordered(fs: Files, fs': Files) {
    && fs'.canonical == fs.canonical && fs'.inside == fs.inside
    && forall file {:trigger Named(fs', file)} ::
         (fs'.lines(file).Some? <==> fs.lines(file).Some?) && multiset(Named(fs', file)) == multiset(Named(fs, file))
  }

  lemma {:induction false} NamedByAre(fs: Files, includes: seq<string>, path: string)
    ensures path in NamedBy(fs, includes) <==> exists inc :: inc in includes && path in fs.expand(inc)
  {
    if includes != [] {
      NamedByAre(fs, includes[1..], path);
      assert forall inc :: inc in includes <==> inc == includes[0] || inc in includes[1..];
    }
  }

  lemma IncludesNamed(fs: Files, from: string, file: string)
    ensures Includes(fs, from, file) <==> exists path :: path in Named(fs, from) && Target(fs, path) == Some(file)
  {
    hide Parse, NamedBy, Target;
    if fs.lines(from).Some? {
      var includes := Parse(fs.lines(from).value).includes;
      forall path ensures path in Named(fs, from) <==> exists inc :: inc in includes && path in fs.expand(inc) {
        NamedByAre(fs, includes, path);
      }
    }
  }

  lemma SameIncludes(fs: Files, fs': Files, from: string, file: string)
    requires Reordered(fs, fs')
    ensures Includes(fs', from, file) <==> Includes(fs, from, file)
  {
    hide Named, Includes;
    IncludesNamed(fs, from, file);
    IncludesNamed(fs', from, file);
    forall path ensures path in Named(fs, from) <==> path in Named(fs', from) {
      assert path in Named(fs, from) <==> path in multiset(Named(fs, from));
      assert path in Named(fs', from) <==> path in multiset(Named(fs', from));
    }
    assert forall path :: Target(fs', path) == Target(fs, path);
  }

  lemma SameLongWay(fs: Files, fs': Files, entry: string, file: string)
    requires Reordered(fs, fs')
    ensures LongWay(fs', entry, file) <==> LongWay(fs, entry, file)
  {
    hide Includes, Named;
    forall from, to ensures Includes(fs', from, to) <==> Includes(fs, from, to) { SameIncludes(fs, fs', from, to); }
    assert Target(fs', entry) == Target(fs, entry);
    forall e, a, b ensures Detour(fs', entry, e, a, b, file) <==> Detour(fs, entry, e, a, b, file) { }
  }

  lemma {:induction false} SameWays(fs: Files, fs': Files, entry: string, file: string, n: nat)
    requires Reordered(fs, fs')
    ensures Reaches(fs', entry, file, n) <==> Reaches(fs, entry, file, n)
    ensures Clear(fs', entry, file, n) <==> Clear(fs, entry, file, n)
    decreases n
  {
    hide Includes, Named, LongWay, Reordered;
    assert Target(fs', entry) == Target(fs, entry) by { SameTarget(fs, fs', entry); }
    if n > 0 {
      forall from
        ensures Reaches(fs', entry, from, n - 1) <==> Reaches(fs, entry, from, n - 1)
        ensures Clear(fs', entry, from, n - 1) <==> Clear(fs, entry, from, n - 1)
        ensures LongWay(fs', entry, from) <==> LongWay(fs, entry, from)
        ensures Includes(fs', from, file) <==> Includes(fs, from, file)
      {
        SameWays(fs, fs', entry, from, n - 1);
        SameLongWay(fs, fs', entry, from);
        SameIncludes(fs, fs', from, file);
      }
    }
  }

  lemma SameTarget(fs: Files, fs': Files, path: string)
    requires Reordered(fs, fs')
    ensures Target(fs', path) == Target(fs, path)
  {
  }

  lemma ReadInEveryOrder(fs: Files, fs': Files, entry: string, files: set<string>, file: string, n: nat)
    requires Reordered(fs, fs') && FewFiles(fs, entry, files) && n <= MAX_INCLUDE_DEPTH && Clear(fs, entry, file, n)
    ensures Reads(fs', entry, file)
  {
    hide Reordered, Clear, Reaches, Scan;
    forall f, m: nat ensures Reaches(fs', entry, f, m) <==> Reaches(fs, entry, f, m) { SameWays(fs, fs', entry, f, m); }
    FewAreRead(fs', entry, files);
    SameWays(fs, fs', entry, file, n);
    ClearIsRead(fs', entry, file, n);
  }

  // ------------------------------------------------------------ writing a file down

  /** A word in quotes, each character in the kind it is not. */
  function Enclosed(w: string): string {
    if w == "" then ""
    else (if w[0] == '"' then ['\'', '"', '\''] else ['"', w[0], '"']) + Enclosed(w[1..])
  }

  function IncludeOf(path: string): string { "include" + [' '] + Enclosed(path) }

  function LinesOf(paths: seq<string>): seq<string> {
    if paths == [] then [] else [IncludeOf(paths[0])] + LinesOf(paths[1..])
  }

  lemma ReadsOne(r: Reader, q: char, c: char, rest: string)
    requires r.quote.None? && (q == '"' || q == '\'') && c != q
    ensures ReadAll(r, [q, c, q] + rest) == ReadAll(r.(current := r.current + [c]), rest)
  {
    var s0, s1, s2 := [q, c, q] + rest, [c, q] + rest, [q] + rest;
    assert s0[1..] == s1 && s1[1..] == s2 && s2[1..] == rest;
    var r1 := r.(quote := Some(q));
    assert ReadAll(r, s0) == ReadAll(r1, s1);
    assert ReadAll(r1, s1) == ReadAll(r1.(current := r.current + [c]), s2);
  }

  lemma {:induction false} ReadsEnclosed(r: Reader, w: string)
    requires r.quote.None?
    ensures ReadAll(r, Enclosed(w)) == ReadAll(r.(current := r.current + w), "")
    decreases |w|
  {
    hide ReadAll;
    if w == "" {
      assert r.current + w == r.current;
    } else {
      ReadsOne(r, if w[0] == '"' then '\'' else '"', w[0], Enclosed(w[1..]));
      ReadsEnclosed(r.(current := r.current + [w[0]]), w[1..]);
      assert r.current + [w[0]] + w[1..] == r.current + w;
    }
  }

  predicate Mark(c: char) { c == '"' || c == '\'' }

  lemma {:induction false} EnclosedEnds(w: string)
    requires w != ""
    ensures Enclosed(w) != "" && Mark(Enclosed(w)[0]) && Mark(Enclosed(w)[|Enclosed(w)| - 1])
  {
    if |w| > 1 { EnclosedEnds(w[1..]); } else { assert w[1..] == ""; }
  }

  lemma MarksAreInk()
    ensures White(' ') && forall c :: Mark(c) ==> !White(c)
  {
  }

  /** Text that begins and ends with ink is trimmed already. */
  lemma InkStays(s: string)
    requires s != "" && !White(s[0]) && !White(s[|s| - 1])
    ensures Trim(s) == s
  {
    hide White;
  }

  lemma EnclosedIsWord(path: string)
    requires path != ""
    ensures Words(Enclosed(path)) == [path]
  {
    hide White, ReadAll, Enclosed;
    EnclosedEnds(path);
    MarksAreInk();
    InkStays(Enclosed(path));
    ReadsEnclosed(Reader([], "", None), path);
    assert "" + path == path;
    WordEnds([], path, "");
    assert [] + [path] == [path];
  }

  lemma {:induction false} BreakAt(keyword: string, rest: string)
    requires forall k :: 0 <= k < |keyword| ==> !White(keyword[k]) && keyword[k] != '='
    ensures Break(keyword + [' '] + rest) == |keyword|
    decreases |keyword|
  {
    hide White;
    MarksAreInk();
    var line := keyword + [' '] + rest;
    if keyword != "" {
      assert line[1..] == keyword[1..] + [' '] + rest;
      BreakAt(keyword[1..], rest);
    }
  }

  lemma KeywordIsInk()
    ensures forall k :: 0 <= k < 7 ==> !White("include"[k]) && "include"[k] != '='
    ensures Lower("include") == "include"
  {
  }

  lemma BlankSkipped(value: string)
    requires value != "" && Mark(value[0])
    ensures SkipSeparators([' '] + value) == value
  {
    assert ([' '] + value)[1..] == value;
  }

  /** An include line means what it says. */
  lemma IncludeMeans(path: string)
    requires path != ""
    ensures Meaning(IncludeOf(path)) == Some(Directive("include", Enclosed(path)))
  {
    hide White, Break, Enclosed, Trim, SkipSeparators, Lower;
    var line, value := IncludeOf(path), Enclosed(path);
    EnclosedEnds(path);
    MarksAreInk();
    KeywordIsInk();
    assert line[0] == "include"[0] == 'i' && line[|line| - 1] == value[|value| - 1];
    InkStays(line);
    InkStays(value);
    BreakAt("include", value);
    assert line[..7] == "include" && line[7..] == [' '] + value;
    BlankSkipped(value);
  }

  lemma {:induction false} ReadsLines(s: Parser, paths: seq<string>)
    requires "" !in paths
    ensures ParseFrom(s, LinesOf(paths)).includes == s.includes + paths
    decreases |paths|
  {
    hide Meaning, Words, IncludeOf, ParseFrom;
    if paths == [] {
      NoLines(s);
      assert s.includes + paths == s.includes;
    } else {
      IncludeMeans(paths[0]);
      EnclosedIsWord(paths[0]);
      var t := StepLine(s, IncludeOf(paths[0]));
      Unfolds(s, LinesOf(paths));
      assert LinesOf(paths)[1..] == LinesOf(paths[1..]);
      ReadsLines(t, paths[1..]);
      assert s.includes + [paths[0]] + paths[1..] == s.includes + paths;
    }
  }

  lemma NoLines(s: Parser)
    ensures ParseFrom(s, []) == s
  {
  }

  /** Files whose include lines each name one path, in the order given. */
  function Written(canonical: string -> Option<string>, inside: string -> bool, names: string -> Option<seq<string>>): Files {
    Files(canonical, inside, file => if names(file).Some? then Some(LinesOf(names(file).value)) else None, path => [path])
  }

  lemma {:induction false} NamedByOne(fs: Files, paths: seq<string>)
    requires forall path :: fs.expand(path) == [path]
    ensures NamedBy(fs, paths) == paths
  {
    if paths != [] { NamedByOne(fs, paths[1..]); }
  }

  lemma WrittenNames(canonical: string -> Option<string>, inside: string -> bool, names: string -> Option<seq<string>>, file: string)
    requires names(file).Some? ==> "" !in names(file).value
    ensures Named(Written(canonical, inside, names), file) == if names(file).Some? then names(file).value else []
  {
    hide ParseFrom, LinesOf, NamedBy;
    var fs := Written(canonical, inside, names);
    if names(file).Some? {
      ReadsLines(START, names(file).value);
      assert [] + names(file).value == names(file).value;
      NamedByOne(fs, names(file).value);
    }
  }

  // ------------------------------------------------------------ taking the long way first

  lemma {:induction false} JobsJoin(a: seq<string>, b: seq<string>, depth: nat)
    ensures Jobs(a + b, depth) == Jobs(a, depth) + Jobs(b, depth)
  {
    if a == [] {
      assert a + b == b;
    } else {
      assert (a + b)[1..] == a[1..] + b;
      JobsJoin(a[1..], b, depth);
    }
  }

  lemma {:induction false} ExpandedNamed(fs: Files, includes: seq<string>, depth: nat)
    ensures Expanded(fs, includes, depth) == Jobs(NamedBy(fs, includes), depth)
  {
    hide Jobs;
    if includes == [] {
      NoJobs(depth);
    } else {
      ExpandedNamed(fs, includes[1..], depth);
      JobsJoin(fs.expand(includes[0]), NamedBy(fs, includes[1..]), depth);
    }
  }

  lemma NoJobs(depth: nat)
    ensures Jobs([], depth) == []
  {
  }

  /** What is queued behind a file that is followed. */
  lemma FollowNamed(fs: Files, file: string, depth: nat)
    requires depth < MAX_INCLUDE_DEPTH
    ensures Follow(fs, Job(file, depth)) == Jobs(Named(fs, file), depth + 1)
  {
    hide Expanded, Jobs, Parse;
    NoJobs(depth + 1);
    if fs.lines(file).Some? { ExpandedNamed(fs, Parse(fs.lines(file).value).includes, depth + 1); }
  }

  lemma {:induction false} LastJob(paths: seq<string>, depth: nat)
    requires paths != []
    ensures Jobs(paths, depth) != [] && Jobs(paths, depth)[|Jobs(paths, depth)| - 1] == Job(paths[|paths| - 1], depth)
  {
    if |paths| > 1 { LastJob(paths[1..], depth); } else { NoJobs(depth); assert paths[1..] == []; }
  }

  /** The last path that a file names is looked at first. */
  ghost predicate NamesLast(fs: Files, from: string, file: string) {
    Named(fs, from) != [] && Target(fs, Named(fs, from)[|Named(fs, from)| - 1]) == Some(file)
  }

  /** The file on top of the queue is read, and is not yet. */
  ghost predicate OnTop(fs: Files, queue: seq<Job>, depth: nat, file: string) {
    queue != [] && queue[|queue| - 1].depth == depth && Target(fs, queue[|queue| - 1].path) == Some(file)
  }

  lemma Descends(fs: Files, queue: seq<Job>, read: seq<Job>, depth: nat, file: string, next: string) returns (queue': seq<Job>)
    requires |read| < MAX_FILES && depth < MAX_INCLUDE_DEPTH
    requires OnTop(fs, queue, depth, file) && file !in Paths(read) && NamesLast(fs, file, next)
    ensures Visits(fs, queue, read) == Visits(fs, queue', read + [Job(file, depth)])
    ensures OnTop(fs, queue', depth + 1, next) && Paths(read + [Job(file, depth)]) == Paths(read) + [file]
  {
    hide Follow, Visits, Target, Named, Jobs;
    var visit := Job(file, depth);
    VisitsRead(fs, queue, read, visit);
    FollowNamed(fs, file, depth);
    LastJob(Named(fs, file), depth + 1);
    queue' := queue[..|queue| - 1] + Follow(fs, visit);
  }

  /** When the last path of each file leads on, the fourth file is read at depth three. */
  lemma DeepestFirst(fs: Files, entry: string, e: string, a: string, b: string, file: string)
    requires Detour(fs, entry, e, a, b, file) && NamesLast(fs, e, a) && NamesLast(fs, a, b) && NamesLast(fs, b, file)
    ensures [Job(e, 0), Job(a, 1), Job(b, 2), Job(file, 3)] <= Scan(fs, entry)
  {
    hide Follow, Visits, Target, Named, Includes, Paths;
    var q0 := [Job(entry, 0)];
    NoPaths();
    var q1 := Descends(fs, q0, [], 0, e, a);
    assert [] + [Job(e, 0)] == [Job(e, 0)] && [] + [e] == [e];
    var q2 := Descends(fs, q1, [Job(e, 0)], 1, a, b);
    assert [Job(e, 0)] + [Job(a, 1)] == [Job(e, 0), Job(a, 1)] && [e] + [a] == [e, a];
    var q3 := Descends(fs, q2, [Job(e, 0), Job(a, 1)], 2, b, file);
    var read := [Job(e, 0), Job(a, 1)] + [Job(b, 2)];
    assert read == [Job(e, 0), Job(a, 1), Job(b, 2)] && Paths(read) == [e, a, b];
    VisitsRead(fs, q3, read, Job(file, 3));
    assert read + [Job(file, 3)] == [Job(e, 0), Job(a, 1), Job(b, 2), Job(file, 3)];
  }

  lemma NoPaths()
    ensures Paths([]) == []
  {
  }

  /** What only a file read at depth three includes is not read. */
  lemma NeverFollowed(fs: Files, entry: string, file: string, next: string)
    requires Job(file, MAX_INCLUDE_DEPTH) in Scan(fs, entry) && Target(fs, entry) != Some(next)
    requires forall from :: Includes(fs, from, next) ==> from == file
    ensures !Reads(fs, entry, next)
  {
    hide Scan, Includes, Target;
    ScanParented(fs, entry);
    ScanReads(fs, entry);
    var all := Scan(fs, entry);
    if Reads(fs, entry, next) {
      var k :| 0 <= k < |all| && Paths(all)[k] == next;
      assert Owned(fs, entry, all, all[k].depth, Some(all[k].path));
      var parent := ParentOf(fs, entry, all[k]);
      OneVisit(all, parent, Job(file, MAX_INCLUDE_DEPTH));
      assert false;
    }
  }

  // ------------------------------------------------------------ an order that misses a file

  /** The first path that names the file, or the number of paths when none does. */
  function IndexTo(fs: Files, paths: seq<string>, file: string): (k: nat)
    ensures k <= |paths| && (k < |paths| ==> Target(fs, paths[k]) == Some(file))
    ensures k == |paths| ==> forall j :: 0 <= j < k ==> Target(fs, paths[j]) != Some(file)
  {
    if paths == [] || Target(fs, paths[0]) == Some(file) then 0 else 1 + IndexTo(fs, paths[1..], file)
  }

  /** The same paths, with one that names the file at the end. */
  function LastTo(fs: Files, paths: seq<string>, file: string): (r: seq<string>)
    ensures multiset(r) == multiset(paths)
    ensures (exists j :: 0 <= j < |paths| && Target(fs, paths[j]) == Some(file)) ==>
      r != [] && Target(fs, r[|r| - 1]) == Some(file)
  {
    var k := IndexTo(fs, paths, file);
    if k == |paths| then paths
    else
      assert paths == paths[..k] + [paths[k]] + paths[k + 1..];
      paths[..k] + paths[k + 1..] + [paths[k]]
  }

  /** The files with the paths of three of them reordered so that a detour comes first. */
  function LongWayFirst(fs: Files, e: string, a: string, b: string, file: string): Files {
    Written(fs.canonical, fs.inside,
            from =>
              if fs.lines(from).None? then None
              else
                Some(LastTo(fs, Named(fs, from), if from == e then a else if from == a then b else if from == b then file else "")))
  }

  /** A path that an include pattern stands for is never empty. */
  ghost predicate NoEmptyPaths(fs: Files) { forall pattern :: "" !in fs.expand(pattern) }

  lemma NamedNotEmpty(fs: Files, from: string)
    requires NoEmptyPaths(fs)
    ensures "" !in Named(fs, from)
  {
    hide Parse, NamedBy;
    if fs.lines(from).Some? { NamedByAre(fs, Parse(fs.lines(from).value).includes, ""); }
  }

  lemma LongWayFirstIs(fs: Files, e: string, a: string, b: string, file: string, from: string)
    requires NoEmptyPaths(fs)
    ensures var fs' := LongWayFirst(fs, e, a, b, file);
      var next := if from == e then a else if from == a then b else if from == b then file else "";
      && (fs'.lines(from).Some? <==> fs.lines(from).Some?)
      && Named(fs', from) == (if fs.lines(from).Some? then LastTo(fs, Named(fs, from), next) else [])
  {
    hide Named, LastTo, LinesOf;
    NamedNotEmpty(fs, from);
    var next := if from == e then a else if from == a then b else if from == b then file else "";
    var paths := LastTo(fs, Named(fs, from), next);
    assert multiset(paths) == multiset(Named(fs, from));
    assert "" in paths <==> "" in multiset(paths);
    var names := (from: string) =>
      if fs.lines(from).None? then None
      else Some(LastTo(fs, Named(fs, from), if from == e then a else if from == a then b else if from == b then file else ""));
    WrittenNames(fs.canonical, fs.inside, names, from);
  }

  lemma LongWayFirstReorders(fs: Files, e: string, a: string, b: string, file: string)
    requires NoEmptyPaths(fs)
    ensures Reordered(fs, LongWayFirst(fs, e, a, b, file))
  {
    hide Named, LastTo, NoEmptyPaths;
    var fs' := LongWayFirst(fs, e, a, b, file);
    forall from
      ensures fs'.lines(from).Some? <==> fs.lines(from).Some?
      ensures multiset(Named(fs', from)) == multiset(Named(fs, from))
    {
      LongWayFirstIs(fs, e, a, b, file, from);
      NothingNamed(fs, from);
    }
  }

  lemma NothingNamed(fs: Files, from: string)
    ensures fs.lines(from).None? ==> Named(fs, from) == []
  {
  }

  lemma LeadsOn(fs: Files, e: string, a: string, b: string, file: string, from: string, next: string)
    requires NoEmptyPaths(fs) && Includes(fs, from, next)
    requires next == if from == e then a else if from == a then b else if from == b then file else ""
    ensures NamesLast(LongWayFirst(fs, e, a, b, file), from, next)
  {
    hide Named, NoEmptyPaths, Target, Parse;
    var fs' := LongWayFirst(fs, e, a, b, file);
    LongWayFirstIs(fs, e, a, b, file, from);
    IncludesNamed(fs, from, next);
    var path :| path in Named(fs, from) && Target(fs, path) == Some(next);
    var j :| 0 <= j < |Named(fs, from)| && Named(fs, from)[j] == path;
    TargetSame(fs, e, a, b, file);
  }

  lemma TargetSame(fs: Files, e: string, a: string, b: string, file: string)
    ensures forall path :: Target(LongWayFirst(fs, e, a, b, file), path) == Target(fs, path)
  {
  }

  /** What only a file with a long way round to it includes is missed in some order. */
  lemma MissedInSomeOrder(fs: Files, entry: string, file: string, next: string) returns (fs': Files)
    requires LongWay(fs, entry, file) && NoEmptyPaths(fs) && Target(fs, entry) != Some(next)
    requires forall from :: Includes(fs, from, next) ==> from == file
    ensures Reordered(fs, fs') && !Reads(fs', entry, next)
  {
    hide Target, Includes, Named, NoEmptyPaths, Reordered, NamesLast, Scan, LongWayFirst;
    var e, a, b :| Detour(fs, entry, e, a, b, file);
    fs' := LongWayFirst(fs, e, a, b, file);
    LongWayFirstReorders(fs, e, a, b, file);
    LeadsOn(fs, e, a, b, file, e, a);
    LeadsOn(fs, e, a, b, file, a, b);
    LeadsOn(fs, e, a, b, file, b, file);
    SameTarget(fs, fs', entry);
    SameIncludes(fs, fs', e, a);
    SameIncludes(fs, fs', a, b);
    SameIncludes(fs, fs', b, file);
    DeepestFirst(fs', entry, e, a, b, file);
    assert Scan(fs', entry)[3] == Job(file, 3);
    forall from | Includes(fs', from, next) ensures from == file { SameIncludes(fs, fs', from, next); }
    NeverFollowed(fs', entry, file, next);
  }

  /** The exact condition, file by file. Take a file that is surely read within two
      includes, and one that only it includes: the latter is read in every order of the
      include lines and directory listings if and only if there is no long way round to
      the former. */
  lemma FollowedExactly(fs: Files, entry: string, files: set<string>, file: string, n: nat, next: string)
    requires FewFiles(fs, entry, files) && NoEmptyPaths(fs)
    requires n < MAX_INCLUDE_DEPTH && Clear(fs, entry, file, n)
    requires Includes(fs, file, next) && Target(fs, entry) != Some(next)
    requires forall from :: Includes(fs, from, next) ==> from == file
    ensures (forall fs' :: Reordered(fs, fs') ==> Reads(fs', entry, next)) <==> !LongWay(fs, entry, file)
  {
    hide Target, Includes, Reordered, Reads, FewFiles, LongWay, NoEmptyPaths;
    if LongWay(fs, entry, file) {
      var fs' := MissedInSomeOrder(fs, entry, file, next);
    } else {
      assert Clear(fs, entry, next, n + 1);
      forall fs' | Reordered(fs, fs') ensures Reads(fs', entry, next) {
        ReadInEveryOrder(fs, fs', entry, files, next, n + 1);
      }
    }
  }

  // ------------------------------------------------------------ five files

  /** config includes d and a, a includes b, b includes d, d includes e. */
  function FiveNames(file: string): Option<seq<string>> {
    if file == "config" then Some(["d", "a"])
    else if file == "a" then Some(["b"])
    else if file == "b" then Some(["d"])
    else if file == "d" then Some(["e"])
    else if file == "e" then Some([])
    else None
  }

  function FiveFiles(): Files { Written(path => Some(path), path => true, FiveNames) }

  lemma FiveNamed(file: string)
    ensures Named(FiveFiles(), file) == if FiveNames(file).Some? then FiveNames(file).value else []
    ensures Target(FiveFiles(), file) == Some(file)
  {
    WrittenNames(path => Some(path), path => true, FiveNames, file);
  }

  lemma FiveIncludes(from: string, file: string)
    ensures Includes(FiveFiles(), from, file) <==> FiveNames(from).Some? && file in FiveNames(from).value
  {
    hide Named, Target, FiveFiles, FiveNames;
    var fs := FiveFiles();
    IncludesNamed(fs, from, file);
    FiveNamed(from);
    forall path ensures Target(fs, path) == Some(path) { FiveNamed(path); }
  }

  lemma FiveDetour()
    ensures Detour(FiveFiles(), "config", "config", "a", "b", "d")
    ensures Reaches(FiveFiles(), "config", "d", 1) && Reaches(FiveFiles(), "config", "e", 2)
    ensures Includes(FiveFiles(), "d", "e") && forall from :: Includes(FiveFiles(), from, "e") ==> from == "d"
  {
    hide Includes, Target, FiveFiles;
    var fs := FiveFiles();
    FiveNamed("config");
    FiveIncludes("config", "a"); FiveIncludes("a", "b"); FiveIncludes("b", "d"); FiveIncludes("config", "d");
    FiveIncludes("d", "e");
    assert Reaches(fs, "config", "config", 0);
    assert Reaches(fs, "config", "d", 1);
    forall from | Includes(fs, from, "e") ensures from == "d" { FiveIncludes(from, "e"); }
  }

  lemma FiveRead(visit: Job)
    requires visit in Scan(FiveFiles(), "config")
    ensures visit.path in {"config", "a", "b", "d", "e"}
  {
    hide Scan, FiveFiles, Includes, Target, FiveNames;
    var fs := FiveFiles();
    ScanParented(fs, "config");
    var all := Scan(fs, "config");
    var k :| 0 <= k < |all| && all[k] == visit;
    assert Owned(fs, "config", all, visit.depth, Some(visit.path));
    FiveNamed("config");
    if visit.depth > 0 {
      var parent := ParentOf(fs, "config", visit);
      FiveIncludes(parent.path, visit.path);
      FiveOnly(parent.path, visit.path);
    }
  }

  lemma FiveOnly(from: string, file: string)
    requires FiveNames(from).Some? && file in FiveNames(from).value
    ensures file in {"a", "b", "d", "e"}
  {
  }

  /** A file within two includes of the entry that a scan misses: d, which config includes
      itself, is read at depth three first, through a and b, so that what it includes is
      never followed. There is a long way round to d. */
  lemma DeepFirst()
    ensures var fs := FiveFiles();
      && Scan(fs, "config") == [Job("config", 0), Job("a", 1), Job("b", 2), Job("d", 3)]
      && Reaches(fs, "config", "e", 2) && !ReadsAll(fs, "config")
      && LongWay(fs, "config", "d") && !OneDepth(fs, "config")
  {
    hide Scan, FiveFiles, Includes, Reaches, Target;
    var fs := FiveFiles();
    var read := [Job("config", 0), Job("a", 1), Job("b", 2), Job("d", 3)];
    FiveDetour();
    FiveLast();
    DeepestFirst(fs, "config", "config", "a", "b", "d");
    assert Scan(fs, "config")[3] == Job("d", 3);
    FiveNamed("config");
    NeverFollowed(fs, "config", "d", "e");
    ScanParented(fs, "config");
    var paths := Paths(Scan(fs, "config"));
    forall k | 0 <= k < |paths| ensures paths[k] in {"config", "a", "b", "d"} { FiveRead(Scan(fs, "config")[k]); }
    DistinctWithin(paths, {"config", "a", "b", "d"});
  }

  lemma FiveLast()
    ensures var fs := FiveFiles(); NamesLast(fs, "config", "a") && NamesLast(fs, "a", "b") && NamesLast(fs, "b", "d")
  {
    hide Named, Target, FiveFiles;
    FiveNamed("config"); FiveNamed("a"); FiveNamed("b"); FiveNamed("d");
  }
}
