/** collect_tree_no_reparse of src-tauri/src/windows_fs.rs: an explicit stack of directory
    frames over a tree whose entries all open, against plain recursive enumeration. */
module Walk {
  import opened Basics

  /** Names are ordered as the operating system orders them. */
  type Name = nat

  type Path = seq<Name>

  datatype Node = File | Directory(children: Children)

  /** The entries of one directory, in the order the system lists them. */
  datatype Children = Nil | Cons(name: Name, node: Node, rest: Children) {
    function Length(): nat { if Nil? then 0 else 1 + rest.Length() }

    function Names(): set<Name> { if Nil? then {} else {name} + rest.Names() }
  }

  datatype Entry = Entry(path: Path, directory: bool)

  // ------------------------------------------------------------ recursive enumeration

  /** Every descendant, each directory directly before its contents. */
  function Enumerate(at: Path, c: Children): seq<Entry>
    decreases c
  {
    if c.Nil? then []
    else
      [Entry(at + [c.name], c.node.Directory?)]
      + (if c.node.Directory? then Enumerate(at + [c.name], c.node.children) else [])
      + Enumerate(at, c.rest)
  }

  predicate DistinctNames(c: Children)
    decreases c
  {
    c.Cons? ==>
      c.name !in c.rest.Names() && DistinctNames(c.rest) && (c.node.Directory? ==> DistinctNames(c.node.children))
  }

  predicate Below(at: Path, path: Path) { |at| < |path| && at <= path }

  lemma {:induction false} AllBelow(at: Path, c: Children)
    ensures forall e :: e in Enumerate(at, c) ==> Below(at, e.path) && e.path[|at|] in c.Names()
    decreases c
  {
    if c.Cons? {
      AllBelow(at, c.rest);
      if c.node.Directory? { AllBelow(at + [c.name], c.node.children); }
      forall e | e in Enumerate(at, c) ensures Below(at, e.path) && e.path[|at|] in c.Names() {
        if e !in Enumerate(at, c.rest) {
          assert at + [c.name] <= e.path;
          assert e.path[..|at| + 1] == at + [c.name];
          assert e.path[|at|] == (at + [c.name])[|at|];
        }
      }
    }
  }

  /** Following the path down from these entries ends at a directory, or at a file. */
  predicate InTree(c: Children, path: Path, directory: bool)
    decreases c
  {
    && c.Cons? && path != []
    && (|| InTree(c.rest, path, directory)
        || (c.name == path[0]
            && if |path| == 1 then directory == c.node.Directory?
               else c.node.Directory? && InTree(c.node.children, path[1..], directory)))
  }

  /** The enumeration holds exactly what the tree holds below this place. */
  lemma {:induction false} EnumerateExactly(at: Path, c: Children, e: Entry)
    ensures e in Enumerate(at, c) <==> Below(at, e.path) && InTree(c, e.path[|at|..], e.directory)
    decreases c
  {
    if c.Cons? {
      var here := at + [c.name];
      EnumerateExactly(at, c.rest, e);
      if Below(at, e.path) {
        var path := e.path[|at|..];
        assert path[0] == e.path[|at|];
        if path[0] == c.name { assert e.path[..|at| + 1] == here; }
        if c.node.Directory? {
          EnumerateExactly(here, c.node.children, e);
          if Below(here, e.path) { assert here <= e.path && e.path[|here|..] == path[1..]; }
        }
        if |path| == 1 && path[0] == c.name { assert e.path == here; }
      } else if c.node.Directory? {
        EnumerateExactly(here, c.node.children, e);
        if Below(here, e.path) { AboveToo(at, c.name, e.path); }
      }
    }
  }

  lemma AboveToo(at: Path, name: Name, path: Path)
    requires Below(at + [name], path)
    ensures Below(at, path)
  {
    assert path[..|at|] == path[..|at| + 1][..|at|] == at;
  }

  predicate DistinctPaths(entries: seq<Entry>) {
    forall i, j | 0 <= i < j < |entries| :: entries[i].path != entries[j].path
  }

  /** With distinct sibling names no path is enumerated twice. */
  lemma {:induction false} EnumerateOnce(at: Path, c: Children)
    requires DistinctNames(c)
    ensures DistinctPaths(Enumerate(at, c))
    decreases c
  {
    if c.Cons? {
      var first := [Entry(at + [c.name], c.node.Directory?)];
      var inner := if c.node.Directory? then Enumerate(at + [c.name], c.node.children) else [];
      var rest := Enumerate(at, c.rest);
      EnumerateOnce(at, c.rest);
      AllBelow(at, c.rest);
      if c.node.Directory? {
        EnumerateOnce(at + [c.name], c.node.children);
        AllBelow(at + [c.name], c.node.children);
      }
      forall e: Entry, f: Entry | e in first + inner && f in rest ensures e.path != f.path {
        assert e.path[..|at| + 1] == at + [c.name];
        assert e.path[|at|] == (at + [c.name])[|at|];
      }
      Apart(first + inner, rest) by { Apart(first, inner); }
    }
  }

  lemma Apart(a: seq<Entry>, b: seq<Entry>)
    requires DistinctPaths(a) && DistinctPaths(b) && forall e: Entry, f: Entry :: e in a && f in b ==> e.path != f.path
    ensures DistinctPaths(a + b)
  {
    forall i, j | 0 <= i < j < |a + b| ensures (a + b)[i].path != (a + b)[j].path {
      if i < |a| && j >= |a| { assert a[i] in a && b[j - |a|] in b; }
    }
  }

  /** The parent of every entry below the first level is an entry and a directory. */
  lemma {:induction false} ParentsEnumerated(at: Path, c: Children, e: Entry)
    requires e in Enumerate(at, c)
    ensures Below(at, e.path)
    ensures |e.path| == |at| + 1 || Entry(e.path[..|e.path| - 1], true) in Enumerate(at, c)
    decreases c
  {
    AllBelow(at, c);
    if e in Enumerate(at, c.rest) {
      ParentsEnumerated(at, c.rest, e);
    } else if e != Entry(at + [c.name], c.node.Directory?) {
      ParentsEnumerated(at + [c.name], c.node.children, e);
      if |e.path| == |at| + 2 { assert e.path[..|e.path| - 1] == at + [c.name]; }
    }
  }

  // ------------------------------------------------------------ the order of the result

  predicate LexicallyBefore(a: Path, b: Path)
    decreases |a|
  {
    if a == [] || b == [] then a == []
    else a[0] < b[0] || (a[0] == b[0] && LexicallyBefore(a[1..], b[1..]))
  }

  /** By depth, then by path. */
  predicate Before(a: Entry, b: Entry) {
    |a.path| < |b.path| || (|a.path| == |b.path| && LexicallyBefore(a.path, b.path))
  }

  lemma {:induction false} LexicalOrder(a: Path, b: Path, c: Path)
    ensures LexicallyBefore(a, b) || LexicallyBefore(b, a)
    ensures LexicallyBefore(a, b) && LexicallyBefore(b, c) ==> LexicallyBefore(a, c)
    ensures LexicallyBefore(a, b) && LexicallyBefore(b, a) ==> a == b
    decreases |a|
  {
    if a != [] {
      LexicalOrder(a[1..], if b == [] then [] else b[1..], if c == [] then [] else c[1..]);
      if b != [] && a[0] == b[0] && a[1..] == b[1..] {
        assert a == [a[0]] + a[1..] && b == [b[0]] + b[1..];
      }
    }
  }

  /** Where two paths part, the smaller name goes first; a path goes before what is below it. */
  lemma {:induction false} OrderExactly(a: Path, b: Path)
    ensures LexicallyBefore(a, b) <==>
      a <= b || exists k: nat :: k < |a| && k < |b| && a[..k] == b[..k] && a[k] < b[k]
    decreases |a|
  {
    if a != [] && b != [] {
      if a[0] == b[0] {
        OrderExactly(a[1..], b[1..]);
        Shift(a, b);
      } else {
        assert a[..0] == b[..0];
        assert forall k: nat :: 0 < k < |a| && k < |b| ==> a[..k][0] == a[0] && b[..k][0] == b[0];
      }
    }
  }

  lemma Shift(a: Path, b: Path)
    requires a != [] && b != [] && a[0] == b[0]
    ensures a <= b <==> a[1..] <= b[1..]
    ensures (exists k: nat :: k < |a| && k < |b| && a[..k] == b[..k] && a[k] < b[k])
      <==> exists k: nat :: k < |a[1..]| && k < |b[1..]| && a[1..][..k] == b[1..][..k] && a[1..][k] < b[1..][k]
  {
    assert a == [a[0]] + a[1..] && b == [b[0]] + b[1..];
    forall k: nat | k < |a| && k < |b| && a[..k] == b[..k] && a[k] < b[k]
      ensures exists k: nat :: k < |a[1..]| && k < |b[1..]| && a[1..][..k] == b[1..][..k] && a[1..][k] < b[1..][k]
    {
      assert a[1..][..k - 1] == a[..k][1..] && b[1..][..k - 1] == b[..k][1..];
      assert a[1..][k - 1] < b[1..][k - 1];
    }
    forall k: nat | k < |a[1..]| && k < |b[1..]| && a[1..][..k] == b[1..][..k] && a[1..][k] < b[1..][k]
      ensures exists k: nat :: k < |a| && k < |b| && a[..k] == b[..k] && a[k] < b[k]
    {
      assert a[..k + 1] == [a[0]] + a[1..][..k] && b[..k + 1] == [b[0]] + b[1..][..k];
      assert a[k + 1] < b[k + 1];
    }
  }

  predicate Ordered(entries: seq<Entry>) { forall i, j | 0 <= i < j < |entries| :: Before(entries[i], entries[j]) }

  function Insert(entries: seq<Entry>, e: Entry): seq<Entry> {
    if entries == [] || !Before(entries[0], e) then [e] + entries else [entries[0]] + Insert(entries[1..], e)
  }

  /** entries.sort_by */
  function Sorted(entries: seq<Entry>): seq<Entry> {
    if entries == [] then [] else Insert(Sorted(entries[..|entries| - 1]), entries[|entries| - 1])
  }

  lemma {:induction false} InsertKeeps(entries: seq<Entry>, e: Entry)
    requires Ordered(entries)
    ensures Ordered(Insert(entries, e)) && multiset(Insert(entries, e)) == multiset(entries) + multiset{e}
  {
    if entries == [] {
    } else if !Before(entries[0], e) {
      LexicalOrder(entries[0].path, e.path, e.path);
      forall j | 0 <= j < |entries| ensures Before(e, entries[j]) {
        LexicalOrder(e.path, entries[0].path, entries[j].path);
        if j > 0 { assert Before(entries[0], entries[j]); }
      }
    } else {
      var rest := Insert(entries[1..], e);
      InsertKeeps(entries[1..], e);
      assert entries == [entries[0]] + entries[1..];
      forall j | 0 <= j < |rest| ensures Before(entries[0], rest[j]) {
        assert rest[j] in multiset(rest);
        assert rest[j] == e || rest[j] in entries[1..];
      }
    }
  }

  lemma {:induction false} SortedKeeps(entries: seq<Entry>)
    ensures Ordered(Sorted(entries)) && multiset(Sorted(entries)) == multiset(entries)
  {
    if entries != [] {
      var n := |entries| - 1;
      SortedKeeps(entries[..n]);
      InsertKeeps(Sorted(entries[..n]), entries[n]);
      assert entries == entries[..n] + [entries[n]];
    }
  }

  // ------------------------------------------------------------ the explicit stack

  datatype Frame = Frame(relative: Path, entries: Children)

  /** What the frames still have to enumerate, the last frame first. */
  function Pending(stack: seq<Frame>): seq<Entry> {
    if stack == [] then []
    else
      var top := stack[|stack| - 1];
      Enumerate(top.relative, top.entries) + Pending(stack[..|stack| - 1])
  }

  lemma Replaced(stack: seq<Frame>, frame: Frame)
    requires stack != []
    ensures Pending(stack[|stack| - 1 := frame]) == Enumerate(frame.relative, frame.entries) + Pending(stack[..|stack| - 1])
  {
    var next := stack[|stack| - 1 := frame];
    assert next[..|next| - 1] == stack[..|stack| - 1];
  }

  lemma Pushed(stack: seq<Frame>, frame: Frame)
    ensures Pending(stack + [frame]) == Enumerate(frame.relative, frame.entries) + Pending(stack)
  {
    assert (stack + [frame])[..|stack|] == stack;
  }

  lemma {:induction false} EnumerateAtLeast(at: Path, c: Children)
    ensures |Enumerate(at, c)| >= c.Length()
    decreases c
  {
    if c.Cons? { EnumerateAtLeast(at, c.rest); }
  }

  /** collect_tree_no_reparse: it succeeds exactly when there are at most `max`
      descendants, and then returns them all, by depth and path. At every step what has
      been collected, followed by what is pending, is the recursive enumeration. */
  method CollectTree(root: Children, max: nat) returns (r: Option<seq<Entry>>)
    ensures r == if |Enumerate([], root)| <= max then Some(Sorted(Enumerate([], root))) else None
  {
    hide Enumerate, Pending;
    ghost var all := Enumerate([], root);
    EnumerateAtLeast([], root);
    if max < root.Length() { return None; }
    var stack := [Frame([], root)];
    var entries: seq<Entry> := [];
    Pushed([], stack[0]);
    assert [] + stack == stack && Pending([]) == [] by { NothingPending(); }
    assert all + [] == all && [] + all == all;
    while stack != []
      invariant entries + Pending(stack) == all && |entries| <= max
      decreases |Pending(stack)|, |stack|
    {
      var top := stack[|stack| - 1];
      PendingIs(stack);
      if top.entries.Nil? {
        NothingBelow(top.relative);
        stack := stack[..|stack| - 1];
        assert [] + Pending(stack) == Pending(stack);
        continue;
      }
      var child, rest := top.entries, Frame(top.relative, top.entries.rest);
      EnumerateFirst(top.relative, top.entries);
      ghost var below := Pending(stack[..|stack| - 1]);
      var relative := top.relative + [child.name];
      var entry := Entry(relative, child.node.Directory?);
      if |entries| >= max { return None; }
      Replaced(stack, rest);
      stack := stack[|stack| - 1 := rest];
      ghost var collected := entries;
      entries := entries + [entry];
      if child.node.Directory? {
        ghost var inner := Enumerate(relative, child.node.children);
        EnumerateAtLeast(relative, child.node.children);
        assert collected + ([entry] + inner + Enumerate(rest.relative, rest.entries) + below) == entries + (inner + Pending(stack));
        if |entries| + child.node.children.Length() > max { return None; }
        Pushed(stack, Frame(relative, child.node.children));
        stack := stack + [Frame(relative, child.node.children)];
      } else {
        assert collected + ([entry] + [] + Enumerate(rest.relative, rest.entries) + below) == entries + Pending(stack);
      }
    }
    NothingPending();
    assert entries + [] == entries;
    return Some(Sorted(entries));
  }

  lemma NothingPending()
    ensures Pending([]) == []
  {
  }

  lemma NothingBelow(at: Path)
    ensures Enumerate(at, Nil) == []
  {
  }

  lemma PendingIs(stack: seq<Frame>)
    requires stack != []
    ensures var top := stack[|stack| - 1];
      Pending(stack) == Enumerate(top.relative, top.entries) + Pending(stack[..|stack| - 1])
  {
  }

  lemma EnumerateFirst(at: Path, c: Children)
    requires c.Cons?
    ensures Enumerate(at, c) ==
      [Entry(at + [c.name], c.node.Directory?)]
      + (if c.node.Directory? then Enumerate(at + [c.name], c.node.children) else [])
      + Enumerate(at, c.rest)
  {
  }

  /** A successful walk holds each descendant exactly once, sorted, every directory
      before its contents. */
  lemma WalkIsEnumeration(root: Children)
    requires DistinctNames(root)
    ensures var r := Sorted(Enumerate([], root));
      && multiset(r) == multiset(Enumerate([], root)) && DistinctPaths(r) && Ordered(r)
      && forall j :: 0 <= j < |r| && |r[j].path| > 1 ==>
           exists i :: 0 <= i < j && r[i] == Entry(r[j].path[..|r[j].path| - 1], true)
  {
    hide Enumerate, Sorted;
    var all := Enumerate([], root);
    var r := Sorted(all);
    SortedKeeps(all);
    EnumerateOnce([], root);
    SamePaths(all, r);
    forall j | 0 <= j < |r| && |r[j].path| > 1
      ensures exists i :: 0 <= i < j && r[i] == Entry(r[j].path[..|r[j].path| - 1], true)
    {
      assert r[j] in multiset(r);
      ParentsEnumerated([], root, r[j]);
      var parent := Entry(r[j].path[..|r[j].path| - 1], true);
      assert parent in multiset(r);
      var i :| 0 <= i < |r| && r[i] == parent;
      assert forall k :: j < k < |r| ==> Before(r[j], r[k]);
    }
  }

  /** A permutation of entries with distinct paths has distinct paths. */
  lemma SamePaths(a: seq<Entry>, b: seq<Entry>)
    requires multiset(a) == multiset(b) && DistinctPaths(a)
    ensures DistinctPaths(b)
  {
    forall i, j | 0 <= i < j < |b| ensures b[i].path != b[j].path {
      Together(b, i, j);
      if b[i].path == b[j].path {
        assert b[i] in multiset(a) && b[j] in multiset(a);
        var k :| 0 <= k < |a| && a[k] == b[i];
        var l :| 0 <= l < |a| && a[l] == b[j];
        if k == l { Twice(a, k); }
      }
    }
  }

  /** Two equal elements count twice. */
  lemma Together(b: seq<Entry>, i: nat, j: nat)
    requires i < j < |b|
    ensures b[i] == b[j] ==> multiset(b)[b[i]] >= 2
  {
    assert b == b[..i] + [b[i]] + b[i + 1..j] + [b[j]] + b[j + 1..];
  }

  lemma Twice(a: seq<Entry>, k: nat)
    requires k < |a| && DistinctPaths(a)
    ensures multiset(a)[a[k]] == 1
  {
    assert a == a[..k] + [a[k]] + a[k + 1..];
    assert a[k] !in a[..k] && a[k] !in a[k + 1..];
  }
}
