/** The repository tree renderer (generate_repo_tree.py): one line for the
    root, then one line per visited entry, drawn with box connectors,
    directories first and then by lower-cased name, not descending into
    "venv" nor past the depth bound; the lines are then wrapped as plain
    text or as a Markdown code block. The file system is a tree value. */
module RepoTree {
  import opened TextOps
  import opened Wrappers

  /** A file-system entry. A directory whose listing raises PermissionError
      is not readable; its children are then never listed. */
  datatype Node = File(name: string) | Dir(name: string, readable: bool, children: seq<Node>)

  /** Directories that get a line of their own but whose contents are not shown. */
  const SkipDirs: set<string> := {"venv"}

  /** "├── " and "└── ". */
  const Tee: string := "\U{251C}\U{2500}\U{2500} "
  const Elbow: string := "\U{2514}\U{2500}\U{2500} "

  /** "│   " and four spaces. */
  const Pipe: string := "\U{2502}   "
  const Blank: string := "    "

  function Connector(last: bool): string {
    if last then Elbow else Tee
  }

  function Extension(last: bool): string {
    if last then Blank else Pipe
  }

  // ---------------------------------------------------------------------
  // The sort key: directories before files, then the lower-cased name
  // ---------------------------------------------------------------------

  /** Python's `<=` on strings: lexicographic by code point. */
  predicate StrLe(a: string, b: string)
    decreases |a|
  {
    a == [] || (b != [] && (a[0] < b[0] || (a[0] == b[0] && StrLe(a[1..], b[1..]))))
  }

  lemma {:induction false} StrLeTotal(a: string, b: string)
    ensures StrLe(a, b) || StrLe(b, a)
    decreases |a|
  {
    if a != [] && b != [] && a[0] == b[0] {
      StrLeTotal(a[1..], b[1..]);
    }
  }

  lemma {:induction false} StrLeTransitive(a: string, b: string, c: string)
    requires StrLe(a, b) && StrLe(b, c)
    ensures StrLe(a, c)
    decreases |a|
  {
    if a != [] && a[0] == b[0] && b[0] == c[0] {
      StrLeTransitive(a[1..], b[1..], c[1..]);
    }
  }

  /** Key order: a directory before a file; otherwise by lower-cased name. */
  predicate KeyLe(a: Node, b: Node) {
    if a.Dir? != b.Dir? then a.Dir? else StrLe(Lower(a.name), Lower(b.name))
  }

  lemma KeyLeTotal(a: Node, b: Node)
    ensures KeyLe(a, b) || KeyLe(b, a)
  {
    StrLeTotal(Lower(a.name), Lower(b.name));
  }

  lemma KeyLeTransitive(a: Node, b: Node, c: Node)
    requires KeyLe(a, b) && KeyLe(b, c)
    ensures KeyLe(a, c)
  {
    if a.Dir? == b.Dir? == c.Dir? {
      StrLeTransitive(Lower(a.name), Lower(b.name), Lower(c.name));
    }
  }

  predicate Sorted(s: seq<Node>) {
    forall i, j :: 0 <= i < j < |s| ==> KeyLe(s[i], s[j])
  }

  /** Puts x before the first element whose key is not smaller, so that x
      stays ahead of the equal keys that followed it in the input. */
  function Insert(x: Node, s: seq<Node>): (r: seq<Node>)
    ensures |r| == |s| + 1
    ensures forall y :: y in r <==> y == x || y in s
  {
    if s == [] then [x]
    else if KeyLe(x, s[0]) then [x] + s
    else
      assert s == [s[0]] + s[1..];
      [s[0]] + Insert(x, s[1..])
  }

  /** Inserting adds x and keeps every other occurrence. */
  lemma {:induction false} InsertPermutes(x: Node, s: seq<Node>)
    ensures multiset(Insert(x, s)) == multiset(s) + multiset{x}
    decreases |s|
  {
    if s != [] && !KeyLe(x, s[0]) {
      assert s == [s[0]] + s[1..];
      InsertPermutes(x, s[1..]);
    }
  }

  /** A key not above any element, put in front of a sorted sequence, keeps it sorted. */
  lemma ConsSorted(h: Node, t: seq<Node>)
    requires Sorted(t)
    requires forall y :: y in t ==> KeyLe(h, y)
    ensures Sorted([h] + t)
  {
    var r := [h] + t;
    forall i, j | 0 <= i < j < |r| ensures KeyLe(r[i], r[j]) {
      assert r[j] == t[j - 1];
      if i == 0 {
        assert t[j - 1] in t;
      } else {
        assert r[i] == t[i - 1];
      }
    }
  }

  lemma SortedTail(s: seq<Node>)
    requires s != [] && Sorted(s)
    ensures Sorted(s[1..])
    ensures forall y :: y in s[1..] ==> KeyLe(s[0], y)
  {
    var rest := s[1..];
    forall i, j | 0 <= i < j < |rest| ensures KeyLe(rest[i], rest[j]) {
      assert rest[i] == s[i + 1] && rest[j] == s[j + 1];
    }
    forall y | y in rest ensures KeyLe(s[0], y) {
      var k :| 0 <= k < |rest| && rest[k] == y;
      assert s[k + 1] == y;
    }
  }

  /** Inserting into a sorted sequence keeps it sorted. */
  lemma {:induction false} InsertKeepsSorted(x: Node, s: seq<Node>)
    requires Sorted(s)
    ensures Sorted(Insert(x, s))
    decreases |s|
  {
    if s != [] {
      SortedTail(s);
      if KeyLe(x, s[0]) {
        forall y | y in s ensures KeyLe(x, y) {
          if y != s[0] {
            KeyLeTransitive(x, s[0], y);
          }
        }
        ConsSorted(x, s);
      } else {
        var t := Insert(x, s[1..]);
        InsertKeepsSorted(x, s[1..]);
        KeyLeTotal(x, s[0]);
        forall y | y in t ensures KeyLe(s[0], y) {
          assert y == x || y in s[1..];
        }
        ConsSorted(s[0], t);
      }
    }
  }

  /** The listing ordered by the sort key: the first entry is inserted into
      the sorted rest, ahead of the entries whose key is not smaller. */
  function SortEntries(s: seq<Node>): (r: seq<Node>)
    ensures |r| == |s|
    ensures forall y :: y in r ==> y in s
    decreases |s|
  {
    if s == [] then []
    else
      assert s == [s[0]] + s[1..];
      Insert(s[0], SortEntries(s[1..]))
  }

  /** Sorting rearranges the entries: each occurs as often as before. */
  lemma {:induction false} SortEntriesPermutes(s: seq<Node>)
    ensures multiset(SortEntries(s)) == multiset(s)
    decreases |s|
  {
    if s != [] {
      assert s == [s[0]] + s[1..];
      SortEntriesPermutes(s[1..]);
      InsertPermutes(s[0], SortEntries(s[1..]));
    }
  }

  /** The sorted entries are in key order. */
  lemma {:induction false} SortEntriesSorted(s: seq<Node>)
    ensures Sorted(SortEntries(s))
    decreases |s|
  {
    if s != [] {
      SortEntriesSorted(s[1..]);
      InsertKeepsSorted(s[0], SortEntries(s[1..]));
    }
  }

  /** After sorting, no file comes before a directory. */
  lemma DirectoriesFirst(s: seq<Node>, i: nat, j: nat)
    requires i < j < |SortEntries(s)|
    ensures SortEntries(s)[j].Dir? ==> SortEntries(s)[i].Dir?
  {
    SortEntriesSorted(s);
  }

  // ---------------------------------------------------------------------
  // The lines _walk appends
  // ---------------------------------------------------------------------

  /** Whether _walk descends from an entry at `depth` into its subdirectory. */
  predicate Descends(depth: int, maxDepth: Option<int>) {
    maxDepth.None? || depth + 1 < maxDepth.value
  }

  /** The lines _walk(d, prefix, depth) appends: nothing for an unreadable
      directory, else the lines of its sorted entries. */
  function ChildLines(d: Node, prefix: string, depth: int, maxDepth: Option<int>): seq<string>
    requires d.Dir?
    decreases d, 1
  {
    if !d.readable then []
    else
      var es := SortEntries(d.children);
      EntriesLines(d, es, |es|, prefix, depth, maxDepth)
  }

  /** The lines for the first n of the sorted entries es of d. */
  function EntriesLines(d: Node, es: seq<Node>, n: nat, prefix: string, depth: int, maxDepth: Option<int>): seq<string>
    requires d.Dir? && n <= |es| && forall y :: y in es ==> y in d.children
    decreases d, 0, n
  {
    if n == 0 then []
    else
      assert es[n - 1] in es;
      EntriesLines(d, es, n - 1, prefix, depth, maxDepth) +
      EntryLines(es[n - 1], n == |es|, prefix, depth, maxDepth)
  }

  lemma AppendAssoc(a: seq<string>, b: seq<string>, c: seq<string>)
    ensures a + (b + c) == a + b + c
  {
  }

  /** One more entry adds its own lines after those of the entries before it. */
  lemma EntriesLinesStep(d: Node, es: seq<Node>, n: nat, prefix: string, depth: int, maxDepth: Option<int>)
    requires d.Dir? && n < |es| && forall y :: y in es ==> y in d.children
    ensures EntriesLines(d, es, n + 1, prefix, depth, maxDepth) ==
      EntriesLines(d, es, n, prefix, depth, maxDepth) + EntryLines(es[n], n == |es| - 1, prefix, depth, maxDepth)
  {
  }

  /** The lines for one entry: its own line, then, for a directory that is
      neither skipped nor beyond the bound, the lines of its contents. */
  function EntryLines(e: Node, last: bool, prefix: string, depth: int, maxDepth: Option<int>): seq<string>
    decreases e, 2
  {
    [prefix + Connector(last) + e.name] +
    if e.Dir? && e.name !in SkipDirs && Descends(depth, maxDepth)
    then ChildLines(e, prefix + Extension(last), depth + 1, maxDepth)
    else []
  }

  /** A skipped directory shows its own line and nothing of its contents. */
  lemma SkippedDirShowsOnlyItsName(e: Node, last: bool, prefix: string, depth: int, maxDepth: Option<int>)
    requires e.Dir? && e.name in SkipDirs
    ensures EntryLines(e, last, prefix, depth, maxDepth) == [prefix + Connector(last) + e.name]
  {
  }

  /** Every line below a directory starts with the prefix it was walked with. */
  lemma {:induction false} ChildLinesHavePrefix(d: Node, prefix: string, depth: int, maxDepth: Option<int>)
    requires d.Dir?
    ensures forall l :: l in ChildLines(d, prefix, depth, maxDepth) ==> prefix <= l
    decreases d, 1
  {
    if d.readable {
      var es := SortEntries(d.children);
      EntriesLinesHavePrefix(d, es, |es|, prefix, depth, maxDepth);
    }
  }

  lemma {:induction false} EntriesLinesHavePrefix(d: Node, es: seq<Node>, n: nat, prefix: string, depth: int, maxDepth: Option<int>)
    requires d.Dir? && n <= |es| && forall y :: y in es ==> y in d.children
    ensures forall l :: l in EntriesLines(d, es, n, prefix, depth, maxDepth) ==> prefix <= l
    decreases d, 0, n
  {
    if n > 0 {
      assert es[n - 1] in es;
      EntriesLinesHavePrefix(d, es, n - 1, prefix, depth, maxDepth);
      EntryLinesHavePrefix(es[n - 1], n == |es|, prefix, depth, maxDepth);
    }
  }

  lemma {:induction false} EntryLinesHavePrefix(e: Node, last: bool, prefix: string, depth: int, maxDepth: Option<int>)
    ensures forall l :: l in EntryLines(e, last, prefix, depth, maxDepth) ==> prefix <= l
    decreases e, 2
  {
    var own := prefix + Connector(last) + e.name;
    assert prefix <= own by { assert own == prefix + (Connector(last) + e.name); }
    if e.Dir? && e.name !in SkipDirs && Descends(depth, maxDepth) {
      var inner := prefix + Extension(last);
      ChildLinesHavePrefix(e, inner, depth + 1, maxDepth);
      var cl := ChildLines(e, inner, depth + 1, maxDepth);
      forall j | 0 <= j < |cl| ensures prefix <= cl[j] {
        assert cl[j] in cl;
        assert cl[j][..|prefix|] == inner[..|prefix|] == prefix;
      }
    }
  }

  /** Where the depth bound stops the walk, a directory yields exactly one
      line per entry, in sorted order, the last with "└── " and the others
      with "├── ". */
  lemma {:induction false} AtBoundOneLinePerEntry(d: Node, prefix: string, depth: int, m: int)
    requires d.Dir? && d.readable && depth + 1 >= m
    ensures var es := SortEntries(d.children); var ls := ChildLines(d, prefix, depth, Some(m));
      |ls| == |es| &&
      forall i :: 0 <= i < |es| ==> ls[i] == prefix + Connector(i == |es| - 1) + es[i].name
  {
    var es := SortEntries(d.children);
    EntriesAtBound(d, es, |es|, prefix, depth, m);
  }

  lemma {:induction false} EntriesAtBound(d: Node, es: seq<Node>, n: nat, prefix: string, depth: int, m: int)
    requires d.Dir? && n <= |es| && (forall y :: y in es ==> y in d.children) && depth + 1 >= m
    ensures var ls := EntriesLines(d, es, n, prefix, depth, Some(m));
      |ls| == n && forall i :: 0 <= i < n ==> ls[i] == prefix + Connector(i == |es| - 1) + es[i].name
    decreases n
  {
    if n > 0 {
      assert es[n - 1] in es;
      EntriesAtBound(d, es, n - 1, prefix, depth, m);
    }
  }

  // ---------------------------------------------------------------------
  // The depth bound as pruning
  // ---------------------------------------------------------------------

  /** The tree keeping k levels of contents below n: a directory with k <= 0
      keeps its name but shows no entries. */
  function Prune(n: Node, k: int): (r: Node)
    ensures r.name == n.name && r.Dir? == n.Dir?
    decreases n
  {
    match n
    case File(_) => n
    case Dir(name, readable, children) =>
      Dir(name, readable, if k <= 0 then [] else seq(|children|, i requires 0 <= i < |children| => Prune(children[i], k - 1)))
  }

  function PruneEach(s: seq<Node>, k: int): (r: seq<Node>)
    ensures |r| == |s| && forall i :: 0 <= i < |s| ==> r[i] == Prune(s[i], k)
  {
    seq(|s|, i requires 0 <= i < |s| => Prune(s[i], k))
  }

  lemma PruneEachCons(a: Node, s: seq<Node>, k: int)
    ensures PruneEach([a] + s, k) == [Prune(a, k)] + PruneEach(s, k)
  {
    var l, r := PruneEach([a] + s, k), [Prune(a, k)] + PruneEach(s, k);
    assert |l| == |r|;
    forall i | 0 <= i < |l| ensures l[i] == r[i] {
      if i > 0 {
        assert ([a] + s)[i] == s[i - 1];
      }
    }
  }

  lemma {:induction false} InsertCommutesWithPrune(x: Node, s: seq<Node>, k: int)
    ensures Insert(Prune(x, k), PruneEach(s, k)) == PruneEach(Insert(x, s), k)
    decreases |s|
  {
    if s == [] {
      assert PruneEach([x], k) == [Prune(x, k)];
    } else {
      var ps := PruneEach(s, k);
      var px := Prune(x, k);
      assert s == [s[0]] + s[1..];
      PruneEachCons(s[0], s[1..], k);
      assert ps[0] == Prune(s[0], k) && ps[1..] == PruneEach(s[1..], k);
      assert KeyLe(px, ps[0]) == KeyLe(x, s[0]);
      if KeyLe(x, s[0]) {
        assert Insert(px, ps) == [px] + ps;
        PruneEachCons(x, s, k);
      } else {
        InsertCommutesWithPrune(x, s[1..], k);
        assert Insert(px, ps) == [ps[0]] + Insert(px, ps[1..]);
        PruneEachCons(s[0], Insert(x, s[1..]), k);
      }
    }
  }

  /** Sorting does not see the pruning: it only looks at kinds and names. */
  lemma {:induction false} SortCommutesWithPrune(s: seq<Node>, k: int)
    ensures SortEntries(PruneEach(s, k)) == PruneEach(SortEntries(s), k)
    decreases |s|
  {
    if s == [] {
      assert PruneEach(s, k) == [];
    } else {
      var ps := PruneEach(s, k);
      assert s == [s[0]] + s[1..];
      PruneEachCons(s[0], s[1..], k);
      assert ps[0] == Prune(s[0], k) && ps[1..] == PruneEach(s[1..], k);
      SortCommutesWithPrune(s[1..], k);
      InsertCommutesWithPrune(s[0], SortEntries(s[1..]), k);
    }
  }

  /** The depth bound is exactly pruning: walking d with max_depth = m
      yields the lines of walking, without a bound, the tree in which each
      entry of d keeps m - depth - 1 levels of contents. So an entry nested
      d levels below the listed ones appears only when depth + d < m. */
  lemma {:induction false} BoundedWalkIsPrunedWalk(d: Node, prefix: string, depth: int, m: int)
    requires d.Dir?
    ensures ChildLines(d, prefix, depth, Some(m)) ==
      ChildLines(Dir(d.name, d.readable, PruneEach(d.children, m - depth - 1)), prefix, depth, None)
    decreases d, 1
  {
    if d.readable {
      var k := m - depth - 1;
      var d' := Dir(d.name, d.readable, PruneEach(d.children, k));
      var es := SortEntries(d.children);
      SortCommutesWithPrune(d.children, k);
      var es' := SortEntries(d'.children);
      assert |es'| == |es|;
      assert ChildLines(d, prefix, depth, Some(m)) == EntriesLines(d, es, |es|, prefix, depth, Some(m));
      assert ChildLines(d', prefix, depth, None) == EntriesLines(d', es', |es|, prefix, depth, None);
      EntriesPruned(d, d', es, es', |es|, prefix, depth, m);
    }
  }

  lemma {:induction false} EntriesPruned(d: Node, d': Node, es: seq<Node>, es': seq<Node>, n: nat,
                                         prefix: string, depth: int, m: int)
    requires d.Dir? && d'.Dir? && n <= |es| && |es'| == |es|
    requires forall y :: y in es ==> y in d.children
    requires forall y :: y in es' ==> y in d'.children
    requires forall j :: 0 <= j < |es| ==> es'[j] == Prune(es[j], m - depth - 1)
    ensures EntriesLines(d, es, n, prefix, depth, Some(m)) == EntriesLines(d', es', n, prefix, depth, None)
    decreases d, 0, n
  {
    if n > 0 {
      assert es[n - 1] in es;
      EntriesPruned(d, d', es, es', n - 1, prefix, depth, m);
      EntryPruned(es[n - 1], n == |es|, prefix, depth, m);
    }
  }

  lemma {:induction false} EntryPruned(e: Node, last: bool, prefix: string, depth: int, m: int)
    ensures EntryLines(e, last, prefix, depth, Some(m)) == EntryLines(Prune(e, m - depth - 1), last, prefix, depth, None)
    decreases e, 2
  {
    var k := m - depth - 1;
    if e.Dir? && e.name !in SkipDirs {
      var inner := prefix + Extension(last);
      if k > 0 {
        BoundedWalkIsPrunedWalk(e, inner, depth + 1, m);
        assert Prune(e, k) == Dir(e.name, e.readable, PruneEach(e.children, k - 1));
      } else {
        var empty := Dir(e.name, e.readable, []);
        assert Prune(e, k) == empty;
        assert SortEntries([]) == [];
        assert ChildLines(empty, inner, depth + 1, None) == [];
        assert !Descends(depth, Some(m));
      }
    }
  }

  // ---------------------------------------------------------------------
  // The imperative walk
  // ---------------------------------------------------------------------

  /** The state build_tree shares with its nested _walk: the bound and the
      list of lines. */
  class TreeBuilder {
    const maxDepth: Option<int>
    var lines: seq<string>

    constructor (maxDepth: Option<int>)
      ensures this.maxDepth == maxDepth && lines == []
    {
      this.maxDepth := maxDepth;
      lines := [];
    }

    /** _walk(path, prefix, depth). */
    method Walk(d: Node, prefix: string, depth: int)
      requires d.Dir?
      modifies this
      ensures lines == old(lines) + ChildLines(d, prefix, depth, maxDepth)
      decreases d, 1
    {
      if !d.readable {
        return;
      }
      var entries := SortEntries(d.children);
      ghost var start := lines;
      for i := 0 to |entries|
        invariant lines == start + EntriesLines(d, entries, i, prefix, depth, maxDepth)
      {
        assert entries[i] in entries;
        EntriesLinesStep(d, entries, i, prefix, depth, maxDepth);
        WalkEntry(entries[i], i == |entries| - 1, prefix, depth);
        AppendAssoc(start, EntriesLines(d, entries, i, prefix, depth, maxDepth),
                    EntryLines(entries[i], i == |entries| - 1, prefix, depth, maxDepth));
      }
      assert ChildLines(d, prefix, depth, maxDepth) == EntriesLines(d, entries, |entries|, prefix, depth, maxDepth);
    }

    /** One pass of _walk's loop: the entry's line, then, for a directory
        that is neither skipped nor at the bound, the walk below it. */
    method WalkEntry(entry: Node, last: bool, prefix: string, depth: int)
      modifies this
      ensures lines == old(lines) + EntryLines(entry, last, prefix, depth, maxDepth)
      decreases entry, 2
    {
      var connector := if last then Elbow else Tee;
      lines := lines + [prefix + connector + entry.name];
      if entry.Dir? {
        if entry.name in SkipDirs {
          return;
        }
        var extension := if last then Blank else Pipe;
        if maxDepth.None? || depth + 1 < maxDepth.value {
          ghost var mid := lines;
          Walk(entry, prefix + extension, depth + 1);
          assert lines == mid + ChildLines(entry, prefix + extension, depth + 1, maxDepth);
        }
      }
    }
  }

  /** build_tree(startpath, max_depth): the root's name with "/", then the
      walk from the root. A root that is not a directory makes iterdir raise
      NotADirectoryError, which build_tree does not catch: None. */
  method BuildTree(root: Node, maxDepth: Option<int>) returns (r: Option<seq<string>>)
    ensures r == if root.File? then None else Some([root.name + "/"] + ChildLines(root, "", 0, maxDepth))
  {
    if root.File? {
      return None;
    }
    var builder := new TreeBuilder(maxDepth);
    builder.lines := builder.lines + [root.name + "/"];
    builder.Walk(root, "", 0);
    assert builder.lines == [root.name + "/"] + ChildLines(root, "", 0, maxDepth);
    r := Some(builder.lines);
  }

  /** The first line names the root and every later line starts with a
      connector; nothing is emitted for a file root. */
  lemma BuildTreeShape(root: Node, maxDepth: Option<int>)
    requires root.Dir?
    ensures var ls := [root.name + "/"] + ChildLines(root, "", 0, maxDepth);
      ls[0] == root.name + "/" &&
      forall i :: 1 <= i < |ls| ==> (Tee <= ls[i] || Elbow <= ls[i] || Pipe <= ls[i] || Blank <= ls[i])
  {
    var cl := ChildLines(root, "", 0, maxDepth);
    var ls := [root.name + "/"] + cl;
    if root.readable {
      var es := SortEntries(root.children);
      TopEntriesStartWithConnector(root, es, |es|, maxDepth);
      assert cl == EntriesLines(root, es, |es|, "", 0, maxDepth);
      forall i | 1 <= i < |ls| ensures Tee <= ls[i] || Elbow <= ls[i] || Pipe <= ls[i] || Blank <= ls[i] {
        assert ls[i] == cl[i - 1] && cl[i - 1] in cl;
      }
    }
  }

  lemma {:induction false} TopEntriesStartWithConnector(d: Node, es: seq<Node>, n: nat, maxDepth: Option<int>)
    requires d.Dir? && n <= |es| && forall y :: y in es ==> y in d.children
    ensures forall l :: l in EntriesLines(d, es, n, "", 0, maxDepth) ==>
      (Tee <= l || Elbow <= l || Pipe <= l || Blank <= l)
    decreases n
  {
    if n > 0 {
      var e := es[n - 1];
      var last := n == |es|;
      assert e in es;
      TopEntriesStartWithConnector(d, es, n - 1, maxDepth);
      var own := "" + Connector(last) + e.name;
      assert Connector(last) <= own;
      var el := EntryLines(e, last, "", 0, maxDepth);
      if e.Dir? && e.name !in SkipDirs && Descends(0, maxDepth) {
        var ext := "" + Extension(last);
        assert ext == Pipe || ext == Blank;
        ChildLinesHavePrefix(e, ext, 1, maxDepth);
        assert el == [own] + ChildLines(e, ext, 1, maxDepth);
      } else {
        assert el == [own];
      }
      assert EntriesLines(d, es, n, "", 0, maxDepth) == EntriesLines(d, es, n - 1, "", 0, maxDepth) + el;
    }
  }

  // ---------------------------------------------------------------------
  // The file content main writes
  // ---------------------------------------------------------------------

  /** The plain file content: the lines joined by newlines, with a final
      newline. */
  function PlainContent(lines: seq<string>): string {
    Join("\n", lines) + "\n"
  }

  /** The Markdown file content: the joined lines inside a fenced code
      block of three backticks. */
  function MarkdownContent(lines: seq<string>): string {
    "```\n" + Join("\n", lines) + "\n```\n"
  }

  /** The file content for the --markdown flag. */
  function Content(lines: seq<string>, markdown: bool): string {
    if markdown then MarkdownContent(lines) else PlainContent(lines)
  }

  /** The Markdown form is the plain form fenced by backtick lines, and
      every line sits in the plain form at its place. */
  lemma ContentForms(lines: seq<string>, i: nat)
    requires i < |lines|
    ensures MarkdownContent(lines) == "```\n" + PlainContent(lines) + "```\n"
    ensures var at := Offset("\n", lines, i); var p := PlainContent(lines);
      at + |lines[i]| < |p| && p[at..at + |lines[i]|] == lines[i] && p[|p| - 1] == '\n'
  {
    JoinPartAt("\n", lines, i);
    var j := Join("\n", lines);
    assert PlainContent(lines)[..|j|] == j;
  }

  /** How many lines the preview shows. */
  const PreviewLines: nat := 50

  /** What follows a preview that leaves lines out. */
  const Truncated: string := "\n... (truncated)"

  /** The printed preview: the first 50 lines joined by newlines, followed
      by the truncation marker when there are more. */
  function Preview(lines: seq<string>): string {
    if |lines| <= PreviewLines then Join("\n", lines)
    else Join("\n", lines[..PreviewLines]) + Truncated
  }

  /** A tree of at most 50 lines is previewed whole: the preview is the
      plain file content without its final newline. A longer tree shows its
      first 50 lines, which open the file content, and then the marker. */
  lemma PreviewShape(lines: seq<string>)
    ensures |lines| <= PreviewLines ==> PlainContent(lines) == Preview(lines) + "\n"
    ensures |lines| > PreviewLines ==>
      var shown := Join("\n", lines[..PreviewLines]);
      Preview(lines) == shown + Truncated && shown <= PlainContent(lines)
  {
    if |lines| > PreviewLines {
      var shown := lines[..PreviewLines];
      JoinPrefix("\n", shown, lines[PreviewLines..]);
      assert shown + lines[PreviewLines..] == lines;
    }
  }

  /** What main does with the resolved root. */
  datatype RunOutcome =
    | RootMissing                                  // prints an error, writes nothing
    | NotADirectory                                // build_tree raises from iterdir
    | Written(content: string, preview: string)    // the file's text and the preview printed

  /** main() for the root as found on disk (None when it does not exist),
      --max-depth and --markdown. */
  function Run(root: Option<Node>, maxDepth: Option<int>, markdown: bool): (r: RunOutcome)
    ensures r.RootMissing? <==> root.None?
    ensures r.NotADirectory? <==> root.Some? && root.value.File?
  {
    match root
    case None => RootMissing
    case Some(d) =>
      if d.File? then NotADirectory
      else
        var lines := [d.name + "/"] + ChildLines(d, "", 0, maxDepth);
        Written(Content(lines, markdown), Preview(lines))
  }

  /** For a directory root the file starts with the root's line ("```"
      fence first in Markdown) and ends with a newline. */
  lemma RunWritesTree(d: Node, maxDepth: Option<int>, markdown: bool)
    requires d.Dir?
    ensures var r := Run(Some(d), maxDepth, markdown); var first := d.name + "/";
      r.Written? && r.content[|r.content| - 1] == '\n' &&
      var plain := if markdown then r.content[4..] else r.content;
      |first| <= |plain| && plain[..|first|] == first
  {
    var lines := [d.name + "/"] + ChildLines(d, "", 0, maxDepth);
    ContentForms(lines, 0);
    assert Offset("\n", lines, 0) == 0;
    var p := PlainContent(lines);
    assert p[..|lines[0]|] == lines[0];
    if markdown {
      var c := MarkdownContent(lines);
      assert c == "```\n" + (p + "```\n");
      assert c[4..] == p + "```\n";
    }
  }
}
