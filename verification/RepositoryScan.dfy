/** The bounded breadth-first scan of a repository. */
module RepositoryScan {
  import opened Options
  import opened Sequences
  import opened Sorting

  const SCAN_MAX_DEPTH := 4
  const SCAN_MAX_ENTRIES := 4000

  type Path = seq<string>

  /** An entry of the project tree. A folder lists its children in some order;
      `Refused` is an entry whose `stat` fails. */
  datatype Node = File | Refused | Folder(listing: seq<string>, children: map<string, Node>)

  predicate TreeOk(node: Node) {
    node.Folder? ==>
      && NoRepeats(node.listing)
      && (forall name | name in node.listing :: name in node.children)
      && forall name | name in node.children :: name in node.listing && TreeOk(node.children[name])
  }

  /** A directory to be listed, and how many directories lie above it. */
  datatype Frontier = Frontier(path: Path, folder: Node, depth: nat)

  /** An examined entry and the depth of the directory that holds it. */
  datatype Entry = Entry(path: Path, node: Node, depth: nat)

  predicate FrontierOk(frontier: seq<Frontier>) {
    forall d | d in frontier :: d.folder.Folder? && TreeOk(d.folder) && d.depth <= SCAN_MAX_DEPTH
  }

  /** The entries of one directory, in the order in which they are examined. */
  function EntriesOf(d: Frontier): (r: seq<Entry>)
    requires d.folder.Folder? && TreeOk(d.folder)
    ensures |r| == |Sort(d.folder.listing)|
  {
    var names := Sort(d.folder.listing);
    SortElements(d.folder.listing);
    seq(|names|, i requires 0 <= i < |names| => Entry(d.path + [names[i]], d.folder.children[names[i]], d.depth))
  }

  function AllEntries(frontier: seq<Frontier>): seq<Entry>
    requires FrontierOk(frontier)
  {
    if frontier == [] then []
    else
      assert forall d | d in frontier[..|frontier| - 1] :: d in frontier;
      assert frontier[|frontier| - 1] in frontier;
      AllEntries(frontier[..|frontier| - 1]) + EntriesOf(frontier[|frontier| - 1])
  }

  predicate Entered(e: Entry, excluded: set<string>) {
    e.node.Folder? && e.path != [] && e.path[|e.path| - 1] !in excluded && e.depth < SCAN_MAX_DEPTH
  }

  /** The directories among these entries that the scan goes on to. */
  function Below(entries: seq<Entry>, excluded: set<string>): seq<Frontier> {
    if entries == [] then []
    else
      var init, last := Below(entries[..|entries| - 1], excluded), entries[|entries| - 1];
      if Entered(last, excluded) then init + [Frontier(last.path, last.node, last.depth + 1)] else init
  }

  /** The entries that are files, or anything else that can be examined and is no directory. */
  function FilesOf(entries: seq<Entry>): seq<Path> {
    if entries == [] then []
    else
      var init, last := FilesOf(entries[..|entries| - 1]), entries[|entries| - 1];
      if last.node.File? then init + [last.path] else init
  }

  lemma EntriesOk(d: Frontier)
    requires d.folder.Folder? && TreeOk(d.folder)
    ensures forall e | e in EntriesOf(d) :: TreeOk(e.node) && e.depth == d.depth
  {
    SortElements(d.folder.listing);
  }

  lemma {:induction false} AllEntriesOk(frontier: seq<Frontier>)
    requires FrontierOk(frontier)
    ensures forall e | e in AllEntries(frontier) :: TreeOk(e.node)
  {
    if frontier != [] {
      var init, last := frontier[..|frontier| - 1], frontier[|frontier| - 1];
      assert forall d | d in init :: d in frontier;
      assert last in frontier;
      AllEntriesOk(init);
      EntriesOk(last);
    }
  }

  lemma {:induction false} BelowOk(entries: seq<Entry>, excluded: set<string>)
    requires forall e | e in entries :: TreeOk(e.node)
    ensures FrontierOk(Below(entries, excluded))
  {
    if entries != [] {
      assert entries[|entries| - 1] in entries;
      BelowOk(entries[..|entries| - 1], excluded);
    }
  }

  predicate AtDepth(frontier: seq<Frontier>, depth: nat) {
    forall d | d in frontier :: d.depth == depth
  }

  /** The directories of one level lie equally deep. */
  predicate Level(frontier: seq<Frontier>) {
    frontier != [] ==> AtDepth(frontier, frontier[0].depth)
  }

  lemma {:induction false} BelowDeeper(entries: seq<Entry>, excluded: set<string>, depth: nat)
    requires forall e | e in entries :: e.depth == depth
    ensures AtDepth(Below(entries, excluded), depth + 1)
    ensures depth >= SCAN_MAX_DEPTH ==> Below(entries, excluded) == []
  {
    if entries != [] {
      assert entries[|entries| - 1] in entries;
      BelowDeeper(entries[..|entries| - 1], excluded, depth);
    }
  }

  lemma {:induction false} EntriesAtDepth(frontier: seq<Frontier>, depth: nat)
    requires FrontierOk(frontier) && AtDepth(frontier, depth)
    ensures forall e | e in AllEntries(frontier) :: e.depth == depth
  {
    if frontier != [] {
      var init, last := frontier[..|frontier| - 1], frontier[|frontier| - 1];
      assert forall d | d in init :: d in frontier;
      assert last in frontier;
      EntriesAtDepth(init, depth);
      EntriesOk(last);
    }
  }

  /** The next level, if there is one, is one deeper. */
  lemma NextLevel(frontier: seq<Frontier>, excluded: set<string>)
    requires FrontierOk(frontier) && Level(frontier) && frontier != []
    ensures FrontierOk(Below(AllEntries(frontier), excluded)) && Level(Below(AllEntries(frontier), excluded))
    ensures Below(AllEntries(frontier), excluded) != [] ==> Below(AllEntries(frontier), excluded)[0].depth == frontier[0].depth + 1
  {
    assert frontier[0] in frontier;
    AllEntriesOk(frontier);
    BelowOk(AllEntries(frontier), excluded);
    EntriesAtDepth(frontier, frontier[0].depth);
    BelowDeeper(AllEntries(frontier), excluded, frontier[0].depth);
  }

  function LevelsLeft(frontier: seq<Frontier>): int {
    if frontier == [] then 0 else SCAN_MAX_DEPTH + 1 - frontier[0].depth
  }

  /** Everything that a scan without a budget would examine, level by level. */
  function Unlimited(frontier: seq<Frontier>, excluded: set<string>): seq<Entry>
    requires FrontierOk(frontier) && Level(frontier)
    decreases LevelsLeft(frontier)
  {
    if frontier == [] then []
    else
      assert frontier[0] in frontier;
      NextLevel(frontier, excluded);
      AllEntries(frontier) + Unlimited(Below(AllEntries(frontier), excluded), excluded)
  }

  lemma OneMoreEntry(entries: seq<Entry>, e: Entry, excluded: set<string>)
    ensures FilesOf(entries + [e]) == if e.node.File? then FilesOf(entries) + [e.path] else FilesOf(entries)
    ensures Below(entries + [e], excluded) ==
      if Entered(e, excluded) then Below(entries, excluded) + [Frontier(e.path, e.node, e.depth + 1)] else Below(entries, excluded)
  {
    assert (entries + [e])[..|entries|] == entries;
  }

  lemma EntryAt(d: Frontier, i: nat)
    requires d.folder.Folder? && TreeOk(d.folder) && i < |EntriesOf(d)|
    ensures
      var name := Sort(d.folder.listing)[i];
      name in d.folder.children && EntriesOf(d)[i] == Entry(d.path + [name], d.folder.children[name], d.depth)
  {
    SortElements(d.folder.listing);
  }

  /** The innermost loop, over the sorted entries of one directory. `done` holds the
      entries examined in the whole scan, `level` those examined at this level; what
      is `seen` here comes after them. */
  method ScanDirectory(entries: seq<Entry>, excluded: set<string>, budget: nat, files: seq<Path>, next: seq<Frontier>, ghost done: seq<Entry>, ghost level: seq<Entry>)
    returns (left: nat, files': seq<Path>, next': seq<Frontier>, truncated: bool, ghost seen: seq<Entry>)
    requires files == FilesOf(done) && next == Below(level, excluded)
    ensures seen <= entries && left + |seen| == budget
    ensures truncated <==> seen != entries
    ensures truncated ==> left == 0
    ensures files' == FilesOf(done + seen) && next' == Below(level + seen, excluded)
  {
    left, files', next', truncated, seen := budget, files, next, false, [];
    ghost var allDone, allLevel := done, level;
    var i := 0;
    while i < |entries|
      invariant 0 <= i <= |entries| && left + i == budget
      invariant seen == entries[..i] && allDone == done + seen && allLevel == level + seen
      invariant files' == FilesOf(allDone) && next' == Below(allLevel, excluded)
    {
      if left == 0 {
        truncated := true;
        return;
      }
      left := left - 1;
      var e := entries[i];
      OneMoreEntry(allDone, e, excluded);
      OneMoreEntry(allLevel, e, excluded);
      TakeOne(done, entries, i);
      TakeOne(level, entries, i);
      allDone, allLevel := allDone + [e], allLevel + [e];
      if e.node.File? {
        files' := files' + [e.path];
      } else if Entered(e, excluded) {
        next' := next' + [Frontier(e.path, e.node, e.depth + 1)];
      }
      i := i + 1;
      seen := entries[..i];
    }
    WholeTaken(entries, i);
  }

  lemma TakeOne<T>(done: seq<T>, more: seq<T>, i: nat)
    requires i < |more|
    ensures done + more[..i + 1] == (done + more[..i]) + [more[i]]
  {
  }

  lemma LevelStep(frontier: seq<Frontier>, j: nat)
    requires FrontierOk(frontier) && j < |frontier|
    ensures FrontierOk(frontier[..j]) && FrontierOk(frontier[..j + 1])
    ensures AllEntries(frontier[..j + 1]) == AllEntries(frontier[..j]) + EntriesOf(frontier[j])
  {
    assert frontier[..j + 1][..j] == frontier[..j];
  }

  lemma {:induction false} LevelPrefix(frontier: seq<Frontier>, j: nat)
    requires FrontierOk(frontier) && j <= |frontier|
    ensures FrontierOk(frontier[..j]) && AllEntries(frontier[..j]) <= AllEntries(frontier)
    decreases |frontier| - j
  {
    if j < |frontier| {
      LevelStep(frontier, j);
      LevelPrefix(frontier, j + 1);
    } else {
      assert frontier[..j] == frontier;
    }
  }

  /** One level of the scan. */
  method ScanLevel(frontier: seq<Frontier>, excluded: set<string>, budget: nat, files: seq<Path>, ghost done: seq<Entry>)
    returns (left: nat, files': seq<Path>, next: seq<Frontier>, truncated: bool, ghost seen: seq<Entry>)
    requires FrontierOk(frontier) && files == FilesOf(done)
    ensures seen <= AllEntries(frontier) && left + |seen| == budget
    ensures truncated <==> seen != AllEntries(frontier)
    ensures truncated ==> left == 0
    ensures files' == FilesOf(done + seen)
    ensures !truncated ==> next == Below(seen, excluded)
  {
    left, files', next, truncated, seen := budget, files, [], false, [];
    var j := 0;
    assert done + [] == done;
    while j < |frontier|
      invariant 0 <= j <= |frontier|
      invariant FrontierOk(frontier[..j]) && seen == AllEntries(frontier[..j])
      invariant left + |seen| == budget
      invariant files' == FilesOf(done + seen) && next == Below(seen, excluded)
    {
      LevelStep(frontier, j);
      LevelPrefix(frontier, j + 1);
      ghost var level, taken := seen, [];
      left, files', next, truncated, taken := ScanDirectory(EntriesOf(frontier[j]), excluded, left, files', next, done + level, level);
      Associative(done, level, taken);
      seen := level + taken;
      if truncated {
        Shorter(level, EntriesOf(frontier[j]), taken, AllEntries(frontier));
        return;
      }
      j := j + 1;
    }
    WholeTaken(frontier, j);
  }

  lemma Shorter<T>(level: seq<T>, here: seq<T>, taken: seq<T>, all: seq<T>)
    requires taken <= here && taken != here && level + here <= all
    ensures level + taken <= all && level + taken != all
  {
  }

  lemma WholeTaken<T>(s: seq<T>, k: nat)
    requires k == |s|
    ensures s[..k] == s
  {
  }

  function Root(root: Node): seq<Frontier> {
    [Frontier([], root, 0)]
  }

  /** All that there is to examine in this project. */
  function Everything(root: Node, excluded: set<string>): seq<Entry>
    requires root.Folder? && TreeOk(root)
  {
    Unlimited(Root(root), excluded)
  }

  /** The scan examines the first entries of the unlimited one, at most its budget of
      them, and says whether it left any out. */
  method ObserveRepositoryEvidence(root: Node, excluded: set<string>) returns (files: seq<Path>, truncated: bool)
    requires root.Folder? && TreeOk(root)
    ensures truncated <==> |Everything(root, excluded)| > 4_000
    ensures files == FilesOf(if truncated then Everything(root, excluded)[..4_000] else Everything(root, excluded))
  {
    ghost var all := Everything(root, excluded);
    ghost var done := [];
    var frontier := Root(root);
    var budget: nat := SCAN_MAX_ENTRIES;
    files, truncated := [], false;
    assert done + all == all;
    while |frontier| > 0
      invariant !truncated && FrontierOk(frontier) && Level(frontier)
      invariant done + Unlimited(frontier, excluded) == all
      invariant files == FilesOf(done) && |done| + budget == SCAN_MAX_ENTRIES
      decreases LevelsLeft(frontier)
    {
      assert frontier[0] in frontier;
      NextLevel(frontier, excluded);
      ghost var here, rest := AllEntries(frontier), Unlimited(Below(AllEntries(frontier), excluded), excluded);
      ghost var seen;
      budget, files, frontier, truncated, seen := ScanLevel(frontier, excluded, budget, files, done);
      Associative(done, here, rest);
      if truncated {
        CutShort(done, here, seen, rest, all);
        return;
      }
      done := done + here;
    }
    NothingLeft(done, Unlimited(frontier, excluded), all);
  }

  lemma NothingLeft<T>(done: seq<T>, rest: seq<T>, all: seq<T>)
    requires done + rest == all && rest == []
    ensures done == all
  {
  }

  lemma CutShort<T>(done: seq<T>, here: seq<T>, seen: seq<T>, rest: seq<T>, all: seq<T>)
    requires seen <= here && seen != here && (done + here) + rest == all
    ensures |all| > |done + seen| && all[..|done + seen|] == done + seen
  {
  }

  /** The node that the names lead to, through at most `left` more directories, none
      of them excluded. */
  function Reach(node: Node, names: seq<string>, left: int, excluded: set<string>): Option<Node>
    decreases |names|
  {
    if names == [] || !node.Folder? || names[0] !in node.children then None
    else
      var child := node.children[names[0]];
      if |names| == 1 then Some(child)
      else if child.Folder? && names[0] !in excluded && left > 0 then Reach(child, names[1..], left - 1, excluded)
      else None
  }

  /** From this directory of the frontier. */
  function ReachFrom(d: Frontier, names: seq<string>, excluded: set<string>): Option<Node> {
    Reach(d.folder, names, SCAN_MAX_DEPTH - d.depth, excluded)
  }

  lemma ReachOne(d: Frontier, name: string, excluded: set<string>)
    requires d.folder.Folder? && name in d.folder.children
    ensures ReachFrom(d, [name], excluded) == Some(d.folder.children[name])
  {
  }

  lemma {:induction false} EntrySource(frontier: seq<Frontier>, e: Entry) returns (d: Frontier)
    requires FrontierOk(frontier) && e in AllEntries(frontier)
    ensures d in frontier && e in EntriesOf(d)
  {
    var init, last := frontier[..|frontier| - 1], frontier[|frontier| - 1];
    assert forall f | f in init :: f in frontier;
    assert last in frontier;
    if e in EntriesOf(last) {
      d := last;
    } else {
      d := EntrySource(init, e);
    }
  }

  lemma {:induction false} EntryListed(frontier: seq<Frontier>, d: Frontier, e: Entry)
    requires FrontierOk(frontier) && d in frontier && e in EntriesOf(d)
    ensures e in AllEntries(frontier)
  {
    var init, last := frontier[..|frontier| - 1], frontier[|frontier| - 1];
    assert forall f | f in init :: f in frontier;
    if d != last {
      SplitLast(frontier);
      EntryListed(init, d, e);
    }
  }

  lemma EntryNamed(d: Frontier, name: string)
    requires d.folder.Folder? && TreeOk(d.folder) && name in d.folder.children
    ensures Entry(d.path + [name], d.folder.children[name], d.depth) in EntriesOf(d)
  {
    SortElements(d.folder.listing);
    assert name in Sort(d.folder.listing);
    var i :| 0 <= i < |Sort(d.folder.listing)| && Sort(d.folder.listing)[i] == name;
    EntryAt(d, i);
    assert EntriesOf(d)[i] in EntriesOf(d);
  }

  lemma EntryName(d: Frontier, e: Entry) returns (name: string)
    requires d.folder.Folder? && TreeOk(d.folder) && e in EntriesOf(d)
    ensures name in d.folder.children && e == Entry(d.path + [name], d.folder.children[name], d.depth)
  {
    var i :| 0 <= i < |EntriesOf(d)| && EntriesOf(d)[i] == e;
    EntryAt(d, i);
    name := Sort(d.folder.listing)[i];
  }

  lemma {:induction false} BelowSource(entries: seq<Entry>, excluded: set<string>, f: Frontier) returns (e: Entry)
    requires f in Below(entries, excluded)
    ensures e in entries && Entered(e, excluded) && f == Frontier(e.path, e.node, e.depth + 1)
  {
    var last := entries[|entries| - 1];
    if Entered(last, excluded) && f == Frontier(last.path, last.node, last.depth + 1) {
      e := last;
    } else {
      e := BelowSource(entries[..|entries| - 1], excluded, f);
    }
  }

  lemma {:induction false} BelowListed(entries: seq<Entry>, excluded: set<string>, e: Entry)
    requires e in entries && Entered(e, excluded)
    ensures Frontier(e.path, e.node, e.depth + 1) in Below(entries, excluded)
  {
    if e != entries[|entries| - 1] {
      SplitLast(entries);
      BelowListed(entries[..|entries| - 1], excluded, e);
    }
  }

  /** One directory further up. */
  lemma ReachThrough(d: Frontier, name: string, rest: seq<string>, excluded: set<string>)
    requires d.folder.Folder? && name in d.folder.children && rest != []
    requires d.folder.children[name].Folder? && name !in excluded && d.depth < SCAN_MAX_DEPTH
    ensures ReachFrom(d, [name] + rest, excluded) == ReachFrom(Frontier(d.path + [name], d.folder.children[name], d.depth + 1), rest, excluded)
  {
    assert ([name] + rest)[1..] == rest;
  }

  lemma ReachedName(d: Frontier, names: seq<string>, excluded: set<string>)
    requires ReachFrom(d, names, excluded).Some?
    ensures names != [] && d.folder.Folder? && names[0] in d.folder.children
    ensures |names| > 1 ==> d.folder.children[names[0]].Folder? && names[0] !in excluded && d.depth < SCAN_MAX_DEPTH
  {
  }

  /** Whatever is examined is reachable. */
  lemma {:induction false} Reached(frontier: seq<Frontier>, excluded: set<string>, e: Entry) returns (d: Frontier, names: seq<string>)
    requires FrontierOk(frontier) && Level(frontier) && e in Unlimited(frontier, excluded)
    ensures d in frontier && e.path == d.path + names
    ensures ReachFrom(d, names, excluded) == Some(e.node)
    decreases LevelsLeft(frontier)
  {
    assert frontier[0] in frontier;
    NextLevel(frontier, excluded);
    if e in AllEntries(frontier) {
      d := EntrySource(frontier, e);
      var name := EntryName(d, e);
      names := [name];
      ReachOne(d, name, excluded);
    } else {
      var f, rest := Reached(Below(AllEntries(frontier), excluded), excluded, e);
      var above := BelowSource(AllEntries(frontier), excluded, f);
      d := EntrySource(frontier, above);
      var name := EntryName(d, above);
      names := [name] + rest;
      assert above.path[|above.path| - 1] == name;
      ReachThrough(d, name, rest, excluded);
      Associative(d.path, [name], rest);
    }
  }

  /** Whatever is reachable is examined. */
  lemma {:induction false} Examined(frontier: seq<Frontier>, excluded: set<string>, d: Frontier, names: seq<string>) returns (e: Entry)
    requires FrontierOk(frontier) && Level(frontier) && d in frontier
    requires ReachFrom(d, names, excluded).Some?
    ensures e in Unlimited(frontier, excluded) && e.path == d.path + names
    ensures ReachFrom(d, names, excluded) == Some(e.node)
    decreases LevelsLeft(frontier)
  {
    assert frontier[0] in frontier;
    NextLevel(frontier, excluded);
    ReachedName(d, names, excluded);
    var name, rest := names[0], names[1..];
    SplitFirstOff(names);
    EntryNamed(d, name);
    e := Entry(d.path + [name], d.folder.children[name], d.depth);
    EntryListed(frontier, d, e);
    if rest != [] {
      var f := Frontier(e.path, e.node, e.depth + 1);
      assert e.path[|e.path| - 1] == name;
      BelowListed(AllEntries(frontier), excluded, e);
      ReachThrough(d, name, rest, excluded);
      e := Examined(Below(AllEntries(frontier), excluded), excluded, f, rest);
      Associative(d.path, [name], rest);
    } else {
      ReachOne(d, name, excluded);
    }
  }

  lemma {:induction false} FileListed(entries: seq<Entry>, p: Path)
    ensures p in FilesOf(entries) <==> exists e | e in entries :: e.path == p && e.node.File?
  {
    if entries != [] {
      SplitLast(entries);
      FileListed(entries[..|entries| - 1], p);
    }
  }

  lemma TopReach(root: Node, excluded: set<string>, p: Path)
    ensures ReachFrom(Frontier([], root, 0), p, excluded) == Reach(root, p, 4, excluded)
  {
  }

  lemma ReachedFromTop(root: Node, excluded: set<string>, e: Entry)
    requires root.Folder? && TreeOk(root) && e in Everything(root, excluded)
    ensures Reach(root, e.path, 4, excluded) == Some(e.node)
  {
    var d, names := Reached(Root(root), excluded, e);
    assert [] + names == names;
    TopReach(root, excluded, names);
  }

  lemma ExaminedFromTop(root: Node, excluded: set<string>, p: Path) returns (e: Entry)
    requires root.Folder? && TreeOk(root) && Reach(root, p, 4, excluded).Some?
    ensures e in Everything(root, excluded) && e.path == p && Some(e.node) == Reach(root, p, 4, excluded)
  {
    TopReach(root, excluded, p);
    e := Examined(Root(root), excluded, Frontier([], root, 0), p);
    assert [] + p == p;
  }

  /** An entry is examined exactly if it is reachable through at most four directories,
      none of them excluded. */
  lemma ExaminedExactly(root: Node, excluded: set<string>, p: Path, node: Node)
    requires root.Folder? && TreeOk(root)
    ensures (exists e | e in Everything(root, excluded) :: e.path == p && e.node == node) <==>
      Reach(root, p, 4, excluded) == Some(node)
  {
    if e :| e in Everything(root, excluded) && e.path == p && e.node == node {
      ReachedFromTop(root, excluded, e);
    }
    if Reach(root, p, 4, excluded) == Some(node) {
      var e := ExaminedFromTop(root, excluded, p);
    }
  }

  /** The files of an untruncated scan are exactly those reachable through at most four
      directories, none of them excluded. */
  lemma FilesAreReachable(root: Node, excluded: set<string>, p: Path)
    requires root.Folder? && TreeOk(root)
    ensures p in FilesOf(Everything(root, excluded)) <==> Reach(root, p, 4, excluded) == Some(File)
  {
    FileListed(Everything(root, excluded), p);
    ExaminedExactly(root, excluded, p, File);
  }

  lemma {:induction false} FilesPrefix(entries: seq<Entry>, k: nat)
    requires k <= |entries|
    ensures FilesOf(entries[..k]) <= FilesOf(entries)
    decreases |entries|
  {
    if k < |entries| {
      assert entries[..|entries| - 1][..k] == entries[..k];
      FilesPrefix(entries[..|entries| - 1], k);
    } else {
      assert entries[..k] == entries;
    }
  }

  /** A truncated scan reports a prefix of what the unlimited one would. */
  lemma TruncatedIsPrefix(root: Node, excluded: set<string>)
    requires root.Folder? && TreeOk(root) && |Everything(root, excluded)| > 4_000
    ensures FilesOf(Everything(root, excluded)[..4_000]) <= FilesOf(Everything(root, excluded))
  {
    FilesPrefix(Everything(root, excluded), SCAN_MAX_ENTRIES);
  }

  /** Of two paths of one length: they first differ where the name in `p` is the smaller. */
  predicate Smaller(p: Path, q: Path)
    requires |p| == |q|
  {
    p != [] && if p[0] == q[0] then Smaller(p[1..], q[1..]) else AtMost(p[0], q[0])
  }

  lemma {:induction false} SmallerSiblings(p: Path, a: string, b: string)
    requires a != b && AtMost(a, b)
    ensures Smaller(p + [a], p + [b])
  {
    if p != [] {
      SmallerSiblings(p[1..], a, b);
      assert (p + [a])[1..] == p[1..] + [a] && (p + [b])[1..] == p[1..] + [b];
    }
  }

  lemma {:induction false} SmallerBelow(p: Path, q: Path, a: string, b: string)
    requires |p| == |q| && Smaller(p, q)
    ensures Smaller(p + [a], q + [b])
  {
    assert (p + [a])[1..] == p[1..] + [a] && (q + [b])[1..] == q[1..] + [b];
    if p[0] == q[0] {
      SmallerBelow(p[1..], q[1..], a, b);
    }
  }

  lemma {:induction false} SmallerDiffers(p: Path, q: Path)
    requires |p| == |q| && Smaller(p, q)
    ensures p != q
  {
    if p[0] == q[0] {
      SmallerDiffers(p[1..], q[1..]);
    }
  }

  /** Nearer the root first, and in the order of names at one distance. */
  predicate Before(p: Path, q: Path) {
    |p| < |q| || (|p| == |q| && Smaller(p, q))
  }

  ghost predicate FrontierInOrder(frontier: seq<Frontier>, length: nat) {
    && (forall d | d in frontier :: |d.path| == length)
    && forall i, j | 0 <= i < j < |frontier| :: Before(frontier[i].path, frontier[j].path)
  }

  ghost predicate EntriesInOrder(entries: seq<Entry>) {
    forall i, j | 0 <= i < j < |entries| :: Before(entries[i].path, entries[j].path)
  }

  ghost predicate OfLength(entries: seq<Entry>, length: nat) {
    forall e | e in entries :: |e.path| == length
  }

  lemma DirectoryInOrder(d: Frontier)
    requires d.folder.Folder? && TreeOk(d.folder)
    ensures EntriesInOrder(EntriesOf(d)) && OfLength(EntriesOf(d), |d.path| + 1)
  {
    var names := Sort(d.folder.listing);
    SortSorted(d.folder.listing);
    SortKeepsDistinct(d.folder.listing);
    forall i, j | 0 <= i < j < |EntriesOf(d)| ensures Before(EntriesOf(d)[i].path, EntriesOf(d)[j].path) {
      EntryAt(d, i);
      EntryAt(d, j);
      SmallerSiblings(d.path, names[i], names[j]);
    }
    forall e | e in EntriesOf(d) ensures |e.path| == |d.path| + 1 {
      var name := EntryName(d, e);
    }
  }

  lemma JoinInOrder(a: seq<Entry>, b: seq<Entry>)
    requires EntriesInOrder(a) && EntriesInOrder(b) && forall x, y | x in a && y in b :: Before(x.path, y.path)
    ensures EntriesInOrder(a + b)
  {
    forall i, j | 0 <= i < j < |a + b| ensures Before((a + b)[i].path, (a + b)[j].path) {
      if i < |a| <= j {
        assert a[i] in a && b[j - |a|] in b;
      }
    }
  }

  lemma {:induction false} LevelInOrder(frontier: seq<Frontier>, length: nat)
    requires FrontierOk(frontier) && FrontierInOrder(frontier, length)
    ensures EntriesInOrder(AllEntries(frontier)) && OfLength(AllEntries(frontier), length + 1)
  {
    if frontier != [] {
      var init, last := frontier[..|frontier| - 1], frontier[|frontier| - 1];
      assert forall d | d in init :: d in frontier;
      assert last in frontier;
      LevelInOrder(init, length);
      DirectoryInOrder(last);
      forall x, y | x in AllEntries(init) && y in EntriesOf(last) ensures Before(x.path, y.path) {
        var d := EntrySource(init, x);
        var k :| 0 <= k < |init| && init[k] == d;
        assert Before(frontier[k].path, frontier[|frontier| - 1].path);
        var a := EntryName(d, x);
        var b := EntryName(last, y);
        SmallerBelow(d.path, last.path, a, b);
      }
      JoinInOrder(AllEntries(init), EntriesOf(last));
    }
  }

  lemma {:induction false} BelowInOrder(entries: seq<Entry>, excluded: set<string>, length: nat)
    requires EntriesInOrder(entries) && OfLength(entries, length)
    ensures FrontierInOrder(Below(entries, excluded), length)
  {
    if entries != [] {
      var init, last := entries[..|entries| - 1], entries[|entries| - 1];
      assert last in entries && forall e | e in init :: e in entries;
      BelowInOrder(init, excluded, length);
      forall d | d in Below(init, excluded) ensures Before(d.path, last.path) {
        var e := BelowSource(init, excluded, d);
        var k :| 0 <= k < |init| && init[k] == e;
        assert Before(entries[k].path, entries[|entries| - 1].path);
      }
    }
  }

  lemma {:induction false} LongerBelow(frontier: seq<Frontier>, excluded: set<string>, length: nat)
    requires FrontierOk(frontier) && Level(frontier) && FrontierInOrder(frontier, length)
    ensures EntriesInOrder(Unlimited(frontier, excluded))
    ensures forall e | e in Unlimited(frontier, excluded) :: |e.path| > length
    decreases LevelsLeft(frontier)
  {
    if frontier != [] {
      assert frontier[0] in frontier;
      NextLevel(frontier, excluded);
      LevelInOrder(frontier, length);
      BelowInOrder(AllEntries(frontier), excluded, length + 1);
      LongerBelow(Below(AllEntries(frontier), excluded), excluded, length + 1);
      JoinInOrder(AllEntries(frontier), Unlimited(Below(AllEntries(frontier), excluded), excluded));
    }
  }

  /** The scan is breadth first, in the order of names at each depth, and examines no
      path twice. */
  lemma BreadthFirst(root: Node, excluded: set<string>, i: nat, j: nat)
    requires root.Folder? && TreeOk(root) && i < j < |Everything(root, excluded)|
    ensures
      var p, q := Everything(root, excluded)[i].path, Everything(root, excluded)[j].path;
      Before(p, q) && p != q
  {
    LongerBelow(Root(root), excluded, 0);
    var p, q := Everything(root, excluded)[i].path, Everything(root, excluded)[j].path;
    assert Before(p, q);
    if |p| == |q| {
      SmallerDiffers(p, q);
    }
  }
}
