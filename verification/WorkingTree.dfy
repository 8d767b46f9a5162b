/**
 The one-pass listing of a workspace's working tree. The walk prunes excluded
 directories; it is shown to lose nothing by that.
 */
module WorkingTree {
  import opened Results
  import opened Sealing
  import opened Strings

  // ---------------------------------------------------------------------
  // Which paths are content
  // ---------------------------------------------------------------------

  const EXCLUDED_SEGMENTS: set<string> :=
    {".workspace", ".git", ".obsidian", "node_modules", ".DS_Store", "Thumbs.db", "desktop.ini"}

  predicate IsSidecar(name: string) {
    || EndsWith(name, ".swp") || EndsWith(name, ".swx") || EndsWith(name, "~")
    || StartsWith(name, ".~lock.") || StartsWith(name, ".tmp-") || EndsWith(name, ".tmp")
  }

  predicate NoneExcluded(segments: seq<string>) {
    forall k :: 0 <= k < |segments| ==> segments[k] !in EXCLUDED_SEGMENTS
  }

  predicate IsWatchablePath(relPath: string) {
    var segments := Split(relPath, '/');
    relPath != "" && NoneExcluded(segments) && !IsSidecar(segments[|segments| - 1])
  }

  lemma {:induction false} SplitOfPlain(s: string)
    requires '/' !in s
    ensures Split(s, '/') == [s]
  {
    if s != "" {
      assert '/' !in s[1..];
      SplitOfPlain(s[1..]);
      assert s == [s[0]] + s[1..];
    }
  }

  lemma PlainIsNotSidecar()
    ensures !IsSidecar("x") && "x" !in EXCLUDED_SEGMENTS
  {
    assert |"x"| == 1 && "x"[0] == 'x';
    assert "~"[0] == '~' && "x"[0..] == "x";
  }

  /** A probe below a directory fails exactly when a segment of the directory's own path is excluded. */
  lemma ProbeTestsTheDirectory(dir: string)
    ensures IsWatchablePath(dir + "/x") <==> NoneExcluded(Split(dir, '/'))
  {
    SplitOfConcat(dir, "x", '/');
    assert dir + "/x" == dir + ['/'] + "x";
    SplitOfPlain("x");
    PlainIsNotSidecar();
    var a, all := Split(dir, '/'), Split(dir + "/x", '/');
    assert all == a + ["x"];
    assert NoneExcluded(a) ==> NoneExcluded(all);
    assert NoneExcluded(all) ==> NoneExcluded(a) by {
      assert forall k :: 0 <= k < |a| ==> a[k] == all[k];
    }
  }

  /** Below a directory that fails the probe no path is watchable. */
  lemma NothingBelowAPrunedDirectory(dir: string, below: string)
    requires !IsWatchablePath(dir + "/x")
    ensures !IsWatchablePath(dir + "/" + below)
  {
    ProbeTestsTheDirectory(dir);
    assert dir + "/" + below == dir + ['/'] + below;
    SplitOfConcat(dir, below, '/');
    var a, all := Split(dir, '/'), Split(dir + "/" + below, '/');
    assert forall k :: 0 <= k < |a| ==> a[k] == all[k];
  }

  // ---------------------------------------------------------------------
  // The tree
  // ---------------------------------------------------------------------

  /**
   What `stat`, `readdir` and `readFile` find: a file whose bytes may be
   unreadable or torn, a directory that may be unreadable, or nothing.
   */
  datatype Node =
    | File(size: nat, blocks: nat, content: Option<Bytes>)
    | Dir(readable: bool, children: seq<Child>)
    | Missing

  datatype Child = Child(name: string, node: Node)

  datatype Entry = Entry(path: string, bytes: Bytes)

  /** `toWorkspaceRelative` of a child, given the relative path of its directory ("" for the folder itself). */
  function RelativePath(dir: string, name: string): Option<string> {
    var rel := if dir == "" then name else dir + "/" + name;
    if rel == "" || StartsWith(rel, "..") then None else Some(rel)
  }

  /** A name as `readdir` returns it. */
  predicate IsName(name: string) {
    name != ""
  }

  predicate NamesOk(children: seq<Child>)
    decreases children
  {
    forall k :: 0 <= k < |children| ==>
      && IsName(children[k].name)
      && (children[k].node.Dir? ==> NamesOk(children[k].node.children))
  }

  /** Case-insensitive suffixes to keep; `lower` stands for `toLowerCase`. */
  datatype Options = Options(lower: string -> string, extensions: Option<seq<string>>)

  predicate Wanted(o: Options, path: string) {
    o.extensions.Some? ==>
      exists k :: 0 <= k < |o.extensions.value| && EndsWith(o.lower(path), o.lower(o.extensions.value[k]))
  }

  // ---------------------------------------------------------------------
  // The plain meaning: every file, in traversal order, filtered
  // ---------------------------------------------------------------------

  datatype Found = Found(path: string, size: nat, blocks: nat, content: Option<Bytes>)

  function Under(dir: string, name: string): string {
    if dir == "" then name else dir + "/" + name
  }

  /** Every file below a directory whose children can be listed, with no pruning at all. */
  function AllFiles(dir: string, children: seq<Child>): seq<Found>
    decreases children
  {
    if children == [] then []
    else
      var last := children[|children| - 1];
      AllFiles(dir, children[..|children| - 1]) + FilesAt(Under(dir, last.name), last.node)
  }

  function FilesAt(path: string, node: Node): seq<Found>
    decreases node
  {
    match node
    case File(size, blocks, content) => [Found(path, size, blocks, content)]
    case Dir(readable, children) => if readable then AllFiles(path, children) else []
    case Missing => []
  }

  /** Watchable, wanted, present on disk, readable, and not torn. */
  predicate Reportable(o: Options, f: Found) {
    && IsWatchablePath(f.path)
    && Wanted(o, f.path)
    && !(f.size > 0 && f.blocks == 0)
    && f.content.Some? && |f.content.value| == f.size
  }

  /** What the walk keeps; a path that starts with ".." counts as outside the folder. */
  predicate Kept(o: Options, f: Found) {
    !StartsWith(f.path, "..") && Reportable(o, f)
  }

  function Keep(o: Options, files: seq<Found>): seq<Entry> {
    if files == [] then []
    else
      var f := files[|files| - 1];
      Keep(o, files[..|files| - 1]) + if Kept(o, f) then [Entry(f.path, f.content.value)] else []
  }

  lemma {:induction false} KeepOfConcat(o: Options, a: seq<Found>, b: seq<Found>)
    ensures Keep(o, a + b) == Keep(o, a) + Keep(o, b)
  {
    if b == [] {
      assert a + b == a;
    } else {
      var n := |b| - 1;
      assert (a + b)[..|a + b| - 1] == a + b[..n];
      KeepOfConcat(o, a, b[..n]);
    }
  }

  predicate AllBelow(files: seq<Found>, prefix: string) {
    forall k :: 0 <= k < |files| ==> StartsWith(files[k].path, prefix)
  }

  /** Every file below a directory has the directory's path in front. */
  lemma {:induction false} FilesStartBelow(dir: string, children: seq<Child>, prefix: string)
    requires dir != "" && StartsWith(dir + "/", prefix)
    ensures AllBelow(AllFiles(dir, children), prefix)
    decreases children
  {
    if children != [] {
      var last := children[|children| - 1];
      FilesStartBelow(dir, children[..|children| - 1], prefix);
      assert dir + "/" + last.name == (dir + "/") + last.name;
      if last.node.Dir? {
        FilesStartBelow(dir + "/" + last.name, last.node.children, prefix);
      }
    }
  }

  lemma {:induction false} NothingKept(o: Options, files: seq<Found>)
    requires forall k :: 0 <= k < |files| ==> !Kept(o, files[k])
    ensures Keep(o, files) == []
  {
    if files != [] {
      NothingKept(o, files[..|files| - 1]);
    }
  }

  /** Skipping an excluded directory loses nothing, however deep the tree below it. */
  lemma PruningLosesNothing(o: Options, dir: string, children: seq<Child>)
    requires dir != "" && !IsWatchablePath(dir + "/x")
    ensures Keep(o, AllFiles(dir, children)) == []
  {
    var files := AllFiles(dir, children);
    FilesStartBelow(dir, children, dir + "/");
    forall k | 0 <= k < |files| ensures !Kept(o, files[k]) {
      NothingBelowAPrunedDirectory(dir, files[k].path[|dir| + 1..]);
      assert files[k].path == dir + "/" + files[k].path[|dir| + 1..];
    }
    NothingKept(o, files);
  }

  /** Nothing below a top-level name that starts with ".." is kept. */
  lemma DotDotIsSkipped(o: Options, dir: string, children: seq<Child>)
    requires StartsWith(dir, "..")
    ensures Keep(o, AllFiles(dir, children)) == []
  {
    var files := AllFiles(dir, children);
    FilesStartBelow(dir, children, "..");
    NothingKept(o, files);
  }

  // ---------------------------------------------------------------------
  // The walk
  // ---------------------------------------------------------------------

  /** What one name contributes, beyond what was said about pruning, is what the filter keeps of it. */
  lemma SkippedNodeKeepsNothing(o: Options, path: string, node: Node)
    requires path != ""
    requires StartsWith(path, "..") || (node.Dir? && !IsWatchablePath(path + "/x"))
    ensures Keep(o, FilesAt(path, node)) == []
  {
    match node {
      case Dir(_, children) =>
        if StartsWith(path, "..") {
          DotDotIsSkipped(o, path, children);
        } else {
          PruningLosesNothing(o, path, children);
        }
      case File(size, blocks, content) => NothingKept(o, [Found(path, size, blocks, content)]);
      case Missing =>
    }
  }

  lemma FileIsKeptIff(o: Options, f: Found)
    ensures Keep(o, [f]) == if Kept(o, f) then [Entry(f.path, f.content.value)] else []
  {
    assert [f][..0] == [];
  }

  class Listing {
    const options: Options
    var out: seq<Entry>

    constructor (options: Options)
      ensures this.options == options && out == []
    {
      this.options := options;
      out := [];
    }

    /** `walk`: the pruned recursion pushes exactly what the filter keeps of the unpruned traversal. */
    method Walk(dir: string, children: seq<Child>)
      requires NamesOk(children) && !StartsWith(dir, "..")
      modifies this
      ensures out == old(out) + Keep(options, AllFiles(dir, children))
      decreases children
    {
      hide IsWatchablePath, Kept, Wanted, StartsWith, EndsWith, AllFiles, FilesAt, Keep, NamesOk;
      ghost var before := out;
      NothingYet(options, dir, children);
      assert before + [] == before;
      for i := 0 to |children|
        invariant out == before + Keep(options, AllFiles(dir, children[..i]))
      {
        var name, node := children[i].name, children[i].node;
        NamesOkAt(children, i);
        FilesOfPrefix(dir, children, i);
        ghost var a, b := AllFiles(dir, children[..i]), FilesAt(Under(dir, name), node);
        KeepOfConcat(options, a, b);
        Visit(dir, name, node);
        assert (before + Keep(options, a)) + Keep(options, b) == before + (Keep(options, a) + Keep(options, b));
      }
      assert children[..|children|] == children;
    }

    method Visit(dir: string, name: string, node: Node)
      requires IsName(name) && !StartsWith(dir, "..")
      requires node.Dir? ==> NamesOk(node.children)
      modifies this
      ensures out == old(out) + Keep(options, FilesAt(Under(dir, name), node))
      decreases node
    {
      hide IsWatchablePath, Wanted, AllFiles;
      var relative := RelativePath(dir, name);
      if relative.None? {
        SkippedNodeKeepsNothing(options, Under(dir, name), node);
        return;
      }
      var path := relative.value;
      match node {
        case Missing =>
        case Dir(readable, below) =>
          if !IsWatchablePath(path + "/x") {
            SkippedNodeKeepsNothing(options, path, node);
            return;
          }
          if readable {
            Walk(path, below);
          }
        case File(size, blocks, content) =>
          FileIsKeptIff(options, Found(path, size, blocks, content));
          if !IsWatchablePath(path) {
            return;
          }
          if !Wanted(options, path) {
            return;
          }
          if size > 0 && blocks == 0 {
            return;
          }
          if content.None? || |content.value| != size {
            return;
          }
          out := out + [Entry(path, content.value)];
      }
    }
  }

  lemma NothingYet(o: Options, dir: string, children: seq<Child>)
    ensures Keep(o, AllFiles(dir, children[..0])) == []
  {
    assert children[..0] == [];
  }

  lemma NamesOkAt(children: seq<Child>, i: nat)
    requires NamesOk(children) && i < |children|
    ensures IsName(children[i].name) && (children[i].node.Dir? ==> NamesOk(children[i].node.children))
  {
  }

  lemma FilesOfPrefix(dir: string, children: seq<Child>, i: nat)
    requires i < |children|
    ensures AllFiles(dir, children[..i + 1])
         == AllFiles(dir, children[..i]) + FilesAt(Under(dir, children[i].name), children[i].node)
  {
    assert children[..i + 1][..i] == children[..i];
  }

  /** What is listed: a file is, at its place in the traversal, exactly when the filter keeps it. */
  lemma {:induction false} ListedIffKept(o: Options, files: seq<Found>, path: string, bytes: Bytes)
    ensures Entry(path, bytes) in Keep(o, files) <==>
      exists k :: 0 <= k < |files| && Kept(o, files[k]) && files[k].path == path && files[k].content == Some(bytes)
  {
    hide Kept;
    if files != [] {
      var n := |files| - 1;
      ListedIffKept(o, files[..n], path, bytes);
      assert forall k :: 0 <= k < n ==> files[..n][k] == files[k];
      KeptHasContent(o, files[n]);
    }
  }

  lemma KeptHasContent(o: Options, f: Found)
    ensures Kept(o, f) ==> f.content.Some?
  {
  }

  ghost predicate ListsPath(out: seq<Entry>, path: string) {
    exists bytes :: Entry(path, bytes) in out
  }

  predicate HasReportable(o: Options, files: seq<Found>, path: string) {
    exists k :: 0 <= k < |files| && Reportable(o, files[k]) && files[k].path == path
  }

  /**
   A path is listed exactly when some reportable file has it and it does not
   start with "..": on reportable files that start is all that parts the listing
   from the watcher, which reports every watchable path.
   */
  lemma {:induction false} ListedPaths(o: Options, files: seq<Found>, path: string)
    ensures ListsPath(Keep(o, files), path) <==> !StartsWith(path, "..") && HasReportable(o, files, path)
  {
    hide Reportable, Keep;
    if bytes :| Entry(path, bytes) in Keep(o, files) {
      ListedIffKept(o, files, path, bytes);
      var k :| 0 <= k < |files| && Kept(o, files[k]) && files[k].path == path;
    }
    if !StartsWith(path, "..") {
      if k :| 0 <= k < |files| && Reportable(o, files[k]) && files[k].path == path {
        KeptHasContent(o, files[k]);
        ListedIffKept(o, files, path, files[k].content.value);
      }
    }
  }

  /** Every file of a folder, given as the node `readdir` starts from. */
  function FolderFiles(folder: Node): seq<Found>
    requires folder.Dir?
  {
    if folder.readable then AllFiles("", folder.children) else []
  }

  /** `listWorkingTree`. */
  method ListWorkingTree(folder: Node, options: Options) returns (out: seq<Entry>)
    requires folder.Dir? && NamesOk(folder.children)
    ensures out == Keep(options, FolderFiles(folder))
    ensures forall path :: ListsPath(out, path) <==>
              !StartsWith(path, "..") && HasReportable(options, FolderFiles(folder), path)
  {
    hide Keep, HasReportable, ListsPath, NamesOk;
    var listing := new Listing(options);
    if folder.readable {
      listing.Walk("", folder.children);
    } else {
      NothingKept(options, []);
    }
    out := listing.out;
    assert [] + Keep(options, FolderFiles(folder)) == Keep(options, FolderFiles(folder));
    forall path ensures ListsPath(out, path) <==>
      !StartsWith(path, "..") && HasReportable(options, FolderFiles(folder), path)
    {
      ListedPaths(options, FolderFiles(folder), path);
    }
  }

  // ---------------------------------------------------------------------
  // The listing, from the tree
  // ---------------------------------------------------------------------

  /** Following these child numbers from `node` through directories that can be listed leads to the file `f`. */
  predicate Reaches(path: string, node: Node, route: seq<nat>, f: Found)
    decreases node
  {
    match node
    case File(size, blocks, content) => route == [] && f == Found(path, size, blocks, content)
    case Dir(readable, children) =>
      && readable && route != [] && route[0] < |children|
      && Reaches(Under(path, children[route[0]].name), children[route[0]].node, route[1..], f)
    case Missing => false
  }

  ghost predicate Reachable(path: string, node: Node, f: Found) {
    exists route: seq<nat> :: Reaches(path, node, route, f)
  }

  ghost predicate BelowOne(dir: string, children: seq<Child>, f: Found) {
    exists k :: 0 <= k < |children| && Reachable(Under(dir, children[k].name), children[k].node, f)
  }

  lemma DirReaches(path: string, children: seq<Child>, f: Found)
    ensures Reachable(path, Dir(true, children), f) <==> BelowOne(path, children, f)
  {
    var node := Dir(true, children);
    if route: seq<nat> :| Reaches(path, node, route, f) {
      var k := route[0];
      assert Reaches(Under(path, children[k].name), children[k].node, route[1..], f);
      assert Reachable(Under(path, children[k].name), children[k].node, f);
    }
    if k :| 0 <= k < |children| && Reachable(Under(path, children[k].name), children[k].node, f) {
      var route: seq<nat> :| Reaches(Under(path, children[k].name), children[k].node, route, f);
      assert ([k] + route)[1..] == route;
      assert Reaches(path, node, [k] + route, f);
    }
  }

  lemma {:induction false} AllFilesIff(dir: string, children: seq<Child>, f: Found)
    ensures f in AllFiles(dir, children) <==> BelowOne(dir, children, f)
    decreases children
  {
    hide Reachable;
    if children != [] {
      var n := |children| - 1;
      var init, last := children[..n], children[n];
      AllFilesIff(dir, init, f);
      FilesAtIff(Under(dir, last.name), last.node, f);
      assert forall k :: 0 <= k < n ==> init[k] == children[k];
    }
  }

  /** The traversal finds a file exactly if a route of child numbers leads to it. */
  lemma {:induction false} FilesAtIff(path: string, node: Node, f: Found)
    ensures f in FilesAt(path, node) <==> Reachable(path, node, f)
    decreases node
  {
    match node {
      case File(size, blocks, content) => FileReaches(path, node, f);
      case Missing =>
      case Dir(readable, children) =>
        if readable {
          AllFilesIff(path, children, f);
          DirReaches(path, children, f);
        }
    }
  }

  lemma FileReaches(path: string, node: Node, f: Found)
    requires node.File?
    ensures Reachable(path, node, f) <==> f == Found(path, node.size, node.blocks, node.content)
  {
    if f == Found(path, node.size, node.blocks, node.content) {
      assert Reaches(path, node, [], f);
    }
  }

  /** What a listed file is: inside the folder, watchable, wanted, with its data present, and read whole. */
  ghost predicate IsListable(folder: Node, o: Options, path: string, bytes: Bytes, blocks: nat) {
    && Reachable("", folder, Found(path, |bytes|, blocks, Some(bytes)))
    && !StartsWith(path, "..") && IsWatchablePath(path) && Wanted(o, path)
    && (bytes == [] || blocks > 0)
  }

  /** The listing, from the tree alone: an entry is listed exactly if a route leads to such a file. */
  lemma ListedIff(folder: Node, o: Options, path: string, bytes: Bytes)
    requires folder.Dir?
    ensures Entry(path, bytes) in Keep(o, FolderFiles(folder)) <==> exists blocks: nat :: IsListable(folder, o, path, bytes, blocks)
  {
    hide Keep, IsWatchablePath, Wanted, Reachable, AllFiles;
    var files := FolderFiles(folder);
    ListedIffKept(o, files, path, bytes);
    forall f ensures f in files <==> Reachable("", folder, f) {
      FilesAtIff("", folder, f);
    }
    if k :| 0 <= k < |files| && Kept(o, files[k]) && files[k].path == path && files[k].content == Some(bytes) {
      assert files[k] == Found(path, |bytes|, files[k].blocks, Some(bytes));
      assert IsListable(folder, o, path, bytes, files[k].blocks);
    }
    if blocks: nat :| IsListable(folder, o, path, bytes, blocks) {
      assert Found(path, |bytes|, blocks, Some(bytes)) in files;
    }
  }

  // ---------------------------------------------------------------------
  // No path is listed twice
  // ---------------------------------------------------------------------

  /** Names as a file system has them: no separator inside, and no two alike in one directory. */
  predicate NamesDistinct(children: seq<Child>)
    decreases children
  {
    && (forall j, k :: 0 <= j < k < |children| ==> children[j].name != children[k].name)
    && forall k :: 0 <= k < |children| ==>
         && IsName(children[k].name) && '/' !in children[k].name
         && (children[k].node.Dir? ==> NamesDistinct(children[k].node.children))
  }

  predicate Within(path: string, top: string) {
    path == top || StartsWith(path, top + "/")
  }

  lemma WithinOneOnly(path: string, dir: string, a: string, b: string)
    requires Within(path, Under(dir, a)) && Within(path, Under(dir, b)) && '/' !in a && '/' !in b
    ensures a == b
  {
    if |a| < |b| {
      ShorterNameDiffers(path, dir, a, b);
    } else if |b| < |a| {
      ShorterNameDiffers(path, dir, b, a);
    } else {
      var d := if dir == "" then "" else dir + "/";
      assert Under(dir, a) == d + a && Under(dir, b) == d + b;
      assert path[|d|..|d| + |a|] == a;
      assert path[|d|..|d| + |b|] == b;
    }
  }

  lemma ShorterNameDiffers(path: string, dir: string, a: string, b: string)
    requires |a| < |b| && '/' !in b && Within(path, Under(dir, a))
    ensures !Within(path, Under(dir, b))
  {
    var d := if dir == "" then "" else dir + "/";
    var top := Under(dir, b);
    assert Under(dir, a) == d + a && top == d + b;
    if |top| <= |path| {
      assert path[|d| + |a|] == '/';
      assert top[|d| + |a|] == b[|a|];
      assert b[|a|] in b;
      assert path[..|top|][|d| + |a|] == '/';
    }
  }

  predicate AllWithin(files: seq<Found>, top: string) {
    forall k :: 0 <= k < |files| ==> Within(files[k].path, top)
  }

  lemma FilesAreWithin(path: string, node: Node)
    requires path != ""
    ensures AllWithin(FilesAt(path, node), path)
  {
    hide AllFiles;
    if node.Dir? && node.readable {
      FilesStartBelow(path, node.children, path + "/");
    }
  }

  ghost predicate UnderSome(path: string, dir: string, children: seq<Child>) {
    exists k :: 0 <= k < |children| && Within(path, Under(dir, children[k].name))
  }

  lemma UnderSnoc(path: string, dir: string, children: seq<Child>)
    requires children != []
    ensures var n := |children| - 1;
            UnderSome(path, dir, children[..n]) || Within(path, Under(dir, children[n].name)) ==> UnderSome(path, dir, children)
  {
    hide Within;
    var n := |children| - 1;
    assert forall k :: 0 <= k < n ==> children[..n][k] == children[k];
  }

  lemma {:induction false} FilesUnderNames(dir: string, children: seq<Child>)
    requires NamesDistinct(children)
    ensures forall i :: 0 <= i < |AllFiles(dir, children)| ==> UnderSome(AllFiles(dir, children)[i].path, dir, children)
    decreases children
  {
    hide Within, FilesAt, UnderSome;
    if children != [] {
      var n := |children| - 1;
      var last := children[n];
      var all, before := AllFiles(dir, children), AllFiles(dir, children[..n]);
      FilesUnderNames(dir, children[..n]);
      FilesAreWithin(Under(dir, last.name), last.node);
      forall i | 0 <= i < |all| ensures UnderSome(all[i].path, dir, children) {
        assert i >= |before| ==> all[i] == FilesAt(Under(dir, last.name), last.node)[i - |before|];
        UnderSnoc(all[i].path, dir, children);
      }
    }
  }

  predicate PathsDiffer(files: seq<Found>) {
    forall i, j :: 0 <= i < j < |files| ==> files[i].path != files[j].path
  }

  lemma NothingMet()
    ensures PathsDiffer([])
  {
  }

  lemma LastIsDistinct(children: seq<Child>)
    requires NamesDistinct(children) && children != []
    ensures var init, last := children[..|children| - 1], children[|children| - 1];
            && NamesDistinct(init) && IsName(last.name) && '/' !in last.name
            && (last.node.Dir? ==> NamesDistinct(last.node.children))
            && forall k :: 0 <= k < |init| ==> init[k].name != last.name
  {
  }

  /** In a tree with a file system's names the traversal meets no path twice. */
  lemma {:induction false} TraversalMeetsOnce(dir: string, children: seq<Child>)
    requires NamesDistinct(children)
    ensures PathsDiffer(AllFiles(dir, children))
    decreases children
  {
    hide Within, FilesAt, NamesDistinct, PathsApart, PathsDiffer, IsName;
    if children == [] {
      NothingMet();
    } else {
      var n := |children| - 1;
      var init, last := children[..n], children[n];
      LastIsDistinct(children);
      TraversalMeetsOnce(dir, init);
      NodeMeetsOnce(Under(dir, last.name), last.node);
      LastMeetsOthers(dir, init, last);
      DifferingParts(AllFiles(dir, init), FilesAt(Under(dir, last.name), last.node));
    }
  }

  lemma {:induction false} NodeMeetsOnce(path: string, node: Node)
    requires node.Dir? ==> NamesDistinct(node.children)
    ensures PathsDiffer(FilesAt(path, node))
    decreases node
  {
    hide AllFiles;
    if node.Dir? {
      TraversalMeetsOnce(path, node.children);
    }
  }

  predicate PathsApart(a: seq<Found>, b: seq<Found>) {
    forall i, j :: 0 <= i < |a| && 0 <= j < |b| ==> a[i].path != b[j].path
  }

  lemma DifferingParts(a: seq<Found>, b: seq<Found>)
    requires PathsDiffer(a) && PathsDiffer(b) && PathsApart(a, b)
    ensures PathsDiffer(a + b)
  {
  }

  lemma LastMeetsOthers(dir: string, init: seq<Child>, last: Child)
    requires NamesDistinct(init) && IsName(last.name) && '/' !in last.name
    requires forall k :: 0 <= k < |init| ==> init[k].name != last.name
    ensures PathsApart(AllFiles(dir, init), FilesAt(Under(dir, last.name), last.node))
  {
    hide Within, AllFiles, FilesAt;
    var a, b := AllFiles(dir, init), FilesAt(Under(dir, last.name), last.node);
    FilesUnderNames(dir, init);
    FilesAreWithin(Under(dir, last.name), last.node);
    forall i, j | 0 <= i < |a| && 0 <= j < |b| ensures a[i].path != b[j].path {
      assert UnderSome(a[i].path, dir, init);
      var k :| 0 <= k < |init| && Within(a[i].path, Under(dir, init[k].name));
      if a[i].path == b[j].path {
        WithinOneOnly(a[i].path, dir, init[k].name, last.name);
      }
    }
  }

  predicate EntriesDiffer(out: seq<Entry>) {
    forall i, j :: 0 <= i < j < |out| ==> out[i].path != out[j].path
  }

  lemma {:induction false} KeepKeepsDiffering(o: Options, files: seq<Found>)
    requires PathsDiffer(files)
    ensures EntriesDiffer(Keep(o, files))
    ensures forall k :: 0 <= k < |Keep(o, files)| ==> exists i :: 0 <= i < |files| && files[i].path == Keep(o, files)[k].path
  {
    hide Kept;
    if files != [] {
      var n := |files| - 1;
      KeepKeepsDiffering(o, files[..n]);
      KeptHasContent(o, files[n]);
      assert forall i :: 0 <= i < n ==> files[..n][i] == files[i];
    }
  }

  /** So the listing names no path twice. */
  lemma ListsOnce(folder: Node, o: Options)
    requires folder.Dir? && NamesDistinct(folder.children)
    ensures EntriesDiffer(Keep(o, FolderFiles(folder)))
  {
    if folder.readable {
      TraversalMeetsOnce("", folder.children);
    }
    KeepKeepsDiffering(o, FolderFiles(folder));
  }

  // ---------------------------------------------------------------------
  // Names that are machinery
  // ---------------------------------------------------------------------

  /** A path with one of these segments is never watchable, wherever the segment stands. */
  lemma MachineryIsExcluded(above: string, name: string, below: string)
    requires name in [".workspace", ".git", ".obsidian", "node_modules", ".DS_Store", "Thumbs.db", "desktop.ini"]
    ensures !IsWatchablePath(above + "/" + name + "/" + below)
    ensures !IsWatchablePath(name + "/" + below) && !IsWatchablePath(above + "/" + name) && !IsWatchablePath(name)
  {
    NameIsPlain(name);
    SplitOfPlain(name);
    assert above + "/" + name == above + ['/'] + name;
    SplitOfConcat(above, name, '/');
    assert name + "/" + below == name + ['/'] + below;
    SplitOfConcat(name, below, '/');
    assert above + "/" + name + "/" + below == (above + "/" + name) + ['/'] + below;
    SplitOfConcat(above + "/" + name, below, '/');
    var a := Split(above, '/');
    assert (a + [name])[|a|] == name;
    assert (a + [name] + Split(below, '/'))[|a|] == name;
    assert ([name] + Split(below, '/'))[0] == name;
    assert [name][0] == name;
  }

  lemma NameIsPlain(name: string)
    requires name in [".workspace", ".git", ".obsidian", "node_modules", ".DS_Store", "Thumbs.db", "desktop.ini"]
    ensures '/' !in name
  {
  }

  /** An example: the watcher reports this path, the listing never does, whatever the options and the file. */
  lemma DotDotNameIsWatchedButNotListed(o: Options, size: nat, blocks: nat, content: Option<Bytes>)
    ensures IsWatchablePath("..a") && !Kept(o, Found("..a", size, blocks, content))
  {
    SplitOfPlain("..a");
    assert "..a"[..2] == "..";
    assert |"..a"| == 3 && "..a"[0] == '.' && "..a"[1] == '.' && "..a"[2] == 'a';
    assert ".~lock."[1] == '~' && ".tmp-"[1] == 't' && "~"[0] == '~';
    assert ".tmp"[0] == '.' && ".swp"[0] == '.' && ".swx"[0] == '.';
  }
}
