/** JarClassLoader's discovery of jar files: a recursive walk over a file
    tree that stores, under each file name, the location of the last file
    of that name met. The file system is a finite tree of nodes; a
    location is the node's path. */
module JarLoader {
  import opened Wrappers

  /** The extension that is looked for. */
  const EXTENSION := ".jar"

  /** A node of the file system as java.io.File sees it. */
  datatype Node =
    | Regular(name: string, path: string)
      /** Neither a regular file nor a directory (a device, a broken link):
          listing it answers null. */
    | Special(name: string, path: string)
    | Directory(name: string, path: string, entries: seq<Node>)
      /** A directory whose listing answers null (unreadable, vanished). */
    | Unlistable(name: string, path: string)

  predicate IsDirectory(n: Node) {
    n.Directory? || n.Unlistable?
  }

  predicate IsFile(n: Node) {
    n.Regular?
  }

  /** ASCII case folding. */
  function Lower(c: char): char {
    if 'A' <= c <= 'Z' then (c as int + 32) as char else c
  }

  /** StringUtils.endsWithIgnoreCase. */
  predicate EndsWithIgnoreCase(s: string, suffix: string) {
    |s| >= |suffix| && forall i :: 0 <= i < |suffix| ==> Lower(s[|s| - |suffix| + i]) == Lower(suffix[i])
  }

  /** The FileFilter: directories, and names ending in ".jar" in any case. */
  function Accept(n: Node): bool {
    if IsDirectory(n) then true else EndsWithIgnoreCase(n.name, EXTENSION)
  }

  /** A name with every ASCII capital turned into its small letter. */
  function Lowered(s: string): (r: string)
    ensures |r| == |s|
    ensures forall i :: 0 <= i < |s| ==> r[i] == Lower(s[i])
  {
    seq(|s|, i requires 0 <= i < |s| => Lower(s[i]))
  }

  /** A file other than a directory passes the filter exactly when its
      name, lowered, ends with ".jar". */
  lemma AcceptIsLoweredSuffix(n: Node)
    requires !IsDirectory(n)
    ensures Accept(n) <==> |n.name| >= |EXTENSION| && Lowered(n.name)[|n.name| - |EXTENSION|..] == EXTENSION
  {
  }

  /** Whatever comes before it, a ".jar" ending in any mix of case is
      accepted. */
  lemma AcceptsAnyCaseOfJar(prefix: string, ext: string, path: string)
    requires Lowered(ext) == EXTENSION
    ensures Accept(Regular(prefix + ext, path))
    ensures Accept(Special(prefix + ext, path))
  {
  }

  /** The entries of `es` the filter accepts, in order. */
  function Filter(es: seq<Node>): (r: seq<Node>)
    ensures forall x :: x in r <==> x in es && Accept(x)
  {
    if es == [] then []
    else Filter(es[..|es| - 1]) + (if Accept(es[|es| - 1]) then [es[|es| - 1]] else [])
  }

  /** listFiles(filter): the accepted entries of a directory, null for
      anything else. */
  function ListFiles(n: Node): (r: Option<seq<Node>>)
    ensures r.Some? <==> n.Directory?
    ensures r.Some? ==> r.value == Filter(n.entries)
  {
    if n.Directory? then Some(Filter(n.entries)) else None
  }

  /** The nodes the walk stores, in the order it stores them. */
  function JarNodes(n: Node): seq<Node>
    decreases n, 1
  {
    match n
    case Regular(_, _) => [n]
    case Special(_, _) => []
    case Unlistable(_, _) => []
    case Directory(_, _, entries) => CollectEntries(n, Filter(entries))
  }

  /** The loop over a directory's listed entries: a subdirectory is walked,
      any other entry stored. */
  function CollectEntries(parent: Node, es: seq<Node>): seq<Node>
    requires parent.Directory? && forall x :: x in es ==> x in parent.entries
    decreases parent, 0, |es|
  {
    if es == [] then []
    else
      var e := es[|es| - 1];
      assert e in parent.entries;
      CollectEntries(parent, es[..|es| - 1]) + (if IsDirectory(e) then JarNodes(e) else [e])
  }

  /** A sequence of HashMap.put calls, in order. */
  function PutAll(store: map<string, string>, nodes: seq<Node>): map<string, string>
  {
    if nodes == [] then store
    else PutAll(store, nodes[..|nodes| - 1])[nodes[|nodes| - 1].name := nodes[|nodes| - 1].path]
  }

  /** Storing two runs of nodes is storing the first, then the second. */
  lemma {:induction false} PutAllAppend(store: map<string, string>, a: seq<Node>, b: seq<Node>)
    ensures PutAll(store, a + b) == PutAll(PutAll(store, a), b)
    decreases |b|
  {
    if b == [] {
      assert a + b == a;
    } else {
      assert (a + b)[..|a + b| - 1] == a + b[..|b| - 1];
      assert (a + b)[|a + b| - 1] == b[|b| - 1];
      PutAllAppend(store, a, b[..|b| - 1]);
    }
  }

  /** The keys after storing are the old keys and the stored names. */
  lemma {:induction false} PutAllKeys(store: map<string, string>, nodes: seq<Node>)
    ensures PutAll(store, nodes).Keys == store.Keys + set x | x in nodes :: x.name
    decreases |nodes|
  {
    if nodes != [] {
      var init := nodes[..|nodes| - 1];
      assert nodes == init + [nodes[|nodes| - 1]];
      PutAllKeys(store, init);
    }
  }

  /** One location per file name, and it is the one of the last node of
      that name. */
  lemma {:induction false} PutAllLastWins(store: map<string, string>, nodes: seq<Node>, i: nat)
    requires i < |nodes|
    requires forall j :: i < j < |nodes| ==> nodes[j].name != nodes[i].name
    ensures nodes[i].name in PutAll(store, nodes)
    ensures PutAll(store, nodes)[nodes[i].name] == nodes[i].path
    decreases |nodes|
  {
    if i < |nodes| - 1 {
      PutAllLastWins(store, nodes[..|nodes| - 1], i);
    }
  }

  /** A name no stored node carries keeps its old location. */
  lemma {:induction false} PutAllKeepsOthers(store: map<string, string>, nodes: seq<Node>, k: string)
    requires forall j :: 0 <= j < |nodes| ==> nodes[j].name != k
    ensures k in PutAll(store, nodes) <==> k in store
    ensures k in store ==> PutAll(store, nodes)[k] == store[k]
    decreases |nodes|
  {
    if nodes != [] {
      PutAllKeepsOthers(store, nodes[..|nodes| - 1], k);
    }
  }

  /** What a directory's loop collects, entry by entry. */
  lemma {:induction false} CollectEntriesMembers(parent: Node, es: seq<Node>, x: Node)
    requires parent.Directory? && forall y :: y in es ==> y in parent.entries
    ensures x in CollectEntries(parent, es) <==>
      (x in es && !IsDirectory(x)) || exists d :: d in es && IsDirectory(d) && x in JarNodes(d)
    decreases |es|
  {
    if es != [] {
      var init := es[..|es| - 1];
      var e := es[|es| - 1];
      assert es == init + [e];
      CollectEntriesMembers(parent, init, x);
      if x in JarNodes(e) && IsDirectory(e) {
        assert e in es;
      }
      if exists d :: d in es && IsDirectory(d) && x in JarNodes(d) {
        var d :| d in es && IsDirectory(d) && x in JarNodes(d);
        if d != e {
          assert d in init;
        }
      }
    }
  }

  /** Everything the walk stores is a non-directory; below a directory it
      is also named like a jar. */
  lemma {:induction false} JarNodesAreJars(n: Node)
    ensures forall x :: x in JarNodes(n) ==> !IsDirectory(x)
    ensures !n.Regular? ==> forall x :: x in JarNodes(n) ==> EndsWithIgnoreCase(x.name, EXTENSION)
    decreases n
  {
    if n.Directory? {
      var listed := Filter(n.entries);
      forall x | x in JarNodes(n)
        ensures !IsDirectory(x) && EndsWithIgnoreCase(x.name, EXTENSION)
      {
        CollectEntriesMembers(n, listed, x);
        if !(x in listed && !IsDirectory(x)) {
          var d :| d in listed && IsDirectory(d) && x in JarNodes(d);
          JarNodesAreJars(d);
        }
      }
    }
  }

  /** Below a directory, a node is stored exactly when it is a jar-named
      non-directory entry of it, or is stored by the walk of one of its
      subdirectories. */
  lemma DirectoryCollects(n: Node, x: Node)
    requires n.Directory?
    ensures x in JarNodes(n) <==>
      (x in n.entries && !IsDirectory(x) && EndsWithIgnoreCase(x.name, EXTENSION))
      || exists d :: d in n.entries && IsDirectory(d) && x in JarNodes(d)
  {
    var listed := Filter(n.entries);
    CollectEntriesMembers(n, listed, x);
    if exists d :: d in n.entries && IsDirectory(d) && x in JarNodes(d) {
      var d :| d in n.entries && IsDirectory(d) && x in JarNodes(d);
      assert d in listed;
    }
  }

  /** The HashMap the walk fills in place. */
  class LocationStore {
    var contents: map<string, string>

    constructor ()
      ensures contents == map[]
    {
      contents := map[];
    }

    method Put(key: string, value: string)
      modifies this
      ensures contents == old(contents)[key := value]
    {
      contents := contents[key := value];
    }
  }

  /** getJarLocations(path, result): a file is stored whatever its name; a
      node that cannot be listed adds nothing and raises nothing; a
      directory's accepted entries are walked or stored in listing order. */
  method GetJarLocationsInto(path: Node, result: LocationStore)
    modifies result
    ensures result.contents == PutAll(old(result.contents), JarNodes(path))
    decreases path
  {
    if IsFile(path) {
      result.Put(path.name, path.path);
      return;
    }
    var listFiles := ListFiles(path);
    if listFiles.None? {
      return;
    }
    var files := listFiles.value;
    ghost var start := result.contents;
    for i := 0 to |files|
      invariant result.contents == PutAll(start, CollectEntries(path, files[..i]))
    {
      var file := files[i];
      assert file in path.entries;
      assert files[..i + 1][..i] == files[..i];
      ghost var before := result.contents;
      if IsDirectory(file) {
        GetJarLocationsInto(file, result);
        PutAllAppend(start, CollectEntries(path, files[..i]), JarNodes(file));
      } else {
        result.Put(file.name, file.path);
        PutAllAppend(start, CollectEntries(path, files[..i]), [file]);
      }
    }
    assert files[..|files|] == files;
  }

  /** getJarLocations(path): the locations stored by a walk from an empty map. */
  method GetJarLocations(path: Node) returns (locations: set<string>)
    ensures locations == PutAll(map[], JarNodes(path)).Values
  {
    var store := new LocationStore();
    GetJarLocationsInto(path, store);
    locations := store.contents.Values;
  }

  /** A regular file given as the root is its own single location,
      whatever its extension. */
  lemma RootFileIsKept(name: string, path: string)
    ensures PutAll(map[], JarNodes(Regular(name, path))) == map[name := path]
  {
    assert JarNodes(Regular(name, path)) == [Regular(name, path)];
  }

  /** A root that cannot be listed yields no location. */
  lemma UnlistableRootYieldsNothing(n: Node)
    requires !n.Regular? && !n.Directory?
    ensures PutAll(map[], JarNodes(n)) == map[]
  {
  }
}
