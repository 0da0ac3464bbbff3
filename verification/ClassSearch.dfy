/** Which file a class is loaded from, said in directories and paths: the longest prefix that has the
    file wins, and among its directories the first one; and what a registration changes in that. */
module ClassSearch {
  import opened Wrappers
  import opened ClassLoader

  /** The file of a class below a directory registered for its first k characters. */
  function Path(dir: string, c: string, k: nat): string
    requires k <= |c|
  {
    dir + ("/" + Translated(c[k..]) + ".php")
  }

  lemma PathIs(dir: string, c: string, k: nat)
    requires k <= |c|
    ensures Path(dir, c, k) == dir + Tail(c, k)
  {
    assert (Translated(c) + EXTENSION)[k..] == Translated(c)[k..] + EXTENSION;
    assert Translated(c)[k..] == Translated(c[k..]);
    assert "/" + (Translated(c[k..]) + EXTENSION) == "/" + Translated(c[k..]) + EXTENSION;
  }

  /** Directory i of the prefix of length k holds the file of the class. */
  ghost predicate Holds(reg: Registry, files: set<string>, c: string, k: nat, i: nat) {
    0 < k <= |c| && c[..k] in reg.dirs && i < |reg.dirs[c[..k]]| && Path(reg.dirs[c[..k]][i], c, k) in files
  }

  /** Directory i of the root namespace holds it. */
  ghost predicate RootHolds(reg: Registry, files: set<string>, c: string, i: nat) {
    i < |reg.fallback| && Path(reg.fallback[i], c, 0) in files
  }

  /** A longer prefix comes before a shorter one, and an earlier directory before a later one. */
  predicate Before(k: nat, i: nat, k': nat, i': nat) {
    k' < k || (k' == k && i <= i')
  }

  lemma FirstHolds(reg: Registry, files: set<string>, c: string, k: nat, i: nat)
    requires Holds(reg, files, c, k, i) && forall j | 0 <= j < i :: !Holds(reg, files, c, k, j)
    ensures AtPrefix(reg, files, c, k) == Some(Path(reg.dirs[c[..k]][i], c, k))
  {
    var dirs := reg.dirs[c[..k]];
    forall j | 0 <= j <= i ensures Path(dirs[j], c, k) == dirs[j] + Tail(c, k) { PathIs(dirs[j], c, k); }
    hide Path, Tail;
    FirstInMeaning(dirs, Tail(c, k), files);
    forall j | 0 <= j < i ensures dirs[j] + Tail(c, k) !in files { assert !Holds(reg, files, c, k, j); }
  }

  lemma NoneHolds(reg: Registry, files: set<string>, c: string, k: nat)
    requires 0 < k <= |c| && forall j: nat :: !Holds(reg, files, c, k, j)
    ensures AtPrefix(reg, files, c, k) == None
  {
    if c[..k] in reg.dirs {
      var dirs := reg.dirs[c[..k]];
      FirstInMeaning(dirs, Tail(c, k), files);
      forall d | d in dirs ensures d + Tail(c, k) !in files {
        var j: nat :| j < |dirs| && dirs[j] == d;
        PathIs(d, c, k);
        assert !Holds(reg, files, c, k, j);
      }
    }
  }

  /** A class is loaded from the first directory, of the longest prefix, that holds its file. */
  lemma FoundByPrefix(reg: Registry, disk: Disk, c: string, k: nat, i: nat)
    requires Holds(reg, disk.files, c, k, i)
    requires forall k': nat, i': nat | Holds(reg, disk.files, c, k', i') :: Before(k, i, k', i')
    ensures Search(reg, disk, c) == Some(Path(reg.dirs[c[..k]][i], c, k))
  {
    forall j | 0 <= j < i ensures !Holds(reg, disk.files, c, k, j) { assert !Before(k, i, k, j); }
    FirstHolds(reg, disk.files, c, k, i);
    hide Path;
    forall k': nat | k < k' <= |c| ensures AtPrefix(reg, disk.files, c, k') == None {
      forall j: nat ensures !Holds(reg, disk.files, c, k', j) { assert !Before(k, i, k', j); }
      NoneHolds(reg, disk.files, c, k');
    }
    hide AtPrefix, Holds;
    LongestMeaning(reg, disk.files, c, |c|);
  }

  lemma NoPrefixHolds(reg: Registry, files: set<string>, c: string)
    requires forall k: nat, j: nat :: !Holds(reg, files, c, k, j)
    ensures Longest(reg, files, c, |c|) == None
  {
    forall k: nat | 0 < k <= |c| ensures AtPrefix(reg, files, c, k) == None {
      NoneHolds(reg, files, c, k);
    }
    hide AtPrefix, Holds;
    LongestMeaning(reg, files, c, |c|);
  }

  /** If no prefix has it, it is loaded from the first root directory that holds its file. */
  lemma FoundByRoot(reg: Registry, disk: Disk, c: string, i: nat)
    requires forall k: nat, j: nat :: !Holds(reg, disk.files, c, k, j)
    requires RootHolds(reg, disk.files, c, i) && forall j | 0 <= j < i :: !RootHolds(reg, disk.files, c, j)
    ensures Search(reg, disk, c) == Some(Path(reg.fallback[i], c, 0))
  {
    NoPrefixHolds(reg, disk.files, c);
    var dirs := reg.fallback;
    forall j | 0 <= j <= i ensures Path(dirs[j], c, 0) == dirs[j] + Tail(c, 0) { PathIs(dirs[j], c, 0); }
    hide Path, Tail, Longest;
    FirstInMeaning(dirs, Tail(c, 0), disk.files);
    forall j | 0 <= j < i ensures dirs[j] + Tail(c, 0) !in disk.files { assert !RootHolds(reg, disk.files, c, j); }
  }

  /** If nothing holds it, the PSR-0 rules decide. */
  lemma FoundByNone(reg: Registry, disk: Disk, c: string)
    requires forall k: nat, j: nat :: !Holds(reg, disk.files, c, k, j)
    requires forall j: nat :: !RootHolds(reg, disk.files, c, j)
    ensures Search(reg, disk, c) == if c in disk.psr0 then Some(disk.psr0[c]) else None
  {
    NoPrefixHolds(reg, disk.files, c);
    var dirs := reg.fallback;
    FirstInMeaning(dirs, Tail(c, 0), disk.files);
    forall d | d in dirs ensures d + Tail(c, 0) !in disk.files {
      var j: nat :| j < |dirs| && dirs[j] == d;
      PathIs(d, c, 0);
      assert !RootHolds(reg, disk.files, c, j);
    }
  }

  // ----- what a registration changes -----

  /** A prefix is accepted exactly when it is empty, "0", or ends in a separator. */
  lemma RegistersExactly(reg: Registry, prefix: string, paths: seq<string>, prepend: bool)
    ensures Added(reg, prefix, paths, prepend).Ok? <==> prefix == "" || prefix == "0" || prefix[|prefix| - 1] == '\\'
    ensures Replaced(reg, prefix, paths).Ok? <==> prefix == "" || prefix == "0" || prefix[|prefix| - 1] == '\\'
  {}

  /** The directories of the prefix after an addPsr4. */
  lemma DirsAfter(reg: Registry, prefix: string, paths: seq<string>, prepend: bool)
    requires prefix != "" && prefix[|prefix| - 1] == '\\'
    ensures var after := Added(reg, prefix, paths, prepend);
            && after.Ok? && after.value.fallback == reg.fallback && prefix in after.value.dirs
            && (forall p | p != prefix :: p in after.value.dirs <==> p in reg.dirs)
            && (forall p | p != prefix && p in reg.dirs :: after.value.dirs[p] == reg.dirs[p])
            && var was := if prefix in reg.dirs then reg.dirs[prefix] else [];
            after.value.dirs[prefix] == if prepend then paths + was else was + paths
  {}

  /** A directory of this list, the first one to, holds the file. */
  ghost predicate FirstOf(dirs: seq<string>, files: set<string>, c: string, k: nat, i: nat)
    requires k <= |c|
  {
    i < |dirs| && Path(dirs[i], c, k) in files && forall j | 0 <= j < i :: Path(dirs[j], c, k) !in files
  }

  lemma FirstOfJoined(a: seq<string>, b: seq<string>, files: set<string>, c: string, k: nat, i: nat)
    requires k <= |c|
    ensures FirstOf(a, files, c, k, i) ==> FirstOf(a + b, files, c, k, i)
    ensures (forall j | 0 <= j < |a| :: Path(a[j], c, k) !in files) && FirstOf(b, files, c, k, i) ==>
              FirstOf(a + b, files, c, k, |a| + i)
  {
    hide Path;
    var s := a + b;
    assert forall j | 0 <= j < |b| :: s[|a| + j] == b[j];
  }

  lemma FirstOfWins(reg: Registry, disk: Disk, c: string, prefix: string, i: nat)
    requires prefix != "" && |prefix| <= |c| && c[..|prefix|] == prefix && prefix in reg.dirs
    requires FirstOf(reg.dirs[prefix], disk.files, c, |prefix|, i)
    requires forall k: nat, j: nat | Holds(reg, disk.files, c, k, j) :: k <= |prefix|
    ensures Search(reg, disk, c) == Some(Path(reg.dirs[prefix][i], c, |prefix|))
  {
    FoundByPrefix(reg, disk, c, |prefix|, i);
  }

  /** Of the classes of a namespace that no longer prefix has: directories that are prepended go before
      the ones already there, appended ones after them. */
  lemma AddedOrder(reg: Registry, prefix: string, paths: seq<string>, prepend: bool, disk: Disk, c: string, i: nat)
    requires prefix != "" && prefix[|prefix| - 1] == '\\' && |prefix| <= |c| && c[..|prefix|] == prefix
    requires forall k: nat, j: nat | Holds(reg, disk.files, c, k, j) :: k <= |prefix|
    ensures Added(reg, prefix, paths, prepend).Ok?
    ensures var was := if prefix in reg.dirs then reg.dirs[prefix] else [];
            var found := Search(Added(reg, prefix, paths, prepend).value, disk, c);
            && (FirstOf(paths, disk.files, c, |prefix|, i)
                && (prepend || forall j | 0 <= j < |was| :: Path(was[j], c, |prefix|) !in disk.files) ==>
                  found == Some(Path(paths[i], c, |prefix|)))
            && (FirstOf(was, disk.files, c, |prefix|, i)
                && (!prepend || forall j | 0 <= j < |paths| :: Path(paths[j], c, |prefix|) !in disk.files) ==>
                  found == Some(Path(was[i], c, |prefix|)))
  {
    DirsAfter(reg, prefix, paths, prepend);
    var was := if prefix in reg.dirs then reg.dirs[prefix] else [];
    var reg' := Added(reg, prefix, paths, prepend).value;
    FirstOfJoined(paths, was, disk.files, c, |prefix|, i);
    FirstOfJoined(was, paths, disk.files, c, |prefix|, i);
    hide Added, FirstOf, Search, Path;
    forall k: nat, j: nat | Holds(reg', disk.files, c, k, j) ensures k <= |prefix| {
      if c[..k] == prefix { assert k == |prefix|; } else { assert Holds(reg, disk.files, c, k, j); }
    }
    hide Holds;
    var dirs := reg'.dirs[prefix];
    if FirstOf(dirs, disk.files, c, |prefix|, i) { FirstOfWins(reg', disk, c, prefix, i); }
    var n := if prepend then |paths| + i else |was| + i;
    if FirstOf(dirs, disk.files, c, |prefix|, n) { FirstOfWins(reg', disk, c, prefix, n); }
    FirstIsIn(was, disk.files, c, |prefix|, i);
    FirstIsIn(paths, disk.files, c, |prefix|, i);
  }

  lemma FirstIsIn(dirs: seq<string>, files: set<string>, c: string, k: nat, i: nat)
    requires k <= |c|
    ensures FirstOf(dirs, files, c, k, i) ==> i < |dirs|
  {}

  /** setPsr4 leaves the new directories only. */
  lemma ReplacedOrder(reg: Registry, prefix: string, paths: seq<string>, disk: Disk, c: string, i: nat)
    requires prefix != "" && prefix[|prefix| - 1] == '\\' && |prefix| <= |c| && c[..|prefix|] == prefix
    requires forall k: nat, j: nat | Holds(reg, disk.files, c, k, j) :: k <= |prefix|
    requires FirstOf(paths, disk.files, c, |prefix|, i)
    ensures Replaced(reg, prefix, paths).Ok?
    ensures Search(Replaced(reg, prefix, paths).value, disk, c) == Some(Path(paths[i], c, |prefix|))
  {
    var reg' := Replaced(reg, prefix, paths).value;
    hide FirstOf, Search, Path;
    forall k: nat, j: nat | Holds(reg', disk.files, c, k, j) ensures k <= |prefix| {
      if c[..k] == prefix { assert k == |prefix|; } else { assert Holds(reg, disk.files, c, k, j); }
    }
    FirstOfWins(reg', disk, c, prefix, i);
  }

  /** The same for the root namespace, for classes that no prefix has. */
  lemma RootOrder(reg: Registry, prefix: string, paths: seq<string>, prepend: bool, disk: Disk, c: string, i: nat)
    requires prefix == "" || prefix == "0"
    requires forall k: nat, j: nat :: !Holds(reg, disk.files, c, k, j)
    ensures Added(reg, prefix, paths, prepend).Ok?
    ensures var found := Search(Added(reg, prefix, paths, prepend).value, disk, c);
            && (FirstOf(paths, disk.files, c, 0, i)
                && (prepend || forall j | 0 <= j < |reg.fallback| :: Path(reg.fallback[j], c, 0) !in disk.files) ==>
                  found == Some(Path(paths[i], c, 0)))
            && (FirstOf(reg.fallback, disk.files, c, 0, i)
                && (!prepend || forall j | 0 <= j < |paths| :: Path(paths[j], c, 0) !in disk.files) ==>
                  found == Some(Path(reg.fallback[i], c, 0)))
  {
    var was, reg' := reg.fallback, Added(reg, prefix, paths, prepend).value;
    assert reg'.dirs == reg.dirs && reg'.fallback == if prepend then paths + was else was + paths;
    FirstOfJoined(paths, was, disk.files, c, 0, i);
    FirstOfJoined(was, paths, disk.files, c, 0, i);
    hide Added, Search, Path, FirstOf;
    forall k: nat, j: nat ensures !Holds(reg', disk.files, c, k, j) { assert !Holds(reg, disk.files, c, k, j); }
    hide Holds;
    RootWins(reg', disk, c, i);
    RootWins(reg', disk, c, if prepend then |paths| + i else |was| + i);
    FirstIsIn(was, disk.files, c, 0, i);
    FirstIsIn(paths, disk.files, c, 0, i);
  }

  lemma RootWins(reg: Registry, disk: Disk, c: string, i: nat)
    requires forall k: nat, j: nat :: !Holds(reg, disk.files, c, k, j)
    ensures FirstOf(reg.fallback, disk.files, c, 0, i) ==>
              i < |reg.fallback| && Search(reg, disk, c) == Some(Path(reg.fallback[i], c, 0))
  {
    if FirstOf(reg.fallback, disk.files, c, 0, i) { FoundByRoot(reg, disk, c, i); }
  }
}
