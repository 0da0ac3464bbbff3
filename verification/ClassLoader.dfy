/** The Composer class loader: PSR-4 registration, the lookup that shrinks the class name
    behind a first-letter index, and the cache of classes known to be missing. */
module ClassLoader {
  import opened Wrappers

  const EXTENSION := ".php"

  /** What is registered: directories per namespace prefix, and those of the root namespace. */
  datatype Registry = Registry(dirs: map<string, seq<string>>, fallback: seq<string>)

  /** The file system, and what the PSR-0 rules would find. */
  datatype Disk = Disk(files: set<string>, psr0: map<string, string>)

  datatype Error = MissingSeparator

  // ----- the reference search -----

  /** The path of a class below a base directory: separators become slashes. */
  function Translated(s: string): (t: string)
    ensures |t| == |s| && forall i | 0 <= i < |s| :: t[i] == if s[i] == '\\' then '/' else s[i]
  {
    if s == "" then "" else [if s[0] == '\\' then '/' else s[0]] + Translated(s[1..])
  }

  function LogicalPath(c: string): (p: string)
    ensures |p| >= |c|
  {
    Translated(c) + EXTENSION
  }

  /** The first directory that holds the file. */
  function FirstIn(dirs: seq<string>, tail: string, files: set<string>): Option<string> {
    if dirs == [] then None
    else if dirs[0] + tail in files then Some(dirs[0] + tail)
    else FirstIn(dirs[1..], tail, files)
  }

  /** What follows the first k characters of the class, as a path. */
  function Tail(c: string, k: nat): string
    requires k <= |c|
  {
    "/" + LogicalPath(c)[k..]
  }

  /** What the prefix of length k contributes. */
  function AtPrefix(reg: Registry, files: set<string>, c: string, k: nat): Option<string>
    requires k <= |c|
  {
    if c[..k] in reg.dirs then FirstIn(reg.dirs[c[..k]], Tail(c, k), files) else None
  }

  /** Tries every registered prefix of the class of length at most k, the longest first. */
  function Longest(reg: Registry, files: set<string>, c: string, k: nat): Option<string>
    requires k <= |c|
  {
    if k == 0 then None
    else
      var r := AtPrefix(reg, files, c, k);
      if r.Some? then r else Longest(reg, files, c, k - 1)
  }

  /** Prefixes, then the root namespace, then PSR-0. */
  function Search(reg: Registry, disk: Disk, c: string): Option<string> {
    var byPrefix := Longest(reg, disk.files, c, |c|);
    if byPrefix.Some? then byPrefix
    else
      var byRoot := FirstIn(reg.fallback, Tail(c, 0), disk.files);
      if byRoot.Some? then byRoot
      else if c in disk.psr0 then Some(disk.psr0[c])
      else None
  }

  lemma {:induction false} FirstInMeaning(dirs: seq<string>, tail: string, files: set<string>)
    ensures FirstIn(dirs, tail, files).Some? <==> exists d :: d in dirs && d + tail in files
    ensures forall i | 0 <= i < |dirs| && dirs[i] + tail in files
            && (forall j | 0 <= j < i :: dirs[j] + tail !in files) ::
              FirstIn(dirs, tail, files) == Some(dirs[i] + tail)
  {
    if dirs != [] {
      FirstInMeaning(dirs[1..], tail, files);
      var rest := dirs[1..];
      forall i | 0 <= i < |dirs| && dirs[i] + tail in files && (forall j | 0 <= j < i :: dirs[j] + tail !in files)
        ensures FirstIn(dirs, tail, files) == Some(dirs[i] + tail)
      {
        if i > 0 {
          assert dirs[0] + tail !in files && rest[i - 1] == dirs[i];
          assert forall j | 0 <= j < i - 1 :: rest[j] == dirs[j + 1];
        }
      }
      assert forall d :: d in dirs <==> d == dirs[0] || d in rest;
    }
  }

  /** The search by prefix gives what the longest prefix that has the file gives. */
  lemma {:induction false} LongestMeaning(reg: Registry, files: set<string>, c: string, k: nat)
    requires k <= |c|
    ensures Longest(reg, files, c, k) == None <==> forall j | 0 < j <= k :: AtPrefix(reg, files, c, j) == None
    ensures forall j | 0 < j <= k && AtPrefix(reg, files, c, j).Some?
              && (forall i | j < i <= k :: AtPrefix(reg, files, c, i) == None) ::
              Longest(reg, files, c, k) == AtPrefix(reg, files, c, j)
  {
    if k > 0 { LongestMeaning(reg, files, c, k - 1); }
  }

  // ----- registration -----

  /** PHP takes the empty string and "0" for false. */
  predicate IsRoot(prefix: string) { prefix == "" || prefix == "0" }

  predicate EndsWithSeparator(prefix: string) { prefix != "" && prefix[|prefix| - 1] == '\\' }

  function Joined(before: seq<string>, paths: seq<string>, prepend: bool): seq<string> {
    if prepend then paths + before else before + paths
  }

  function DirsOf(reg: Registry, prefix: string): seq<string> {
    if prefix in reg.dirs then reg.dirs[prefix] else []
  }

  /** Registering more directories for a namespace. */
  function Added(reg: Registry, prefix: string, paths: seq<string>, prepend: bool): Result<Registry, Error> {
    if IsRoot(prefix) then Ok(reg.(fallback := Joined(reg.fallback, paths, prepend)))
    else if !EndsWithSeparator(prefix) then Err(MissingSeparator)
    else Ok(reg.(dirs := reg.dirs[prefix := Joined(DirsOf(reg, prefix), paths, prepend)]))
  }

  /** Registering directories in place of the earlier ones. */
  function Replaced(reg: Registry, prefix: string, paths: seq<string>): Result<Registry, Error> {
    if IsRoot(prefix) then Ok(reg.(fallback := paths))
    else if !EndsWithSeparator(prefix) then Err(MissingSeparator)
    else Ok(reg.(dirs := reg.dirs[prefix := paths]))
  }

  // ----- why the shrinking walk and the index are enough -----

  /** Every registered prefix ends in a separator. */
  ghost predicate Separated(reg: Registry) {
    forall p | p in reg.dirs :: EndsWithSeparator(p)
  }

  /** Between two separators there is nothing to find. */
  lemma {:induction false} NoPrefixBetween(reg: Registry, files: set<string>, c: string, lo: nat, hi: nat)
    requires Separated(reg) && lo <= hi <= |c| && forall i | lo <= i < hi :: c[i] != '\\'
    ensures Longest(reg, files, c, hi) == Longest(reg, files, c, lo)
    decreases hi
  {
    if lo < hi {
      assert c[..hi][hi - 1] == c[hi - 1];
      NoPrefixBetween(reg, files, c, lo, hi - 1);
    }
  }

  /** Prefixes with another first letter are no prefixes of the class. */
  lemma {:induction false} OtherLetters(reg: Registry, files: set<string>, c: string, k: nat)
    requires 0 < |c| && k <= |c| && forall p | p in reg.dirs :: p != "" && p[0] != c[0]
    ensures Longest(reg, files, c, k) == None
  {
    if k > 0 {
      assert c[..k][0] == c[0];
      OtherLetters(reg, files, c, k - 1);
    }
  }

  /** PHP's strrpos for the separator, with -1 for "not found". */
  method LastSeparator(s: string) returns (pos: int)
    ensures -1 <= pos < |s|
    ensures pos >= 0 ==> s[pos] == '\\'
    ensures forall i | pos < i < |s| :: s[i] != '\\'
  {
    pos := |s| - 1;
    while pos >= 0 && s[pos] != '\\'
      invariant -1 <= pos < |s|
      invariant forall i | pos < i < |s| :: s[i] != '\\'
    {
      pos := pos - 1;
    }
  }

  method TryDirs(dirs: seq<string>, tail: string, files: set<string>) returns (r: Option<string>)
    ensures r == FirstIn(dirs, tail, files)
  {
    var i := 0;
    while i < |dirs|
      invariant 0 <= i <= |dirs|
      invariant FirstIn(dirs, tail, files) == FirstIn(dirs[i..], tail, files)
    {
      if dirs[i] + tail in files { return Some(dirs[i] + tail); }
      assert dirs[i..][1..] == dirs[i + 1..];
      i := i + 1;
    }
    return None;
  }

  // ----- the cache of missing classes -----

  /** Every class remembered as missing is one the search does not find. */
  ghost predicate Sound(reg: Registry, disk: Disk, missing: set<string>) {
    forall c | c in missing :: Search(reg, disk, c) == None
  }

  /** A registration brings the file of this class within reach. */
  predicate Reaches(prefix: string, paths: seq<string>, disk: Disk, c: string) {
    if IsRoot(prefix) then FirstIn(paths, Tail(c, 0), disk.files).Some?
    else |prefix| <= |c| && c[..|prefix|] == prefix && FirstIn(paths, Tail(c, |prefix|), disk.files).Some?
  }

  lemma {:induction false} FirstInJoined(a: seq<string>, b: seq<string>, tail: string, files: set<string>)
    ensures FirstIn(a + b, tail, files) == None <==> FirstIn(a, tail, files) == None && FirstIn(b, tail, files) == None
  {
    if a == [] {
      assert a + b == b;
    } else {
      assert (a + b)[1..] == a[1..] + b;
      FirstInJoined(a[1..], b, tail, files);
    }
  }

  /** Searching after one prefix got other directories, when the search found nothing before. */
  lemma {:induction false} LongestUpdated(reg: Registry, prefix: string, dirs: seq<string>, files: set<string>,
      c: string, k: nat)
    requires prefix != "" && k <= |c| && Longest(reg, files, c, k) == None
    ensures var reg' := reg.(dirs := reg.dirs[prefix := dirs]);
            Longest(reg', files, c, k) == None
            <==> !(|prefix| <= k && c[..|prefix|] == prefix && FirstIn(dirs, Tail(c, |prefix|), files).Some?)
  {
    if k > 0 {
      hide FirstIn, Tail;
      LongestUpdated(reg, prefix, dirs, files, c, k - 1);
      if c[..k] == prefix { assert |prefix| == k; }
    }
  }

  /** A class not found before an addPsr4 is found after it exactly when the new directories reach it. */
  lemma AddedFinds(reg: Registry, prefix: string, paths: seq<string>, prepend: bool, disk: Disk, c: string)
    requires Search(reg, disk, c) == None && Added(reg, prefix, paths, prepend).Ok?
    ensures Search(Added(reg, prefix, paths, prepend).value, disk, c).Some? <==> Reaches(prefix, paths, disk, c)
  {
    hide Tail, FirstIn;
    var reg' := Added(reg, prefix, paths, prepend).value;
    if IsRoot(prefix) {
      FirstInJoined(paths, reg.fallback, Tail(c, 0), disk.files);
      FirstInJoined(reg.fallback, paths, Tail(c, 0), disk.files);
      SameDirs(reg, reg', disk.files, c, |c|);
    } else {
      LongestUpdated(reg, prefix, Joined(DirsOf(reg, prefix), paths, prepend), disk.files, c, |c|);
      if |prefix| <= |c| && c[..|prefix|] == prefix {
        FirstInJoined(paths, DirsOf(reg, prefix), Tail(c, |prefix|), disk.files);
        FirstInJoined(DirsOf(reg, prefix), paths, Tail(c, |prefix|), disk.files);
        LongestMeaning(reg, disk.files, c, |c|);
        assert AtPrefix(reg, disk.files, c, |prefix|) == None;
        NoDirs(Tail(c, |prefix|), disk.files);
      }
    }
  }

  lemma NoDirs(tail: string, files: set<string>)
    ensures FirstIn([], tail, files) == None
  {}

  lemma {:induction false} SameDirs(reg: Registry, reg': Registry, files: set<string>, c: string, k: nat)
    requires k <= |c| && reg.dirs == reg'.dirs
    ensures Longest(reg, files, c, k) == Longest(reg', files, c, k)
  {
    if k > 0 { SameDirs(reg, reg', files, c, k - 1); }
  }

  /** The same for setPsr4. */
  lemma ReplacedFinds(reg: Registry, prefix: string, paths: seq<string>, disk: Disk, c: string)
    requires Search(reg, disk, c) == None && Replaced(reg, prefix, paths).Ok?
    ensures Search(Replaced(reg, prefix, paths).value, disk, c).Some? <==> Reaches(prefix, paths, disk, c)
  {
    hide Tail, FirstIn;
    if IsRoot(prefix) {
      SameDirs(reg, Replaced(reg, prefix, paths).value, disk.files, c, |c|);
    } else {
      LongestUpdated(reg, prefix, paths, disk.files, c, |c|);
    }
  }

  /** A registration keeps the cache right exactly when it reaches no class remembered as missing. */
  lemma RegistrationKeepsCache(reg: Registry, prefix: string, paths: seq<string>, prepend: bool, disk: Disk,
                               missing: set<string>)
    requires Sound(reg, disk, missing) && (IsRoot(prefix) || EndsWithSeparator(prefix))
    ensures Sound(Added(reg, prefix, paths, prepend).value, disk, missing)
            <==> forall c | c in missing :: !Reaches(prefix, paths, disk, c)
    ensures Sound(Replaced(reg, prefix, paths).value, disk, missing)
            <==> forall c | c in missing :: !Reaches(prefix, paths, disk, c)
  {
    hide Search, Reaches;
    forall c | c in missing
      ensures Search(Added(reg, prefix, paths, prepend).value, disk, c) == None <==> !Reaches(prefix, paths, disk, c)
      ensures Search(Replaced(reg, prefix, paths).value, disk, c) == None <==> !Reaches(prefix, paths, disk, c)
    {
      AddedFinds(reg, prefix, paths, prepend, disk, c);
      ReplacedFinds(reg, prefix, paths, disk, c);
    }
  }

  // ----- whole runs of a loader -----

  datatype Call =
    | Add(prefix: string, paths: seq<string>, prepend: bool)
    | Set(prefix: string, paths: seq<string>)
    | Find(c: string)

  /** A registration that is refused changes nothing. */
  function Registered(reg: Registry, call: Call): Registry {
    match call
    case Add(prefix, paths, prepend) =>
      var r := Added(reg, prefix, paths, prepend);
      if r.Ok? then r.value else reg
    case Set(prefix, paths) =>
      var r := Replaced(reg, prefix, paths);
      if r.Ok? then r.value else reg
    case Find(_) => reg
  }

  /** The answer of a loader with the cache and no class map. */
  function Answer(reg: Registry, disk: Disk, missing: set<string>, c: string): Option<string> {
    if c in missing then None else Search(reg, disk, c)
  }

  function Remembered(reg: Registry, disk: Disk, missing: set<string>, call: Call): set<string> {
    if call.Find? && Answer(reg, disk, missing, call.c) == None then missing + {call.c} else missing
  }

  /** The call does not bring a class remembered as missing within reach. */
  ghost predicate Harmless(call: Call, disk: Disk, missing: set<string>) {
    call.Find? || !(IsRoot(call.prefix) || EndsWithSeparator(call.prefix))
    || forall c | c in missing :: !Reaches(call.prefix, call.paths, disk, c)
  }

  ghost predicate AllHarmless(reg: Registry, disk: Disk, missing: set<string>, calls: seq<Call>)
    decreases |calls|
  {
    calls == []
    || (Harmless(calls[0], disk, missing)
        && AllHarmless(Registered(reg, calls[0]), disk, Remembered(reg, disk, missing, calls[0]), calls[1..]))
  }

  /** At every moment of the run, the loader answers every class as the search without a cache does. */
  ghost predicate AlwaysAgrees(reg: Registry, disk: Disk, missing: set<string>, calls: seq<Call>)
    decreases |calls|
  {
    (forall c :: Answer(reg, disk, missing, c) == Search(reg, disk, c))
    && (calls == []
        || AlwaysAgrees(Registered(reg, calls[0]), disk, Remembered(reg, disk, missing, calls[0]), calls[1..]))
  }

  lemma SoundAgrees(reg: Registry, disk: Disk, missing: set<string>)
    ensures Sound(reg, disk, missing) <==> forall c :: Answer(reg, disk, missing, c) == Search(reg, disk, c)
  {
    hide Search;
    if forall c :: Answer(reg, disk, missing, c) == Search(reg, disk, c) {
      forall c | c in missing ensures Search(reg, disk, c) == None {
        assert Answer(reg, disk, missing, c) == None;
      }
    }
  }

  lemma StepKeepsCache(reg: Registry, disk: Disk, missing: set<string>, call: Call)
    requires Sound(reg, disk, missing)
    ensures Sound(Registered(reg, call), disk, Remembered(reg, disk, missing, call)) <==> Harmless(call, disk, missing)
  {
    hide Search, Reaches;
    if !call.Find? && (IsRoot(call.prefix) || EndsWithSeparator(call.prefix)) {
      RegistrationKeepsCache(reg, call.prefix, call.paths, call.Add? && call.prepend, disk, missing);
    }
  }

  /** Over any run on an unchanged disk, cached and uncached answers agree throughout exactly when
      no registration reaches a class already remembered as missing. */
  lemma {:induction false} CacheAgreesOverRuns(reg: Registry, disk: Disk, missing: set<string>, calls: seq<Call>)
    requires Sound(reg, disk, missing)
    ensures AlwaysAgrees(reg, disk, missing, calls) <==> AllHarmless(reg, disk, missing, calls)
    decreases |calls|
  {
    hide Search, Reaches, Sound, Answer, Harmless;
    SoundAgrees(reg, disk, missing);
    if calls != [] {
      var reg', missing' := Registered(reg, calls[0]), Remembered(reg, disk, missing, calls[0]);
      StepKeepsCache(reg, disk, missing, calls[0]);
      SoundAgrees(reg', disk, missing');
      if Sound(reg', disk, missing') { CacheAgreesOverRuns(reg', disk, missing', calls[1..]); }
    }
  }

  /** A class looked up too early stays missing after its namespace is registered. */
  lemma EarlyLookupStaysMissing()
    ensures var disk := Disk({"d/B.php"}, map[]);
            !AlwaysAgrees(Registry(map[], []), disk, {}, [Find("A\\B"), Add("A\\", ["d"], false)])
  {
    hide Search;
    var c, disk, reg := "A\\B", Disk({"d/B.php"}, map[]), Registry(map[], []);
    var calls := [Find(c), Add("A\\", ["d"], false)];
    assert Translated(c) == "A/B" && LogicalPath(c) == "A/B.php" && Tail(c, 2) == "/B.php" by {
      assert c[1..] == "\\B" && c[1..][1..] == "B" && Translated("B") == "B" && Translated("\\B") == "/B";
    }
    assert Search(reg, disk, c) == None by { Unregistered(disk, c); }
    assert c[..2] == "A\\" && "d" + "/B.php" == "d/B.php";
    assert Reaches("A\\", ["d"], disk, c);
    assert !Harmless(calls[1], disk, {c});
    assert calls[1..][0] == calls[1];
    CacheAgreesOverRuns(reg, disk, {}, calls);
  }

  lemma Unregistered(disk: Disk, c: string)
    requires c !in disk.psr0
    ensures Search(Registry(map[], []), disk, c) == None
  {
    LongestMeaning(Registry(map[], []), disk.files, c, |c|);
  }

  // ----- the loader -----

  class Loader {
    var prefixLengths: map<char, map<string, nat>>
    var prefixDirs: map<string, seq<string>>
    var fallbackDirs: seq<string>
    var classMap: map<string, string>
    var authoritative: bool
    var missing: set<string>

    ghost function Reg(): Registry
      reads this
    {
      Registry(prefixDirs, fallbackDirs)
    }

    /** The index by first letter lists exactly the registered prefixes, each with its length. */
    ghost predicate Indexed()
      reads this
    {
      && (forall p | p in prefixDirs :: p != "" && p[0] in prefixLengths && p in prefixLengths[p[0]])
      && (forall ch | ch in prefixLengths ::
            forall p | p in prefixLengths[ch] ::
                p in prefixDirs && p != "" && p[0] == ch && prefixLengths[ch][p] == |p|)
    }

    ghost predicate Valid()
      reads this
    {
      Separated(Reg()) && Indexed()
    }

    constructor (classMap: map<string, string>, authoritative: bool)
      ensures Valid() && Reg() == Registry(map[], []) && missing == {}
      ensures this.classMap == classMap && this.authoritative == authoritative
    {
      this.classMap := classMap;
      this.authoritative := authoritative;
      prefixLengths := map[];
      prefixDirs := map[];
      fallbackDirs := [];
      missing := {};
    }

    /** Enters a prefix in the index and gives it its directories. */
    method Enter(prefix: string, paths: seq<string>)
      requires Valid() && EndsWithSeparator(prefix)
      modifies this`prefixLengths, this`prefixDirs
      ensures Valid() && prefixDirs == old(prefixDirs)[prefix := paths]
    {
      var letter := if prefix[0] in prefixLengths then prefixLengths[prefix[0]] else map[];
      prefixLengths := prefixLengths[prefix[0] := letter[prefix := |prefix|]];
      prefixDirs := prefixDirs[prefix := paths];
    }

    method AddPsr4(prefix: string, paths: seq<string>, prepend: bool) returns (r: Result<(), Error>)
      requires Valid()
      modifies this`prefixLengths, this`prefixDirs, this`fallbackDirs
      ensures Valid()
      ensures r.Ok? <==> IsRoot(prefix) || EndsWithSeparator(prefix)
      ensures r.Ok? ==> Added(old(Reg()), prefix, paths, prepend) == Ok(Reg())
      ensures r.Err? ==> Added(old(Reg()), prefix, paths, prepend) == Err(r.error) && Reg() == old(Reg())
    {
      if IsRoot(prefix) {
        fallbackDirs := if prepend then paths + fallbackDirs else fallbackDirs + paths;
      } else if prefix !in prefixDirs {
        if prefix[|prefix| - 1] != '\\' { return Err(MissingSeparator); }
        Enter(prefix, paths);
        assert paths + [] == paths == [] + paths;
      } else if prepend {
        prefixDirs := prefixDirs[prefix := paths + prefixDirs[prefix]];
      } else {
        prefixDirs := prefixDirs[prefix := prefixDirs[prefix] + paths];
      }
      return Ok(());
    }

    method SetPsr4(prefix: string, paths: seq<string>) returns (r: Result<(), Error>)
      requires Valid()
      modifies this`prefixLengths, this`prefixDirs, this`fallbackDirs
      ensures Valid()
      ensures r.Ok? <==> IsRoot(prefix) || EndsWithSeparator(prefix)
      ensures r.Ok? ==> Replaced(old(Reg()), prefix, paths) == Ok(Reg())
      ensures r.Err? ==> Replaced(old(Reg()), prefix, paths) == Err(r.error) && Reg() == old(Reg())
    {
      if IsRoot(prefix) {
        fallbackDirs := paths;
      } else {
        if prefix[|prefix| - 1] != '\\' { return Err(MissingSeparator); }
        Enter(prefix, paths);
      }
      return Ok(());
    }

    /** The walk: cut the name at its last separator, again and again. */
    method WalkPrefixes(c: string, files: set<string>) returns (r: Option<string>)
      requires Valid()
      ensures r == Longest(Reg(), files, c, |c|)
    {
      hide FirstIn, LogicalPath, Indexed;
      ghost var reg := Reg();
      var logicalPath := LogicalPath(c);
      var subPath := c;
      var lastPos := LastSeparator(subPath);
      while lastPos != -1
        invariant subPath == c[..|subPath|] && |subPath| <= |c|
        invariant -1 <= lastPos < |subPath| && (lastPos >= 0 ==> subPath[lastPos] == '\\')
        invariant forall i | lastPos < i < |subPath| :: subPath[i] != '\\'
        invariant Longest(reg, files, c, |c|) == Longest(reg, files, c, |subPath|)
        decreases |subPath|
      {
        NoPrefixBetween(reg, files, c, lastPos + 1, |subPath|);
        subPath := subPath[..lastPos];
        var search := subPath + "\\";
        assert search == c[..lastPos + 1];
        if search in prefixDirs {
          var pathEnd := "/" + logicalPath[lastPos + 1..];
          r := TryDirs(prefixDirs[search], pathEnd, files);
          if r.Some? { return; }
        }
        lastPos := LastSeparator(subPath);
      }
      NoPrefixBetween(reg, files, c, 0, |subPath|);
      r := None;
    }

    method FindFileWithExtension(c: string, disk: Disk) returns (r: Option<string>)
      requires Valid()
      ensures r == Search(Reg(), disk, c)
    {
      r := None;
      if c != "" && c[0] in prefixLengths {
        r := WalkPrefixes(c, disk.files);
        if r.Some? { return; }
      } else if c != "" {
        OtherLetters(Reg(), disk.files, c, |c|);
      }
      r := TryDirs(fallbackDirs, "/" + LogicalPath(c), disk.files);
      assert LogicalPath(c)[0..] == LogicalPath(c);
      if r.Some? { return; }
      r := if c in disk.psr0 then Some(disk.psr0[c]) else None;
    }

    /** What a loader without the cache would answer. */
    ghost function Uncached(disk: Disk, c: string): Option<string>
      reads this
    {
      if c in classMap then Some(classMap[c]) else if authoritative then None else Search(Reg(), disk, c)
    }

    method FindFile(c: string, disk: Disk) returns (r: Option<string>)
      requires Valid()
      modifies this`missing
      ensures Valid()
      ensures r == if c in classMap then Some(classMap[c]) else if authoritative then None
                   else Answer(Reg(), disk, old(missing), c)
      ensures missing == if c in classMap || authoritative then old(missing)
                         else Remembered(Reg(), disk, old(missing), Find(c))
      ensures old(Sound(Reg(), disk, missing)) ==> r == Uncached(disk, c) && Sound(Reg(), disk, missing)
    {
      if c in classMap { return Some(classMap[c]); }
      if authoritative || c in missing {
        return None;
      }
      r := FindFileWithExtension(c, disk);
      if r == None { missing := missing + {c}; }
    }
  }
}
