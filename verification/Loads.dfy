/** A reload seen from the configuration file: which files load, which action serves which line, and
    what an action and its host take over from the line, field by field. */
module Loads {
  import opened Ascii
  import opened Wrappers
  import opened FilterDns
  import opened MergeConfig
  import opened Reload

  // ----- which lines an action serves -----

  /** The actions after a reload serve the lines of the file in reverse order: the one at line i has
      the type, host name, table and anchor of that line. It is an action that was alive before, with
      its rule as it was, or a new one with exactly that line. */
  lemma LineByLine(m: Memory, olds: seq<ActionId>, cfg: seq<Rule>, strtol: string -> Option<int>, i: nat)
    requires Quiescent(m, olds) && Merged(m, olds, cfg, strtol).Some? && i < |cfg|
    ensures var r := Merged(m, olds, cfg, strtol).value;
            && |r.list| == |cfg|
            && var a := r.list[|cfg| - 1 - i];
            && a in r.memory.state.actions && a in r.memory.rules && SameLine(r.memory.rules[a], cfg[i])
            && if a in m.state.actions then a in m.rules && r.memory.rules[a] == m.rules[a]
               else r.memory.rules[a] == cfg[i]
  {
    hide ValidMemory, Tracked, Keys, CfgKeys, Merged, Reverse, Distinct, Match, KeyOf;
    var r := Merged(m, olds, cfg, strtol).value;
    ReloadKeys(m, olds, cfg, strtol);
    ReloadEvolves(m, olds, cfg, strtol);
    CfgKeysAt(cfg, i);
    CfgKeysLength(cfg);
    ReverseAt(CfgKeys(cfg), i);
    KeysLength(r.list, r.memory.rules);
    var j := |cfg| - 1 - i;
    KeysAt(r.list, r.memory.rules, j);
    KeysAgree(r.memory.rules[r.list[j]], cfg[i]);
    if r.list[j] in m.state.actions {
      KeptRule(m, olds, cfg, strtol, r.list[j]);
    } else {
      NewServesOwn(m, olds, cfg, strtol, i);
    }
  }

  /** Where the matching takes no old action, it takes the new one of that very position. */
  lemma {:induction false} ChosenAt(news: seq<ActionId>, olds: seq<ActionId>, rules: Rules, i: nat)
    requires i < |news|
    ensures var c := Match(news, olds, rules).chosen;
            |c| == |news| && (c[i] in olds || c[i] == news[i])
    decreases |news|
  {
    hide Match, FirstWith, RuleKey;
    ChosenLength(news, olds, rules);
    var first := FirstWith(olds, RuleKey(rules, news[0]), rules);
    var olds' := if first.Some? then Without(olds, first.value) else olds;
    var rest := Match(news[1..], olds', rules).chosen;
    ChosenHead(news, olds, rules);
    if i > 0 {
      ChosenAt(news[1..], olds', rules, i - 1);
      assert forall a | a in olds' :: a in olds;
    }
  }

  lemma ChosenHead(news: seq<ActionId>, olds: seq<ActionId>, rules: Rules)
    requires news != []
    ensures var first := FirstWith(olds, RuleKey(rules, news[0]), rules);
            Match(news, olds, rules).chosen ==
            [if first.Some? then olds[first.value] else news[0]]
            + Match(news[1..], if first.Some? then Without(olds, first.value) else olds, rules).chosen
  {}

  lemma {:induction false} ChosenLength(news: seq<ActionId>, olds: seq<ActionId>, rules: Rules)
    ensures |Match(news, olds, rules).chosen| == |news|
    decreases |news|
  {
    if news != [] {
      match FirstWith(olds, RuleKey(rules, news[0]), rules)
      case Some(k) => ChosenLength(news[1..], Without(olds, k), rules);
      case None => ChosenLength(news[1..], olds, rules);
    }
  }

  lemma {:induction false} RulesOfAt(list: seq<ActionId>, rules: Rules, i: nat)
    requires i < |list| && forall a | a in list :: a in rules
    ensures |RulesOf(list, rules)| == |list| && RulesOf(list, rules)[i] == rules[list[i]]
  {
    if i > 0 { RulesOfAt(list[1..], rules, i - 1); } else { RulesOfLength(list, rules); }
  }

  lemma {:induction false} RulesOfLength(list: seq<ActionId>, rules: Rules)
    ensures |RulesOf(list, rules)| == |list|
  {
    if list != [] { RulesOfLength(list[1..], rules); }
  }

  lemma NewServesOwn(m: Memory, olds: seq<ActionId>, cfg: seq<Rule>, strtol: string -> Option<int>, i: nat)
    requires Quiescent(m, olds) && Merged(m, olds, cfg, strtol).Some? && i < |cfg|
    ensures var r := Merged(m, olds, cfg, strtol).value;
            && |r.list| == |cfg|
            && var a := r.list[|cfg| - 1 - i];
            a !in m.state.actions ==> a in r.memory.rules && r.memory.rules[a] == cfg[i]
  {
    hide ValidMemory, Tracked, Match, Parsed, DetachAll, RulesOf, Reverse, Distinct;
    var p := ParsedNew(m, cfg, strtol).value;
    var x := Match(p.list, olds, p.memory.rules);
    ReloadParsed(m, cfg, strtol);
    DetachAllRules(p.memory, x.dropped);
    DetachAllRules(DetachAll(p.memory, x.dropped), x.left);
    ChosenAt(p.list, olds, p.memory.rules, i);
    ReverseAt(x.chosen, i);
    RulesOfAt(p.list, p.memory.rules, i);
  }

  /** How many of the actions ask for the same as a line, and how many lines of a file do. */
  function Serving(s: seq<ActionId>, rules: Rules, q: Rule): nat {
    if s == [] then 0
    else (if s[0] in rules && SameLine(rules[s[0]], q) then 1 else 0) + Serving(s[1..], rules, q)
  }

  function Asking(cfg: seq<Rule>, q: Rule): nat {
    if cfg == [] then 0 else (if SameLine(cfg[0], q) then 1 else 0) + Asking(cfg[1..], q)
  }

  lemma {:induction false} ServingIsCount(s: seq<ActionId>, rules: Rules, q: Rule)
    requires forall a | a in s :: a in rules
    ensures Serving(s, rules, q) == Count(s, KeyOf(q), rules)
  {
    hide KeyOf, SameLine;
    if s != [] {
      KeysAgree(rules[s[0]], q);
      ServingIsCount(s[1..], rules, q);
    }
  }

  lemma {:induction false} AskingIsCount(cfg: seq<Rule>, q: Rule)
    ensures Asking(cfg, q) == CountLines(cfg, KeyOf(q))
  {
    hide KeyOf, SameLine;
    if cfg != [] {
      KeysAgree(cfg[0], q);
      AskingIsCount(cfg[1..], q);
    }
  }

  /** Of the live actions that ask for the same as a line, min(old, new) stay alive: no more than the
      file asks for, and no fewer than it could keep. */
  lemma KeepsWhatIsAsked(m: Memory, olds: seq<ActionId>, cfg: seq<Rule>, strtol: string -> Option<int>, q: Rule)
    requires Quiescent(m, olds) && Merged(m, olds, cfg, strtol).Some?
    ensures var alive := Merged(m, olds, cfg, strtol).value.memory.state.actions.Keys;
            var was, now := Serving(olds, m.rules, q), Asking(cfg, q);
            Serving(Among(olds, alive), m.rules, q) == if was <= now then was else now
  {
    hide ValidMemory, Merged, Count, CountLines, Among, Serving, Asking, KeyOf, Distinct;
    var alive := Merged(m, olds, cfg, strtol).value.memory.state.actions.Keys;
    ReloadKeepsMinimum(m, olds, cfg, strtol, KeyOf(q));
    AmongInside(olds, alive);
    ServingIsCount(olds, m.rules, q);
    ServingIsCount(Among(olds, alive), m.rules, q);
    AskingIsCount(cfg, q);
  }

  // ----- which files load -----

  /** What the grammar allows: a table for the two packet filters, a command for the third type, an
      anchor for pf only. */
  predicate Allowed(r: Rule) {
    && r.typ in {IPFW_TYPE, PF_TYPE, CMD_TYPE}
    && (r.tablename.Some? <==> r.typ != CMD_TYPE)
    && (r.anchor.Some? ==> r.typ == PF_TYPE)
    && (r.typ == CMD_TYPE ==> r.cmd.Some? && r.pipe == 0)
  }

  lemma AllowedIsWellFormed(r: Rule)
    ensures Allowed(r) <==> WellFormed(r)
  {}

  /** A host name without a mask, or with one that is a number of at most 128. */
  ghost predicate GoodMask(hostname: string, strtol: string -> Option<int>) {
    '/' !in hostname || exists p: nat :: MaskAt(hostname, strtol, p)
  }

  /** The mask follows the last slash, at p. */
  predicate MaskAt(hostname: string, strtol: string -> Option<int>, p: nat) {
    && p < |hostname| && hostname[p] == '/' && '/' !in hostname[p + 1..]
    && strtol(hostname[p + 1..]).Some? && strtol(hostname[p + 1..]).value <= 128
  }

  lemma {:induction false} LastSlashIsLast(s: string)
    ensures LastSlash(s).Some? ==> '/' !in s[LastSlash(s).value + 1..]
  {
    if s != "" && s[|s| - 1] != '/' {
      var t := s[..|s| - 1];
      LastSlashIsLast(t);
      if LastSlash(t).Some? {
        var p := LastSlash(t).value;
        assert s[p + 1..] == t[p + 1..] + [s[|s| - 1]];
      }
    }
  }

  lemma {:induction false} OnlyLastSlash(s: string, p: nat)
    requires p < |s| && s[p] == '/' && '/' !in s[p + 1..]
    ensures LastSlash(s) == Some(p)
  {
    if p < |s| - 1 {
      var t := s[..|s| - 1];
      assert s[p + 1..] == t[p + 1..] + [s[|s| - 1]];
      OnlyLastSlash(t, p);
    }
  }

  lemma MaskIsGood(hostname: string, strtol: string -> Option<int>)
    ensures GoodMask(hostname, strtol) <==> NewHostName(hostname, strtol).Some?
  {
    LastSlashIsLast(hostname);
    hide LastSlash;
    if GoodMask(hostname, strtol) && '/' in hostname {
      var p: nat :| MaskAt(hostname, strtol, p);
      OnlyLastSlash(hostname, p);
    }
    if NewHostName(hostname, strtol).Some? && '/' in hostname {
      assert MaskAt(hostname, strtol, LastSlash(hostname).value);
    }
  }

  /** Some host of the list has a name that matches. */
  ghost predicate Known(m: Memory, hostname: string) {
    exists h :: h in m.threads && h in m.names && HostMatches(m.names[h].name, hostname)
  }

  lemma {:induction false} KnownIsFound(threads: seq<HostId>, names: map<HostId, HostName>, hostname: string)
    ensures FirstHost(threads, names, hostname).Some? <==>
            exists h :: h in threads && h in names && HostMatches(names[h].name, hostname)
  {
    hide HostMatches;
    if threads != [] {
      KnownIsFound(threads[1..], names, hostname);
      assert forall h :: h in threads <==> h == threads[0] || h in threads[1..];
    }
  }

  /** One more line. */
  function Lined(p: Parse, r: Rule, strtol: string -> Option<int>): Option<Parse> {
    if !WellFormed(r) || Duplicate(p.list, p.memory.rules, r) then None
    else match HostAdded(Created(p.memory, r), p.memory.nextId, strtol)
      case None => None
      case Some(m) => Some(Parse(m, p.list + [p.memory.nextId]))
  }

  lemma {:induction false} ParsedSnoc(p: Parse, cfg: seq<Rule>, r: Rule, strtol: string -> Option<int>)
    ensures Parsed(p, cfg + [r], strtol) ==
            match Parsed(p, cfg, strtol) case None => None case Some(q) => Lined(q, r, strtol)
    decreases |cfg|
  {
    hide HostAdded, Duplicate, WellFormed, Created;
    if cfg == [] {
      assert cfg + [r] == [r] && [r][1..] == [];
    } else {
      assert (cfg + [r])[0] == cfg[0] && (cfg + [r])[1..] == cfg[1..] + [r];
      match Lined(p, cfg[0], strtol)
      case None =>
      case Some(q) => ParsedSnoc(q, cfg[1..], r, strtol);
    }
  }

  lemma {:induction false} DuplicateIsIn(list: seq<ActionId>, rules: Rules, r: Rule)
    requires forall a | a in list :: a in rules
    ensures Duplicate(list, rules, r) <==> r in RulesOf(list, rules)
  {
    if list != [] {
      DuplicateIsIn(list[1..], rules, r);
      var rs := RulesOf(list, rules);
      assert rs[1..] == RulesOf(list[1..], rules) && rs[0] == rules[list[0]];
      assert r in rs <==> r == rs[0] || r in rs[1..];
    }
  }

  /** Line i of the file goes through: it is allowed, no earlier line is the same in every field, and
      its host is on the list by then or its mask is good. */
  ghost predicate Passes(m: Memory, cfg: seq<Rule>, strtol: string -> Option<int>, i: nat)
    requires i < |cfg|
  {
    && Allowed(cfg[i]) && cfg[i] !in cfg[..i]
    && var before := ParsedNew(m, cfg[..i], strtol);
    before.Some? ==> Known(before.value.memory, cfg[i].hostname) || GoodMask(cfg[i].hostname, strtol)
  }

  lemma LinePasses(m: Memory, cfg: seq<Rule>, p: Parse, r: Rule, strtol: string -> Option<int>)
    requires ValidMemory(m) && ParsedNew(m, cfg, strtol) == Some(p)
    ensures Lined(p, r, strtol).Some? <==>
            Allowed(r) && r !in cfg && (Known(p.memory, r.hostname) || GoodMask(r.hostname, strtol))
  {
    ReloadParsed(m, cfg, strtol);
    hide Parsed, Tracked, Linked, Allowed, WellFormed, Duplicate, RulesOf, GoodMask, NewHostName, FirstHost,
        HostMatches;
    AllowedIsWellFormed(r);
    DuplicateIsIn(p.list, p.memory.rules, r);
    MaskIsGood(r.hostname, strtol);
    KnownIsFound(p.memory.threads, p.memory.names, r.hostname);
    FoundIsThere(p.memory, r.hostname);
  }

  lemma FoundIsThere(m: Memory, hostname: string)
    requires WellNamed(m)
    ensures FirstHost(m.threads, m.names, hostname).Some? ==>
              FirstHost(m.threads, m.names, hostname).value in m.state.hosts
  {}

  /** A file is accepted exactly when every line goes through. */
  lemma {:induction false} LoadsExactly(m: Memory, cfg: seq<Rule>, strtol: string -> Option<int>)
    requires ValidMemory(m)
    ensures ParsedNew(m, cfg, strtol).Some? <==> forall i: nat | i < |cfg| :: Passes(m, cfg, strtol, i)
    decreases |cfg|
  {
    hide Parsed, ValidMemory, Allowed, Known, GoodMask, Lined;
    if cfg == [] {
      NothingParses(m, strtol);
    } else {
      var n, r := |cfg| - 1, cfg[|cfg| - 1];
      var init := cfg[..n];
      assert cfg == init + [r];
      LoadsExactly(m, init, strtol);
      ParsedSnoc(Parse(m.(log := []), []), init, r, strtol);
      forall i: nat | i < n ensures Passes(m, cfg, strtol, i) <==> Passes(m, init, strtol, i) {
        assert cfg[..i] == init[..i];
      }
      if ParsedNew(m, init, strtol).Some? {
        LinePasses(m, init, ParsedNew(m, init, strtol).value, r, strtol);
        assert Lined(ParsedNew(m, init, strtol).value, r, strtol).Some? <==> Passes(m, cfg, strtol, n);
      }
    }
  }

  lemma NothingParses(m: Memory, strtol: string -> Option<int>)
    ensures ParsedNew(m, [], strtol).Some?
  {}

  // ----- tables -----

  /** An action keeps a kernel table exactly when its line names one. */
  ghost predicate Tabled(m: Memory) {
    forall a | a in m.state.actions && a in m.rules :: m.state.actions[a].hasTable <==> m.rules[a].tablename.Some?
  }

  lemma LineTabled(m: Memory, r: Rule, strtol: string -> Option<int>)
    requires WellNamed(m) && Tabled(m) && HostAdded(Created(m, r), m.nextId, strtol).Some?
    ensures Tabled(HostAdded(Created(m, r), m.nextId, strtol).value)
  {
    LineGrows(m, r, strtol);
    OwnTable(m, r, strtol);
    hide HostAdded, HostsGrow;
  }

  lemma OwnTable(m: Memory, r: Rule, strtol: string -> Option<int>)
    requires HostAdded(Created(m, r), m.nextId, strtol).Some?
    ensures var m' := HostAdded(Created(m, r), m.nextId, strtol).value;
            m.nextId in m'.state.actions && (m'.state.actions[m.nextId].hasTable <==> r.tablename.Some?)
  {
    hide FirstHost, NewHostName;
  }

  lemma {:induction false} ParsedTabled(m: Memory, p: Parse, cfg: seq<Rule>, strtol: string -> Option<int>)
    requires Grown(m, p) && Tabled(p.memory) && Parsed(p, cfg, strtol).Some?
    ensures Tabled(Parsed(p, cfg, strtol).value.memory)
    decreases |cfg|
  {
    if cfg != [] {
      hide Linked, Tracked, Listed, Tabled, HostAdded;
      var m' := HostAdded(Created(p.memory, cfg[0]), p.memory.nextId, strtol).value;
      LineKeeps(m, p, cfg[0], strtol);
      LineListed(m, p, cfg[0], strtol);
      LineTabled(p.memory, cfg[0], strtol);
      ParsedTabled(m, Parse(m', p.list + [p.memory.nextId]), cfg[1..], strtol);
    }
  }

  lemma {:induction false} DetachAllTabled(m: Memory, ids: seq<ActionId>)
    requires Tabled(m)
    ensures Tabled(DetachAll(m, ids))
    decreases |ids|
  {
    if ids != [] && Linkable(m.state, ids[0]) { DetachAllTabled(Detach(m, ids[0]), ids[1..]); }
  }

  /** A reload and the creation of threads leave every live action with a table exactly if its line
      names one. */
  lemma ReloadTabled(m: Memory, olds: seq<ActionId>, cfg: seq<Rule>, strtol: string -> Option<int>,
                     started: set<ActionId>)
    requires ValidMemory(m) && Tabled(m) && Merged(m, olds, cfg, strtol).Some?
    ensures var r := Merged(m, olds, cfg, strtol).value;
            Tabled(r.memory.(state := StartActions(r.memory.state, r.list, started)))
  {
    hide ValidMemory, Tracked, Match, DetachAll, Parsed, StartActions;
    var p := ParsedNew(m, cfg, strtol).value;
    var x := Match(p.list, olds, p.memory.rules);
    var r := Merged(m, olds, cfg, strtol).value;
    StartsGrown(m);
    ParsedTabled(m, Parse(m.(log := []), []), cfg, strtol);
    DetachAllTabled(p.memory, x.dropped);
    DetachAllTabled(DetachAll(p.memory, x.dropped), x.left);
    StartActionsEffect(r.memory.state, r.list, started);
  }

  // ----- hosts that are shared -----

  /** A new host is found again under the name it was made from, exactly when that name does not begin
      with a slash: then the whole name is compared, and the host has lost its mask. */
  lemma FindsItself(hostname: string, strtol: string -> Option<int>)
    requires NewHostName(hostname, strtol).Some?
    ensures HostMatches(NewHostName(hostname, strtol).value.name, hostname) <==> hostname == "" || hostname[0] != '/'
  {
    if hostname != "" && hostname[0] == '/' {
      LastSlashLast(hostname, 0);
    } else {
      NewHostMatches(hostname, strtol);
    }
  }

  lemma {:induction false} FirstHostFolded(threads: seq<HostId>, names: map<HostId, HostName>, a: string, b: string)
    requires Folded(a) == Folded(b) && '/' !in a && '/' !in b
    ensures FirstHost(threads, names, a) == FirstHost(threads, names, b)
  {
    if threads != [] {
      NoMask(a);
      NoMask(b);
      FirstHostFolded(threads[1..], names, a, b);
    }
  }

  lemma NoMask(s: string)
    requires '/' !in s
    ensures FirstSlash(s).None?
  {}

  /** Actions whose host names have no mask share a host exactly when the names are the same but for
      the case of letters. */
  lemma SharedHost(m: Memory, a: ActionId, b: ActionId)
    requires Anchored(m) && a in m.state.actions && b in m.state.actions && a in m.rules && b in m.rules
    requires '/' !in m.rules[a].hostname && '/' !in m.rules[b].hostname
    ensures m.state.actions[a].host == m.state.actions[b].host <==>
            Folded(m.rules[a].hostname) == Folded(m.rules[b].hostname)
  {
    var x, y := m.rules[a].hostname, m.rules[b].hostname;
    NoMask(x);
    NoMask(y);
    if Folded(x) == Folded(y) { FirstHostFolded(m.threads, m.names, x, y); }
    FirstHostMatches(m.threads, m.names, x);
    FirstHostMatches(m.threads, m.names, y);
    hide FirstHost, FirstSlash, Folded;
  }
}
