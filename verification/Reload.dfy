/** A configuration reload from end to end: what the parser builds, what the merge keeps,
    and the loops that do it. */
module Reload {
  import opened Wrappers
  import opened FilterDns
  import opened MergeConfig

  const IPFW_TYPE := 0
  const PF_TYPE := 1
  const CMD_TYPE := 2

  /** The grammar's own checks on a line. */
  predicate WellFormed(r: Rule) {
    || (r.typ == CMD_TYPE && r.tablename.None? && r.anchor.None? && r.pipe == 0 && r.cmd.Some?)
    || ((r.typ == IPFW_TYPE || r.typ == PF_TYPE) && r.tablename.Some? && (r.anchor.Some? ==> r.typ == PF_TYPE))
  }

  predicate Duplicate(list: seq<ActionId>, rules: Rules, r: Rule) {
    list != [] && ((list[0] in rules && rules[list[0]] == r) || Duplicate(list[1..], rules, r))
  }

  datatype Parse = Parse(memory: Memory, list: seq<ActionId>)

  /** action_add of a line that is not there yet. */
  function Created(m: Memory, r: Rule): Memory {
    m.(rules := m.rules[m.nextId := r], nextId := m.nextId + 1)
  }

  /** parse_config: every line creates an action and links it to a host; a malformed line, a
      duplicate line or a bad mask makes the whole load fail. */
  function Parsed(p: Parse, cfg: seq<Rule>, strtol: string -> Option<int>): Option<Parse>
    decreases |cfg|
  {
    if cfg == [] then Some(p)
    else if !WellFormed(cfg[0]) || Duplicate(p.list, p.memory.rules, cfg[0]) then None
    else match HostAdded(Created(p.memory, cfg[0]), p.memory.nextId, strtol)
      case None => None
      case Some(m) => Parsed(Parse(m, p.list + [p.memory.nextId]), cfg[1..], strtol)
  }

  function DetachAll(m: Memory, ids: seq<ActionId>): Memory
    decreases |ids|
  {
    if ids == [] then m
    else if Linkable(m.state, ids[0]) then DetachAll(Detach(m, ids[0]), ids[1..])
    else m
  }

  function Reverse<T>(s: seq<T>): seq<T> {
    if s == [] then [] else Reverse(s[1..]) + [s[0]]
  }

  /** The whole of merge_config up to the creation of threads. */
  function Merged(m: Memory, olds: seq<ActionId>, cfg: seq<Rule>, strtol: string -> Option<int>): Option<Parse> {
    match ParsedNew(m, cfg, strtol)
    case None => None
    case Some(p) =>
      var x := Match(p.list, olds, p.memory.rules);
      Some(Parse(DetachAll(DetachAll(p.memory, x.dropped), x.left), Reverse(x.chosen)))
  }

  // ----- parsing -----

  /** The parser has added actions `p.list` to memory `m`, and nothing else. */
  ghost predicate Grown(m: Memory, p: Parse) {
    && ValidMemory(p.memory) && Tracked(m.state, p.memory)
    && Listed(m, p)
    && (forall i | 0 <= i < |p.memory.log| :: p.memory.log[i].Up?)
  }

  ghost predicate Listed(m: Memory, p: Parse) {
    && Distinct(p.list)
    && (forall a | a in p.list :: m.nextId <= a < p.memory.nextId && a in p.memory.rules)
    && (forall a :: a in p.memory.state.actions <==> a in m.state.actions || a in p.list)
    && (forall a | a in m.rules :: a < m.nextId && a in p.memory.rules && p.memory.rules[a] == m.rules[a])
    && (forall a | a in m.state.actions :: a < m.nextId)
    && m.nextId <= p.memory.nextId && |p.memory.log| == |p.list|
  }

  lemma CreatedKeeps(base: State, m: Memory, r: Rule)
    requires ValidMemory(m) && Tracked(base, m)
    ensures ValidMemory(Created(m, r)) && Tracked(base, Created(m, r))
  {
    hide Linked, Evolved;
  }

  /** One line: its action is new, linked, and the last of the list. */
  lemma LineKeeps(m: Memory, p: Parse, r: Rule, strtol: string -> Option<int>)
    requires Grown(m, p) && HostAdded(Created(p.memory, r), p.memory.nextId, strtol).Some?
    ensures var m' := HostAdded(Created(p.memory, r), p.memory.nextId, strtol).value;
            ValidMemory(m') && Tracked(m.state, m') && (forall i | 0 <= i < |m'.log| :: m'.log[i].Up?)
  {
    hide Linked, Evolved, Counted;
    var c, id := Created(p.memory, r), p.memory.nextId;
    CreatedKeeps(m.state, p.memory, r);
    assert id !in p.memory.state.actions && id !in m.state.actions;
    match FirstHost(c.threads, c.names, r.hostname)
    case Some(h) => AttachKeeps(m.state, c, id, h);
    case None => AttachNewKeeps(m.state, c, id, NewHostName(r.hostname, strtol).value);
  }

  lemma LineListed(m: Memory, p: Parse, r: Rule, strtol: string -> Option<int>)
    requires Listed(m, p) && HostAdded(Created(p.memory, r), p.memory.nextId, strtol).Some?
    ensures var m' := HostAdded(Created(p.memory, r), p.memory.nextId, strtol).value;
            Listed(m, Parse(m', p.list + [p.memory.nextId])) && m'.rules == Created(p.memory, r).rules
    ensures p.memory.nextId !in p.list
  {
    var m', id := HostAdded(Created(p.memory, r), p.memory.nextId, strtol).value, p.memory.nextId;
    assert id !in p.list;
    DistinctSnoc(p.list, id);
    assert m'.state.actions.Keys == p.memory.state.actions.Keys + {id};
  }

  lemma {:induction false} ParsedGrown(m: Memory, p: Parse, cfg: seq<Rule>, strtol: string -> Option<int>)
    requires Grown(m, p) && Parsed(p, cfg, strtol).Some?
    ensures Grown(m, Parsed(p, cfg, strtol).value)
    decreases |cfg|
  {
    hide ValidMemory, Tracked, Listed;
    if cfg != [] {
      LineKeeps(m, p, cfg[0], strtol);
      LineListed(m, p, cfg[0], strtol);
      var m' := HostAdded(Created(p.memory, cfg[0]), p.memory.nextId, strtol).value;
      ParsedGrown(m, Parse(m', p.list + [p.memory.nextId]), cfg[1..], strtol);
    }
  }

  function RulesOf(list: seq<ActionId>, rules: Rules): seq<Rule> {
    if list == [] then []
    else [if list[0] in rules then rules[list[0]] else Rule(0, "", None, None, 0, None)] + RulesOf(list[1..], rules)
  }

  lemma {:induction false} RulesOfSnoc(list: seq<ActionId>, rules: Rules, id: ActionId, r: Rule)
    requires id !in list
    ensures RulesOf(list + [id], rules[id := r]) == RulesOf(list, rules) + [r]
  {
    if list != [] {
      assert (list + [id])[1..] == list[1..] + [id];
      RulesOfSnoc(list[1..], rules, id, r);
    }
  }

  /** The parsed list carries the configuration's lines, in order and unchanged. */
  lemma {:induction false} ParsedRules(m: Memory, p: Parse, cfg: seq<Rule>, strtol: string -> Option<int>)
    requires Listed(m, p) && Parsed(p, cfg, strtol).Some?
    ensures var q := Parsed(p, cfg, strtol).value;
            RulesOf(q.list, q.memory.rules) == RulesOf(p.list, p.memory.rules) + cfg && |q.list| == |p.list| + |cfg|
    decreases |cfg|
  {
    hide Listed, HostAdded;
    if cfg != [] {
      var id := p.memory.nextId;
      var m' := HostAdded(Created(p.memory, cfg[0]), id, strtol).value;
      LineListed(m, p, cfg[0], strtol);
      RulesOfSnoc(p.list, p.memory.rules, id, cfg[0]);
      ParsedRules(m, Parse(m', p.list + [id]), cfg[1..], strtol);
      assert RulesOf(p.list, p.memory.rules) + [cfg[0]] + cfg[1..] == RulesOf(p.list, p.memory.rules) + cfg;
    }
  }

  // ----- deleting -----

  /** Deleting live actions one by one takes away exactly these and only counts down. */
  lemma {:induction false} DetachAllKeeps(base: State, m: Memory, ids: seq<ActionId>)
    requires ValidMemory(m) && Tracked(base, m) && Distinct(ids) && forall a | a in ids :: a in m.state.actions
    ensures var m' := DetachAll(m, ids);
            && ValidMemory(m') && Tracked(base, m') && m'.rules == m.rules && m'.nextId == m.nextId
            && (forall a :: a in m'.state.actions <==> a in m.state.actions && a !in ids)
    decreases |ids|
  {
    hide ValidMemory, Tracked, Linked;
    if ids != [] {
      DetachKeeps(base, m, ids[0]);
      DetachAllKeeps(base, Detach(m, ids[0]), ids[1..]);
    }
  }

  lemma {:induction false} DetachAllLog(m: Memory, ids: seq<ActionId>)
    ensures var log := DetachAll(m, ids).log;
            m.log <= log && forall i | |m.log| <= i < |log| :: log[i].Down?
    decreases |ids|
  {
    if ids != [] && Linkable(m.state, ids[0]) {
      DetachAllLog(Detach(m, ids[0]), ids[1..]);
    }
  }

  // ----- the merge -----

  /** Between reloads: the action list names each live action once, each with its rule. */
  ghost predicate Quiescent(m: Memory, list: seq<ActionId>) {
    && ValidMemory(m) && Distinct(list)
    && (forall a :: a in list <==> a in m.state.actions)
    && (forall a | a in m.state.actions :: a in m.rules)
  }

  lemma StartsGrown(m: Memory)
    requires ValidMemory(m)
    ensures Grown(m, Parse(m.(log := []), []))
  {}

  /** After parsing, old and new actions are apart and every one has its rule. */
  lemma ParsedApart(m: Memory, olds: seq<ActionId>, p: Parse)
    requires Quiescent(m, olds) && Listed(m, p)
    ensures Distinct(p.list) && Distinct(olds) && (forall a | a in p.list :: a !in olds)
    ensures forall a :: a in p.memory.state.actions <==> a in olds || a in p.list
  {}

  /** The heart of the reload: from the parsed memory the two deletions leave exactly the
      chosen actions, each once, with everything but links as it was. */
  lemma MergeLeavesChosen(m: Memory, olds: seq<ActionId>, p: Parse)
    requires Quiescent(m, olds) && Grown(m, p)
    ensures var x := Match(p.list, olds, p.memory.rules);
            var m' := DetachAll(DetachAll(p.memory, x.dropped), x.left);
            && ValidMemory(m') && Tracked(m.state, m') && m'.rules == p.memory.rules
            && Distinct(x.chosen) && (forall a :: a in x.chosen <==> a in m'.state.actions)
  {
    hide ValidMemory, Tracked, Linked;
    var x := Match(p.list, olds, p.memory.rules);
    ParsedApart(m, olds, p);
    Partition(p.list, olds, p.memory.rules);
    DroppedAreNew(p.list, olds, p.memory.rules);
    SplitDistinct(p.list, olds, p.memory.rules);
    DetachAllKeeps(m.state, p.memory, x.dropped);
    DetachAllKeeps(m.state, DetachAll(p.memory, x.dropped), x.left);
  }

  /** What is dropped or left is not repeated either. */
  lemma SplitDistinct(news: seq<ActionId>, olds: seq<ActionId>, rules: Rules)
    requires Distinct(news) && Distinct(olds) && forall a | a in news :: a !in olds
    ensures Distinct(Match(news, olds, rules).dropped) && Distinct(Match(news, olds, rules).left)
    ensures forall a | a in Match(news, olds, rules).left :: a !in Match(news, olds, rules).dropped
  {
    var m := Match(news, olds, rules);
    forall a ensures Occurs(m.dropped, a) <= 1 && Occurs(m.left, a) <= 1 {
      Conserved(news, olds, rules, a);
      OccursOnce(news, a);
      OccursOnce(olds, a);
      OccursIn(news, a);
      OccursIn(olds, a);
    }
    OnceDistinct(m.dropped);
    OnceDistinct(m.left);
    DroppedAreNew(news, olds, rules);
  }

  function CfgKeys(cfg: seq<Rule>): seq<Key> {
    if cfg == [] then [] else [KeyOf(cfg[0])] + CfgKeys(cfg[1..])
  }

  lemma {:induction false} KeysOfRules(list: seq<ActionId>, rules: Rules)
    requires forall a | a in list :: a in rules
    ensures Keys(list, rules) == CfgKeys(RulesOf(list, rules))
  {
    if list != [] { KeysOfRules(list[1..], rules); }
  }

  lemma {:induction false} ReverseKeys(s: seq<ActionId>, rules: Rules)
    ensures Keys(Reverse(s), rules) == Reverse(Keys(s, rules))
  {
    if s != [] {
      ReverseKeys(s[1..], rules);
      KeysSnoc(Reverse(s[1..]), s[0], rules);
    }
  }

  lemma {:induction false} KeysSnoc(s: seq<ActionId>, a: ActionId, rules: Rules)
    ensures Keys(s + [a], rules) == Keys(s, rules) + [RuleKey(rules, a)]
  {
    if s != [] {
      assert (s + [a])[1..] == s[1..] + [a];
      KeysSnoc(s[1..], a, rules);
    }
  }

  lemma {:induction false} ReverseIn<T>(s: seq<T>)
    ensures forall a :: a in Reverse(s) <==> a in s
  {
    if s != [] {
      ReverseIn(s[1..]);
      assert forall a :: a in s <==> a == s[0] || a in s[1..];
    }
  }

  lemma {:induction false} ReverseDistinct<T>(s: seq<T>)
    requires Distinct(s)
    ensures Distinct(Reverse(s))
  {
    if s != [] {
      ReverseIn(s[1..]);
      ReverseDistinct(s[1..]);
      DistinctSnoc(Reverse(s[1..]), s[0]);
    }
  }

  /** What the parser hands to the merge. */
  function ParsedNew(m: Memory, cfg: seq<Rule>, strtol: string -> Option<int>): Option<Parse> {
    Parsed(Parse(m.(log := []), []), cfg, strtol)
  }

  lemma ReloadParsed(m: Memory, cfg: seq<Rule>, strtol: string -> Option<int>)
    requires ValidMemory(m) && ParsedNew(m, cfg, strtol).Some?
    ensures var p := ParsedNew(m, cfg, strtol).value;
            && Grown(m, p) && RulesOf(p.list, p.memory.rules) == cfg && |p.list| == |cfg|
            && forall a | a in p.list :: a in p.memory.rules
  {
    hide ValidMemory, Tracked;
    var p0 := Parse(m.(log := []), []);
    StartsGrown(m);
    ParsedGrown(m, p0, cfg, strtol);
    ParsedRules(m, p0, cfg, strtol);
    assert RulesOf(p0.list, p0.memory.rules) + cfg == cfg;
  }

  lemma {:induction false} DetachAllRules(m: Memory, ids: seq<ActionId>)
    ensures var m' := DetachAll(m, ids);
            m'.rules == m.rules && m'.threads == m.threads && m'.names == m.names && m'.nextId == m.nextId
    decreases |ids|
  {
    if ids != [] && Linkable(m.state, ids[0]) { DetachAllRules(Detach(m, ids[0]), ids[1..]); }
  }

  /** A reload that parses ends with the new configuration's keys, last line first. */
  lemma ReloadKeys(m: Memory, olds: seq<ActionId>, cfg: seq<Rule>, strtol: string -> Option<int>)
    requires ValidMemory(m) && Merged(m, olds, cfg, strtol).Some?
    ensures var r := Merged(m, olds, cfg, strtol).value;
            Keys(r.list, r.memory.rules) == Reverse(CfgKeys(cfg))
  {
    hide ValidMemory, Grown, DetachAll, Match, Keys, RulesOf, Reverse, CfgKeys;
    var p := ParsedNew(m, cfg, strtol).value;
    var x := Match(p.list, olds, p.memory.rules);
    ReloadParsed(m, cfg, strtol);
    DetachAllRules(p.memory, x.dropped);
    DetachAllRules(DetachAll(p.memory, x.dropped), x.left);
    KeysOfRules(p.list, p.memory.rules);
    ChosenKeys(p.list, olds, p.memory.rules);
    ReverseKeys(x.chosen, p.memory.rules);
  }

  /** A reload that parses ends quiescent: the action list names each live action once. What
      was alive before and still is kept its lists, its host and its signals; what is new has
      never run; hosts changed in nothing but their links. */
  lemma ReloadEvolves(m: Memory, olds: seq<ActionId>, cfg: seq<Rule>, strtol: string -> Option<int>)
    requires Quiescent(m, olds) && Merged(m, olds, cfg, strtol).Some?
    ensures var r := Merged(m, olds, cfg, strtol).value;
            Quiescent(r.memory, r.list) && Tracked(m.state, r.memory)
  {
    hide ValidMemory, Tracked, Grown, DetachAll, Match, Parsed, Reverse, Distinct;
    var p := ParsedNew(m, cfg, strtol).value;
    var x := Match(p.list, olds, p.memory.rules);
    ReloadParsed(m, cfg, strtol);
    MergeLeavesChosen(m, olds, p);
    ReverseIn(x.chosen);
    ReverseDistinct(x.chosen);
    ChosenHaveRules(m, olds, p);
  }

  lemma ChosenHaveRules(m: Memory, olds: seq<ActionId>, p: Parse)
    requires Quiescent(m, olds) && Grown(m, p)
    ensures forall a | a in Match(p.list, olds, p.memory.rules).chosen :: a in p.memory.rules
  {
    hide ValidMemory, Tracked;
    ParsedApart(m, olds, p);
    Partition(p.list, olds, p.memory.rules);
  }

  // ----- how many live actions survive -----

  function CountLines(cfg: seq<Rule>, k: Key): nat {
    if cfg == [] then 0 else (if KeyOf(cfg[0]) == k then 1 else 0) + CountLines(cfg[1..], k)
  }

  lemma {:induction false} CountParsed(list: seq<ActionId>, rules: Rules, k: Key)
    requires forall a | a in list :: a in rules
    ensures Count(list, k, rules) == CountLines(RulesOf(list, rules), k)
  {
    if list != [] { CountParsed(list[1..], rules, k); }
  }

  lemma {:induction false} CountUnder(s: seq<ActionId>, k: Key, rules: Rules, rules': Rules)
    requires forall a | a in s :: a in rules && a in rules' && rules'[a] == rules[a]
    ensures Count(s, k, rules) == Count(s, k, rules')
  {
    if s != [] { CountUnder(s[1..], k, rules, rules'); }
  }

  /** Of the old actions with a key, as many are alive after a reload as both configurations have
      lines with it: min(old, new). What else is alive is new. */
  lemma ReloadKeepsMinimum(m: Memory, olds: seq<ActionId>, cfg: seq<Rule>, strtol: string -> Option<int>, k: Key)
    requires Quiescent(m, olds) && Merged(m, olds, cfg, strtol).Some?
    ensures var alive := Merged(m, olds, cfg, strtol).value.memory.state.actions.Keys;
            var was, now := Count(olds, k, m.rules), CountLines(cfg, k);
            Count(Among(olds, alive), k, m.rules) == if was <= now then was else now
  {
    hide ValidMemory, Tracked, Parsed, Match, DetachAll, Count, CountLines, Among, Outside, RulesOf;
    var p := ParsedNew(m, cfg, strtol).value;
    var x := Match(p.list, olds, p.memory.rules);
    var alive := Merged(m, olds, cfg, strtol).value.memory.state.actions.Keys;
    ReloadParsed(m, cfg, strtol);
    CountParsed(p.list, p.memory.rules, k);
    KeepsMinimum(p.list, olds, p.memory.rules, k);
    LeftIsDead(m, olds, p);
    OutsideDistinct(olds, alive);
    CountSplit(olds, alive, k, p.memory.rules);
    CountSame(Outside(olds, alive), x.left, k, p.memory.rules);
    assert forall a | a in olds :: a in m.rules && a in p.memory.rules && p.memory.rules[a] == m.rules[a];
    CountUnder(olds, k, m.rules, p.memory.rules);
    AmongInside(olds, alive);
    CountUnder(Among(olds, alive), k, m.rules, p.memory.rules);
  }

  lemma {:induction false} AmongInside(s: seq<ActionId>, keep: set<ActionId>)
    ensures forall a | a in Among(s, keep) :: a in s
  {
    if s != [] { AmongInside(s[1..], keep); }
  }

  /** The old actions that are not alive after the merge are exactly those left over. */
  lemma LeftIsDead(m: Memory, olds: seq<ActionId>, p: Parse)
    requires Quiescent(m, olds) && Grown(m, p)
    ensures var x := Match(p.list, olds, p.memory.rules);
            var m' := DetachAll(DetachAll(p.memory, x.dropped), x.left);
            Distinct(x.left) && forall a :: a in x.left <==> a in olds && a !in m'.state.actions
  {
    hide ValidMemory, Tracked, Match;
    MergeLeavesChosen(m, olds, p);
    ParsedApart(m, olds, p);
    Partition(p.list, olds, p.memory.rules);
    DroppedAreNew(p.list, olds, p.memory.rules);
    SplitDistinct(p.list, olds, p.memory.rules);
  }

  // ----- reference counts while a reload runs -----

  /** A live action's host is the first in the list that its host name matches. */
  ghost predicate Anchored(m: Memory) {
    forall a | a in m.state.actions && a in m.rules && FirstSlash(m.rules[a].hostname) != Some(0) ::
      FirstHost(m.threads, m.names, m.rules[a].hostname) == Some(m.state.actions[a].host)
  }

  lemma {:induction false} FirstHostStays(threads: seq<HostId>, more: seq<HostId>, names: map<HostId, HostName>,
                                          names': map<HostId, HostName>, hostname: string)
    requires forall h | h in threads :: h in names && h in names' && names'[h] == names[h]
    requires FirstHost(threads, names, hostname).Some?
    ensures FirstHost(threads + more, names', hostname) == FirstHost(threads, names, hostname)
  {
    if !HostMatches(names[threads[0]].name, hostname) {
      assert (threads + more)[1..] == threads[1..] + more;
      FirstHostStays(threads[1..], more, names, names', hostname);
    }
  }

  lemma {:induction false} FirstHostNew(threads: seq<HostId>, names: map<HostId, HostName>, h: HostId,
                                        names': map<HostId, HostName>, hostname: string)
    requires forall x | x in threads :: x in names && x in names' && names'[x] == names[x]
    requires FirstHost(threads, names, hostname).None? && h in names' && HostMatches(names'[h].name, hostname)
    ensures FirstHost(threads + [h], names', hostname) == Some(h)
  {
    if threads != [] {
      assert (threads + [h])[1..] == threads[1..] + [h];
      FirstHostNew(threads[1..], names, h, names', hostname);
    }
  }

  /** A new host matches the very name it was made from, unless that starts with a slash. */
  lemma NewHostMatches(hostname: string, strtol: string -> Option<int>)
    requires NewHostName(hostname, strtol).Some? && FirstSlash(hostname) != Some(0)
    ensures HostMatches(NewHostName(hostname, strtol).value.name, hostname)
  {
    var name := NewHostName(hostname, strtol).value.name;
    match FirstSlash(hostname)
    case None =>
    case Some(p) =>
      var q := LastSlash(hostname).value;
      LastSlashLast(hostname, p);
      assert name[..p] == hostname[..p];
  }

  lemma {:induction false} LastSlashLast(s: string, p: nat)
    requires p < |s| && s[p] == '/'
    ensures LastSlash(s).Some? && LastSlash(s).value >= p
  {
    if s[|s| - 1] != '/' { LastSlashLast(s[..|s| - 1], p); }
  }

  /** The host list and its names only grow. */
  ghost predicate HostsGrow(m: Memory, m': Memory) {
    && m.threads <= m'.threads
    && (forall h | h in m.threads :: h in m.names && h in m'.names && m'.names[h] == m.names[h])
  }

  lemma AnchoredStays(m: Memory, m': Memory, a: ActionId)
    requires Anchored(m) && HostsGrow(m, m')
    requires a in m.state.actions && a in m.rules && FirstSlash(m.rules[a].hostname) != Some(0)
    ensures FirstHost(m'.threads, m'.names, m.rules[a].hostname) == Some(m.state.actions[a].host)
  {
    var more := m'.threads[|m.threads|..];
    assert m.threads + more == m'.threads;
    FirstHostStays(m.threads, more, m.names, m'.names, m.rules[a].hostname);
  }

  lemma LineAnchored(m: Memory, r: Rule, strtol: string -> Option<int>)
    requires WellNamed(m) && Anchored(m) && HostAdded(Created(m, r), m.nextId, strtol).Some?
    ensures var m' := HostAdded(Created(m, r), m.nextId, strtol).value;
            Anchored(m') && HostsGrow(m, m')
  {
    var c, id := Created(m, r), m.nextId;
    var m' := HostAdded(c, id, strtol).value;
    LineGrows(m, r, strtol);
    hide HostAdded, FirstHost, FirstSlash, HostsGrow;
    forall a | a in m'.state.actions && a in m'.rules && FirstSlash(m'.rules[a].hostname) != Some(0)
      ensures FirstHost(m'.threads, m'.names, m'.rules[a].hostname) == Some(m'.state.actions[a].host)
    {
      if a == id { OwnAnchor(m, r, strtol); } else { AnchoredStays(m, m', a); }
    }
  }

  /** A line adds its own action, touches no other one, and adds hosts at the end of the list only. */
  lemma LineGrows(m: Memory, r: Rule, strtol: string -> Option<int>)
    requires WellNamed(m) && HostAdded(Created(m, r), m.nextId, strtol).Some?
    ensures var m' := HostAdded(Created(m, r), m.nextId, strtol).value;
            && HostsGrow(m, m') && m'.rules == m.rules[m.nextId := r]
            && m.nextId !in m.state.actions
            && forall a | a in m'.state.actions && a != m.nextId ::
                 a in m.state.actions && m'.state.actions[a] == m.state.actions[a]
  {
    hide FirstHost;
  }

  lemma OwnAnchor(m: Memory, r: Rule, strtol: string -> Option<int>)
    requires WellNamed(m) && HostAdded(Created(m, r), m.nextId, strtol).Some? && FirstSlash(r.hostname) != Some(0)
    ensures var m' := HostAdded(Created(m, r), m.nextId, strtol).value;
            && m.nextId in m'.state.actions
            && FirstHost(m'.threads, m'.names, r.hostname) == Some(m'.state.actions[m.nextId].host)
  {
    hide FirstHost, FirstSlash, HostMatches, NewHostName;
    var c, id := Created(m, r), m.nextId;
    if FirstHost(c.threads, c.names, r.hostname).None? {
      NewHostMatches(r.hostname, strtol);
      FirstHostNew(c.threads, c.names, id + 1, HostAdded(c, id, strtol).value.names, r.hostname);
    }
  }

  lemma {:induction false} ParsedAnchored(m: Memory, p: Parse, cfg: seq<Rule>, strtol: string -> Option<int>)
    requires Grown(m, p) && Anchored(p.memory) && Parsed(p, cfg, strtol).Some?
    ensures Anchored(Parsed(p, cfg, strtol).value.memory) && HostsGrow(p.memory, Parsed(p, cfg, strtol).value.memory)
    decreases |cfg|
  {
    if cfg != [] {
      hide Linked, Tracked, Listed, Anchored, HostAdded;
      var m' := HostAdded(Created(p.memory, cfg[0]), p.memory.nextId, strtol).value;
      LineKeeps(m, p, cfg[0], strtol);
      LineListed(m, p, cfg[0], strtol);
      LineAnchored(p.memory, cfg[0], strtol);
      ParsedAnchored(m, Parse(m', p.list + [p.memory.nextId]), cfg[1..], strtol);
    } else {
      assert HostsGrow(p.memory, p.memory);
    }
  }

  lemma DetachAllAnchored(base: State, m: Memory, ids: seq<ActionId>)
    requires Anchored(m) && ValidMemory(m) && Tracked(base, m) && Distinct(ids)
    requires forall a | a in ids :: a in m.state.actions
    ensures Anchored(DetachAll(m, ids))
    decreases |ids|
  {
    hide ValidMemory, Tracked, Linked;
    if ids != [] {
      DetachKeeps(base, m, ids[0]);
      DetachAllAnchored(base, Detach(m, ids[0]), ids[1..]);
    }
  }

  lemma ReloadAnchored(m: Memory, olds: seq<ActionId>, cfg: seq<Rule>, strtol: string -> Option<int>)
    requires Quiescent(m, olds) && Anchored(m) && Merged(m, olds, cfg, strtol).Some?
    ensures var r := Merged(m, olds, cfg, strtol).value;
            Anchored(r.memory) && HostsGrow(m, r.memory)
  {
    hide ValidMemory, Tracked, Match, Listed, HostAdded, Parsed;
    var p := ParsedNew(m, cfg, strtol).value;
    var x := Match(p.list, olds, p.memory.rules);
    ReloadParsed(m, cfg, strtol);
    StartsGrown(m);
    ParsedAnchored(m, Parse(m.(log := []), []), cfg, strtol);
    ParsedApart(m, olds, p);
    SplitDistinct(p.list, olds, p.memory.rules);
    DroppedAreNew(p.list, olds, p.memory.rules);
    DetachAllKeeps(m.state, p.memory, x.dropped);
    DetachAllAnchored(m.state, p.memory, x.dropped);
    DetachAllAnchored(m.state, DetachAll(p.memory, x.dropped), x.left);
    DetachAllRules(p.memory, x.dropped);
    DetachAllRules(DetachAll(p.memory, x.dropped), x.left);
  }

  /** All counting up happens while parsing, all counting down afterwards. */
  lemma ReloadLog(m: Memory, olds: seq<ActionId>, cfg: seq<Rule>, strtol: string -> Option<int>)
    requires ValidMemory(m) && Merged(m, olds, cfg, strtol).Some?
    ensures UpsThenDowns(Merged(m, olds, cfg, strtol).value.memory.log, |cfg|)
  {
    hide ValidMemory, Tracked, Match, DetachAll, Parsed;
    var p := ParsedNew(m, cfg, strtol).value;
    var x := Match(p.list, olds, p.memory.rules);
    ReloadParsed(m, cfg, strtol);
    DetachAllLog(p.memory, x.dropped);
    DetachAllLog(DetachAll(p.memory, x.dropped), x.left);
  }

  lemma {:induction false} KeysAt(s: seq<ActionId>, rules: Rules, i: nat)
    requires i < |s|
    ensures |Keys(s, rules)| == |s| && Keys(s, rules)[i] == RuleKey(rules, s[i])
  {
    KeysLength(s, rules);
    if i > 0 { KeysAt(s[1..], rules, i - 1); }
  }

  lemma {:induction false} KeysLength(s: seq<ActionId>, rules: Rules)
    ensures |Keys(s, rules)| == |s|
  {
    if s != [] { KeysLength(s[1..], rules); }
  }

  lemma {:induction false} CfgKeysAt(cfg: seq<Rule>, i: nat)
    requires i < |cfg|
    ensures |CfgKeys(cfg)| > i && CfgKeys(cfg)[i] == KeyOf(cfg[i])
  {
    if i > 0 { CfgKeysAt(cfg[1..], i - 1); }
  }

  lemma {:induction false} ReverseAt<T>(s: seq<T>, i: nat)
    requires i < |s|
    ensures |Reverse(s)| == |s| && Reverse(s)[|s| - 1 - i] == s[i]
  {
    if |s| > 1 { ReverseAt(s[1..], if i == 0 then 0 else i - 1); }
  }

  /** Every line of the new configuration has a live action of its key in the end. */
  lemma LineServed(m: Memory, olds: seq<ActionId>, cfg: seq<Rule>, strtol: string -> Option<int>, i: nat)
      returns (a: ActionId)
    requires Quiescent(m, olds) && Merged(m, olds, cfg, strtol).Some? && i < |cfg|
    ensures var r := Merged(m, olds, cfg, strtol).value;
            a in r.memory.state.actions && a in r.memory.rules && KeyOf(r.memory.rules[a]) == KeyOf(cfg[i])
  {
    hide ValidMemory, Tracked, Keys, CfgKeys, Merged, Reverse, Distinct;
    var r := Merged(m, olds, cfg, strtol).value;
    ReloadKeys(m, olds, cfg, strtol);
    ReloadEvolves(m, olds, cfg, strtol);
    CfgKeysAt(cfg, i);
    ReverseAt(CfgKeys(cfg), i);
    KeysLength(r.list, r.memory.rules);
    var j := |r.list| - 1 - i;
    KeysAt(r.list, r.memory.rules, j);
    a := r.list[j];
  }

  /** A host's reference count is positive after every single increment and decrement of a reload,
      so that its thread's unlocked exit test cannot fire, exactly when it is used before the
      reload and after it. */
  lemma UsedThroughout(m: Memory, olds: seq<ActionId>, cfg: seq<Rule>, strtol: string -> Option<int>, h: HostId)
    requires Quiescent(m, olds) && Merged(m, olds, cfg, strtol).Some? && h in m.state.hosts
    ensures var r, before := Merged(m, olds, cfg, strtol).value.memory, m.state.hosts[h].refcnt;
            && h in r.state.hosts
            && ((forall n | 0 <= n <= |r.log| :: before + Net(r.log[..n], h) > 0) <==>
                before > 0 && r.state.hosts[h].refcnt > 0)
  {
    hide Merged, Tracked, WellNamed, Net;
    var r := Merged(m, olds, cfg, strtol).value.memory;
    ReloadEvolves(m, olds, cfg, strtol);
    ReloadLog(m, olds, cfg, strtol);
    TrackedHosts(m.state, r);
    FinalCount(m.state, r, h);
    assert r.log[..|r.log|] == r.log && r.log[..0] == [] && Net([], h) == 0 by { NetOfNothing(h); }
    if m.state.hosts[h].refcnt > 0 && r.state.hosts[h].refcnt > 0 {
      forall n | 0 <= n <= |r.log| ensures m.state.hosts[h].refcnt + Net(r.log[..n], h) > 0 {
        NeverDips(r.log, |cfg|, n, h, m.state.hosts[h].refcnt);
      }
    }
  }

  lemma TrackedHosts(base: State, m: Memory)
    requires Tracked(base, m)
    ensures base.hosts.Keys <= m.state.hosts.Keys
  {
    HostsStay(base, m.state);
  }

  lemma NetOfNothing(h: HostId)
    ensures Net([], h) == 0
  {}

  /** New actions are linked to the first host of the old list that their name matches, if any. */
  ghost predicate LinkedFirst(m: Memory, p: Parse) {
    && HostsGrow(m, p.memory)
    && forall a | a in p.list && a in p.memory.state.actions && a in p.memory.rules ::
         LinksTo(FirstHost(m.threads, m.names, p.memory.rules[a].hostname), p.memory.state.actions[a])
  }

  predicate LinksTo(h: Option<HostId>, a: Action) { h.Some? ==> a.host == h.value }

  lemma LineLinkedFirst(m: Memory, p: Parse, r: Rule, strtol: string -> Option<int>)
    requires Listed(m, p) && LinkedFirst(m, p) && WellNamed(p.memory)
    requires HostAdded(Created(p.memory, r), p.memory.nextId, strtol).Some?
    ensures LinkedFirst(m, Parse(HostAdded(Created(p.memory, r), p.memory.nextId, strtol).value,
            p.list + [p.memory.nextId]))
  {
    hide FirstHost, Distinct;
    var c, id := Created(p.memory, r), p.memory.nextId;
    var m' := HostAdded(c, id, strtol).value;
    var more := c.threads[|m.threads|..];
    assert m.threads + more == c.threads;
    if FirstHost(m.threads, m.names, r.hostname).Some? {
      FirstHostStays(m.threads, more, m.names, c.names, r.hostname);
    }
    assert HostsGrow(m, m');
    forall a | a in p.list + [id] && a in m'.state.actions && a in m'.rules
      ensures LinksTo(FirstHost(m.threads, m.names, m'.rules[a].hostname), m'.state.actions[a])
    {
      if a != id { assert a in p.list && m'.state.actions[a] == p.memory.state.actions[a]; }
    }
  }

  lemma {:induction false} ParsedLinkedFirst(m: Memory, p: Parse, cfg: seq<Rule>, strtol: string -> Option<int>)
    requires Grown(m, p) && LinkedFirst(m, p) && Parsed(p, cfg, strtol).Some?
    ensures LinkedFirst(m, Parsed(p, cfg, strtol).value)
    decreases |cfg|
  {
    hide Linked, Tracked, Listed, LinkedFirst, HostAdded;
    if cfg != [] {
      var m' := HostAdded(Created(p.memory, cfg[0]), p.memory.nextId, strtol).value;
      LineKeeps(m, p, cfg[0], strtol);
      LineListed(m, p, cfg[0], strtol);
      LineLinkedFirst(m, p, cfg[0], strtol);
      ParsedLinkedFirst(m, Parse(m', p.list + [p.memory.nextId]), cfg[1..], strtol);
    }
  }

  /** Whatever of the new actions is alive after the merge is linked as the parser linked it. */
  lemma NewLinkedFirst(m: Memory, olds: seq<ActionId>, cfg: seq<Rule>, strtol: string -> Option<int>, c: ActionId)
    requires Quiescent(m, olds) && Merged(m, olds, cfg, strtol).Some?
    requires var r := Merged(m, olds, cfg, strtol).value.memory;
             c in r.state.actions && c in r.rules && c !in m.state.actions
    ensures var r := Merged(m, olds, cfg, strtol).value.memory;
            LinksTo(FirstHost(m.threads, m.names, r.rules[c].hostname), r.state.actions[c])
  {
    hide ValidMemory, Tracked, Match, Parsed, FirstHost, HostAdded, DetachAll, Distinct, Listed;
    var p := ParsedNew(m, cfg, strtol).value;
    var x := Match(p.list, olds, p.memory.rules);
    ReloadParsed(m, cfg, strtol);
    StartsGrown(m);
    assert LinkedFirst(m, Parse(m.(log := []), [])) by { StartsLinkedFirst(m); }
    ParsedLinkedFirst(m, Parse(m.(log := []), []), cfg, strtol);
    DetachAllRules(p.memory, x.dropped);
    DetachAllRules(DetachAll(p.memory, x.dropped), x.left);
    DetachAllActions(p.memory, x.dropped);
    DetachAllActions(DetachAll(p.memory, x.dropped), x.left);
    ParsedApart(m, olds, p);
  }

  lemma StartsLinkedFirst(m: Memory)
    requires ValidMemory(m)
    ensures LinkedFirst(m, Parse(m.(log := []), []))
  {}

  lemma {:induction false} DetachAllActions(m: Memory, ids: seq<ActionId>)
    ensures forall a | a in DetachAll(m, ids).state.actions ::
              a in m.state.actions && DetachAll(m, ids).state.actions[a] == m.state.actions[a]
    decreases |ids|
  {
    if ids != [] && Linkable(m.state, ids[0]) { DetachAllActions(Detach(m, ids[0]), ids[1..]); }
  }

  /** The line will be served through this host: its name finds the host in the list before the
      reload, with case ignored and by prefix for a mask, and every live action it could reuse is
      linked there already. */
  ghost predicate Serves(m: Memory, r: Rule, h: HostId) {
    && FirstHost(m.threads, m.names, r.hostname) == Some(h)
    && forall a | a in m.state.actions && a in m.rules && KeyOf(m.rules[a]) == KeyOf(r) :: m.state.actions[a].host == h
  }

  /** Between reloads the second condition holds of itself, but for names that begin with a slash. */
  lemma AnchoredServes(m: Memory, r: Rule, h: HostId)
    requires Anchored(m) && FirstHost(m.threads, m.names, r.hostname) == Some(h) && FirstSlash(r.hostname) != Some(0)
    ensures Serves(m, r, h)
  {
    hide FirstHost, FirstSlash;
    forall a | a in m.state.actions && a in m.rules && KeyOf(m.rules[a]) == KeyOf(r)
      ensures m.state.actions[a].host == h
    {
      assert m.rules[a].hostname == r.hostname;
    }
  }

  /** A host in use that a line of the new configuration is served through is never seen unused, at
      any point of the reload. */
  lemma SharedHostNeverUnused(m: Memory, olds: seq<ActionId>, cfg: seq<Rule>, strtol: string -> Option<int>,
                              h: HostId, i: nat, n: nat)
    requires Quiescent(m, olds) && Merged(m, olds, cfg, strtol).Some?
    requires h in m.state.hosts && m.state.hosts[h].refcnt > 0 && i < |cfg| && Serves(m, cfg[i], h)
    requires n <= |Merged(m, olds, cfg, strtol).value.memory.log|
    ensures m.state.hosts[h].refcnt + Net(Merged(m, olds, cfg, strtol).value.memory.log[..n], h) > 0
  {
    hide Merged, Tracked, WellNamed, FirstHost, Net;
    var r := Merged(m, olds, cfg, strtol).value;
    ReloadEvolves(m, olds, cfg, strtol);
    var c := LineServed(m, olds, cfg, strtol, i);
    if c in m.state.actions {
      KeptRule(m, olds, cfg, strtol, c);
      KeptHost(m.state, r.memory, c);
    } else {
      NewLinkedFirst(m, olds, cfg, strtol, c);
    }
    assert r.memory.state.actions[c].host == h;
    LinkedPositive(r.memory.state, c);
    UsedThroughout(m, olds, cfg, strtol, h);
  }

  /** Every live action in the end has the key of some line. */
  lemma ActionHasLine(m: Memory, olds: seq<ActionId>, cfg: seq<Rule>, strtol: string -> Option<int>, a: ActionId)
    returns (i: nat)
    requires Quiescent(m, olds) && Merged(m, olds, cfg, strtol).Some?
    requires a in Merged(m, olds, cfg, strtol).value.memory.state.actions
    ensures var r := Merged(m, olds, cfg, strtol).value.memory;
            i < |cfg| && a in r.rules && KeyOf(r.rules[a]) == KeyOf(cfg[i])
  {
    hide ValidMemory, Tracked, Keys, CfgKeys, Merged, Reverse, Distinct;
    var r := Merged(m, olds, cfg, strtol).value;
    ReloadKeys(m, olds, cfg, strtol);
    ReloadEvolves(m, olds, cfg, strtol);
    KeysLength(r.list, r.memory.rules);
    ReverseLength(CfgKeys(cfg));
    CfgKeysLength(cfg);
    var j :| 0 <= j < |r.list| && r.list[j] == a;
    KeysAt(r.list, r.memory.rules, j);
    i := |cfg| - 1 - j;
    CfgKeysAt(cfg, i);
    ReverseAt(CfgKeys(cfg), i);
  }

  lemma {:induction false} ReverseLength<T>(s: seq<T>)
    ensures |Reverse(s)| == |s|
  {
    if s != [] { ReverseLength(s[1..]); }
  }

  lemma {:induction false} CfgKeysLength(cfg: seq<Rule>)
    ensures |CfgKeys(cfg)| == |cfg|
  {
    if cfg != [] { CfgKeysLength(cfg[1..]); }
  }

  /** What the host list finds after it has grown, it found before, if that is an old host. */
  lemma FoundBefore(m: Memory, m': Memory, hostname: string, h: HostId)
    requires HostsGrow(m, m') && h in m.threads && FirstHost(m'.threads, m'.names, hostname) == Some(h)
    ensures FirstHost(m.threads, m.names, hostname) == Some(h)
  {
    hide HostMatches, FirstHost;
    var more := m'.threads[|m.threads|..];
    assert m.threads + more == m'.threads;
    FirstHostMatches(m'.threads, m'.names, hostname);
    FirstHostIsFirst(m.threads, m.names, hostname);
    var i :| 0 <= i < |m.threads| && m.threads[i] == h;
    assert HostMatches(m.names[m.threads[i]].name, hostname);
    FirstHostStays(m.threads, more, m.names, m'.names, hostname);
  }

  lemma FirstHostMatches(threads: seq<HostId>, names: map<HostId, HostName>, hostname: string)
    requires FirstHost(threads, names, hostname).Some?
    ensures var h := FirstHost(threads, names, hostname).value;
            h in names && HostMatches(names[h].name, hostname)
  {}

  /** The condition on the new configuration alone: between reloads, and for names that do not begin
      with a slash, the count of a host in use stays positive throughout the reload if and only if
      some line's name finds that host in the list as it was before. */
  lemma UsedExactly(m: Memory, olds: seq<ActionId>, cfg: seq<Rule>, strtol: string -> Option<int>, h: HostId)
    requires Quiescent(m, olds) && Anchored(m) && Merged(m, olds, cfg, strtol).Some?
    requires h in m.state.hosts && m.state.hosts[h].refcnt > 0
    requires forall i | 0 <= i < |cfg| :: FirstSlash(cfg[i].hostname) != Some(0)
    ensures var log := Merged(m, olds, cfg, strtol).value.memory.log;
            (forall n | 0 <= n <= |log| :: m.state.hosts[h].refcnt + Net(log[..n], h) > 0)
            <==> exists i :: 0 <= i < |cfg| && FirstHost(m.threads, m.names, cfg[i].hostname) == Some(h)
  {
    hide Merged, Tracked, FirstHost, Net, FirstSlash, Distinct;
    var r := Merged(m, olds, cfg, strtol).value.memory;
    UsedThroughout(m, olds, cfg, strtol, h);
    if i: nat :| i < |cfg| && FirstHost(m.threads, m.names, cfg[i].hostname) == Some(h) {
      AnchoredServes(m, cfg[i], h);
      forall n | 0 <= n <= |r.log| ensures m.state.hosts[h].refcnt + Net(r.log[..n], h) > 0 {
        SharedHostNeverUnused(m, olds, cfg, strtol, h, i, n);
      }
    }
    if r.state.hosts[h].refcnt > 0 {
      ReloadEvolves(m, olds, cfg, strtol);
      var c := SomeLinked(r.state, h);
      var i := ActionHasLine(m, olds, cfg, strtol, c);
      ReloadAnchored(m, olds, cfg, strtol);
      assert r.rules[c].hostname == cfg[i].hostname;
      FoundBefore(m, r, cfg[i].hostname, h);
    }
  }

  lemma SomeLinked(s: State, h: HostId) returns (a: ActionId)
    requires Linked(s) && h in s.hosts && s.hosts[h].refcnt > 0
    ensures a in s.actions && s.actions[a].host == h
  {
    a := s.hosts[h].actions[0];
  }

  lemma KeptHost(base: State, m: Memory, a: ActionId)
    requires Tracked(base, m) && a in base.actions && a in m.state.actions
    ensures m.state.actions[a] == base.actions[a]
  {}

  lemma KeptRule(m: Memory, olds: seq<ActionId>, cfg: seq<Rule>, strtol: string -> Option<int>, a: ActionId)
    requires Quiescent(m, olds) && Merged(m, olds, cfg, strtol).Some? && a in m.state.actions
    ensures var r := Merged(m, olds, cfg, strtol).value.memory;
            a in m.rules && a in r.rules && r.rules[a] == m.rules[a]
  {
    hide ValidMemory, Tracked, Match, Parsed, DetachAll;
    var p := ParsedNew(m, cfg, strtol).value;
    ReloadParsed(m, cfg, strtol);
    var x := Match(p.list, olds, p.memory.rules);
    DetachAllRules(p.memory, x.dropped);
    DetachAllRules(DetachAll(p.memory, x.dropped), x.left);
  }

  lemma LinkedPositive(s: State, a: ActionId)
    requires Linked(s) && a in s.actions
    ensures s.actions[a].host in s.hosts && s.hosts[s.actions[a].host].refcnt > 0
  {}

  lemma FinalCount(base: State, m: Memory, h: HostId)
    requires Tracked(base, m) && h in m.state.hosts && h in base.hosts
    ensures m.state.hosts[h].refcnt == base.hosts[h].refcnt + Net(m.log, h)
  {}

  // ----- starting threads: the reload as a step of the protocol -----

  /** action_create for every action whose thread does not exist yet. */
  function StartActions(s: State, list: seq<ActionId>, started: set<ActionId>): State
    decreases |list|
  {
    if list == [] then s
    else if list[0] in started || list[0] !in s.actions then StartActions(s, list[1..], started)
    else StartActions(s.(actions := s.actions[list[0] := s.actions[list[0]].(force := true)]), list[1..], started)
  }

  lemma {:induction false} StartActionsEffect(s: State, list: seq<ActionId>, started: set<ActionId>)
    ensures var s' := StartActions(s, list, started);
            && s'.hosts == s.hosts && s'.actions.Keys == s.actions.Keys
            && forall a | a in s.actions ::
                 s'.actions[a] == if a in list && a !in started then s.actions[a].(force := true) else s.actions[a]
    decreases |list|
  {
    if list != [] {
      if list[0] in started || list[0] !in s.actions {
        StartActionsEffect(s, list[1..], started);
      } else {
        StartActionsEffect(s.(actions := s.actions[list[0] := s.actions[list[0]].(force := true)]), list[1..], started);
      }
    }
  }

  /** No thread is inside its read lock. */
  ghost predicate Unlocked(s: State) {
    && (forall h | h in s.hosts :: s.hosts[h].pc.Starting? || s.hosts[h].pc.Idle?)
    && (forall a | a in s.actions :: !s.actions[a].pc.Copying?)
  }

  /** Every live action has its thread, and no thread belongs to an action still to come. */
  ghost predicate Threaded(m: Memory, started: set<ActionId>) {
    m.state.actions.Keys <= started && forall a | a in started :: a < m.nextId
  }

  /** Actions that a reload adds have ids that were never used before. */
  lemma NewIds(m: Memory, olds: seq<ActionId>, cfg: seq<Rule>, strtol: string -> Option<int>)
    requires Quiescent(m, olds) && Merged(m, olds, cfg, strtol).Some?
    ensures var r := Merged(m, olds, cfg, strtol).value.memory;
            m.nextId <= r.nextId && forall a | a in r.state.actions && a !in m.state.actions :: m.nextId <= a
  {
    hide ValidMemory, Tracked, Match, Parsed, DetachAll, Distinct;
    var p := ParsedNew(m, cfg, strtol).value;
    var x := Match(p.list, olds, p.memory.rules);
    ReloadParsed(m, cfg, strtol);
    DetachAllRules(p.memory, x.dropped);
    DetachAllRules(DetachAll(p.memory, x.dropped), x.left);
    DetachAllActions(p.memory, x.dropped);
    DetachAllActions(DetachAll(p.memory, x.dropped), x.left);
  }

  /** Run while no thread is inside its read lock, a reload is the protocol's reload step. */
  lemma ReloadRefinesMerge(m: Memory, olds: seq<ActionId>, cfg: seq<Rule>, strtol: string -> Option<int>,
      started: set<ActionId>)
    requires Quiescent(m, olds) && Merged(m, olds, cfg, strtol).Some? && Threaded(m, started) && Unlocked(m.state)
    ensures var r := Merged(m, olds, cfg, strtol).value;
            Next(m.state, StartActions(r.memory.state, r.list, started), Reload)
  {
    hide Merged, WellNamed, Counted, StartActions, Distinct;
    var r := Merged(m, olds, cfg, strtol).value;
    var s' := StartActions(r.memory.state, r.list, started);
    ReloadEvolves(m, olds, cfg, strtol);
    NewIds(m, olds, cfg, strtol);
    StartActionsEffect(r.memory.state, r.list, started);
    StartedFresh(m.state, r.memory.state, s', m.nextId, started, r.list);
  }

  lemma StartedFresh(s: State, t: State, s': State, nextId: nat, started: set<ActionId>, list: seq<ActionId>)
    requires Evolved(s, t) && Unlocked(s) && s.actions.Keys <= started && (forall a | a in started :: a < nextId)
    requires (forall a | a in t.actions :: a in list) && forall a | a in t.actions && a !in s.actions :: nextId <= a
    requires s'.hosts == t.hosts && s'.actions.Keys == t.actions.Keys
    requires forall a | a in t.actions ::
               s'.actions[a] == if a in list && a !in started then t.actions[a].(force := true) else t.actions[a]
    ensures Next(s, s', Reload)
  {
    hide Linked;
    LinksUntouched(t, s');
  }

  lemma ReloadThreaded(m: Memory, olds: seq<ActionId>, cfg: seq<Rule>, strtol: string -> Option<int>,
      started: set<ActionId>)
    requires Quiescent(m, olds) && Merged(m, olds, cfg, strtol).Some? && Threaded(m, started)
    ensures var r := Merged(m, olds, cfg, strtol).value;
            var s := StartActions(r.memory.state, r.list, started);
            Threaded(r.memory.(state := s), started + s.actions.Keys)
  {
    hide Merged, Linked, Counted, StartActions, Distinct, Evolved;
    var r := Merged(m, olds, cfg, strtol).value;
    ReloadEvolves(m, olds, cfg, strtol);
    NewIds(m, olds, cfg, strtol);
    StartActionsEffect(r.memory.state, r.list, started);
  }

  lemma ReloadStaysAnchored(m: Memory, olds: seq<ActionId>, cfg: seq<Rule>, strtol: string -> Option<int>,
                            started: set<ActionId>)
    requires Quiescent(m, olds) && Merged(m, olds, cfg, strtol).Some? && Anchored(m)
    ensures var r := Merged(m, olds, cfg, strtol).value;
            Anchored(r.memory.(state := StartActions(r.memory.state, r.list, started)))
  {
    hide Merged, StartActions, FirstHost, FirstSlash, ValidMemory, HostsGrow;
    var r := Merged(m, olds, cfg, strtol).value;
    ReloadAnchored(m, olds, cfg, strtol);
    StartActionsEffect(r.memory.state, r.list, started);
  }

  // ----- the loops -----

  /** Every listed host has a thread that was posted since; the other threads were left alone. */
  ghost predicate AllPosted(was: map<HostId, nat>, now: map<HostId, nat>, hosts: seq<HostId>) {
    && now.Keys == was.Keys + (set h | h in hosts)
    && (forall h | h in hosts :: now[h] > if h in was then was[h] else 0)
    && (forall h | h in was :: now[h] >= was[h])
  }

  /** The action is gone and no host refers to it; its host's count has fallen by one, and every
      count is still the number of the actions linked. */
  ghost predicate Released(s: State, s': State, id: ActionId) {
    && Linked(s') && id in s.actions && s'.actions == s.actions - {id}
    && var h := s.actions[id].host;
    && h in s.hosts && s'.hosts.Keys == s.hosts.Keys && s'.hosts[h].refcnt == s.hosts[h].refcnt - 1
    && (forall x | x in s'.hosts :: id !in s'.hosts[x].actions)
    && (forall x | x in s.hosts && x != h :: s'.hosts[x] == s.hosts[x])
  }

  lemma UnlinkReleases(s: State, id: ActionId)
    requires Linked(s) && id in s.actions
    ensures Linkable(s, id) && Released(s, Unlink(s, id), id)
  {
    UnlinkKeeps(s, id);
    hide Distinct, Remove;
    assert id !in Unlink(s, id).actions;
  }

  /** The two temporary lists of merge_config. */
  datatype Temporary = TmpList | NewList

  /** The daemon's globals, and the temporary lists. */
  class Daemon {
    /** strtol with base 0, applied to a whole and non-empty text. */
    const strtol: string -> Option<int>
    var actionList: seq<ActionId>
    var tmpList: seq<ActionId>
    var newList: seq<ActionId>
    var threadList: seq<HostId>
    var names: map<HostId, HostName>
    var rules: Rules
    var state: State
    /** Actions whose thread exists. */
    var started: set<ActionId>
    /** Hosts whose thread exists, each with the number of posts to its semaphore. */
    var posts: map<HostId, nat>
    var nextId: nat
    var log: seq<Event>

    constructor (strtol: string -> Option<int>)
      ensures this.strtol == strtol && actionList == [] && started == {} && log == []
      ensures BetweenReloads()
    {
      this.strtol := strtol;
      actionList, tmpList, newList, threadList, names, rules := [], [], [], [], map[], map[];
      state, started, nextId, log := State(map[], map[]), {}, 0, [];
      posts := map[];
    }

    ghost predicate BetweenReloads()
      reads this
    {
      && Quiescent(Mem(), actionList) && Threaded(Mem(), started) && Anchored(Mem())
      && tmpList == [] && newList == []
    }

    function Mem(): Memory
      reads this
    {
      Memory(state, threadList, names, rules, nextId, log)
    }

    /** host_add's search of the thread list. */
    method FindHost(hostname: string) returns (r: Option<HostId>)
      requires forall h | h in threadList :: h in names
      ensures r == FirstHost(threadList, names, hostname)
    {
      var i := 0;
      while i < |threadList|
        invariant 0 <= i <= |threadList|
        invariant FirstHost(threadList, names, hostname) == FirstHost(threadList[i..], names, hostname)
      {
        if HostMatches(names[threadList[i]].name, hostname) {
          return Some(threadList[i]);
        }
        assert threadList[i..][1..] == threadList[i + 1..];
        i := i + 1;
      }
      return None;
    }

    /** host_add. */
    method HostAdd(id: ActionId) returns (ok: bool)
      requires WellNamed(Mem()) && id in rules
      modifies this`threadList, this`names, this`state, this`nextId, this`log
      ensures match HostAdded(old(Mem()), id, strtol)
              case None => !ok && Mem() == old(Mem())
              case Some(m) => ok && Mem() == m
    {
      var hostname, hasTable := rules[id].hostname, rules[id].tablename.Some?;
      var search := FindHost(hostname);
      match search
      case Some(h) =>
        state, log := Link(state, id, h, hasTable), log + [Up(h)];
        return true;
      case None =>
        match NewHostName(hostname, strtol) {
          case None => return false;
          case Some(record) =>
            var h := nextId;
            state, log := LinkNew(state, id, h, hasTable), log + [Up(h)];
            names, threadList, nextId := names[h := record], threadList + [h], nextId + 1;
            return true;
        }
    }

    /** action_add's search for the same line. */
    method FindAction(r: Rule) returns (eexist: bool)
      ensures eexist == Duplicate(actionList, rules, r)
    {
      var i := 0;
      while i < |actionList|
        invariant 0 <= i <= |actionList|
        invariant Duplicate(actionList, rules, r) == Duplicate(actionList[i..], rules, r)
      {
        if actionList[i] in rules && rules[actionList[i]] == r {
          return true;
        }
        assert actionList[i..][1..] == actionList[i + 1..];
        i := i + 1;
      }
      return false;
    }

    /** One line of the configuration file: action_add, then host_add. */
    method Line(r: Rule) returns (ok: bool)
      requires WellNamed(Mem())
      modifies this`actionList, this`threadList, this`names, this`rules, this`state, this`nextId, this`log
      ensures
        if !WellFormed(r) || Duplicate(old(actionList), old(rules), r) then !ok
        else match HostAdded(Created(old(Mem()), r), old(nextId), strtol)
          case None => !ok
          case Some(m) => ok && Mem() == m && actionList == old(actionList) + [old(nextId)]
    {
      if !WellFormed(r) { return false; }
      var eexist := FindAction(r);
      if eexist { return false; }
      var id := nextId;
      rules, nextId := rules[id := r], nextId + 1;
      actionList := actionList + [id];
      assert Mem() == Created(old(Mem()), r);
      ok := HostAdd(id);
    }

    /** parse_config. */
    method ParseConfig(cfg: seq<Rule>) returns (ok: bool)
      requires WellNamed(Mem()) && actionList == [] && log == []
      requires ValidMemory(Mem())
      modifies this`actionList, this`threadList, this`names, this`rules, this`state, this`nextId, this`log
      ensures match ParsedNew(old(Mem()), cfg, strtol)
              case None => !ok
              case Some(p) => ok && Mem() == p.memory && actionList == p.list
    {
      hide ValidMemory, Tracked, Listed, HostAdded;
      StartsGrown(Mem());
      for i := 0 to |cfg|
        invariant Grown(old(Mem()), Parse(Mem(), actionList))
        invariant ParsedNew(old(Mem()), cfg, strtol) == Parsed(Parse(Mem(), actionList), cfg[i..], strtol)
      {
        assert cfg[i..][0] == cfg[i] && cfg[i..][1..] == cfg[i + 1..];
        GrownNamed(old(Mem()), Parse(Mem(), actionList));
        ghost var p := Parse(Mem(), actionList);
        ok := Line(cfg[i]);
        if !ok { return; }
        LineKeeps(old(Mem()), p, cfg[i], strtol);
        LineListed(old(Mem()), p, cfg[i], strtol);
      }
      return true;
    }

    /** action_del: unlink the action from its host, take it off its list and free it. Its host's
        count falls by one and goes on being the number of the actions linked to it. */
    method ActionDel(id: ActionId, list: Temporary)
      requires Linked(state) && id in state.actions
      modifies this`state, this`log, this`tmpList, this`newList
      ensures Released(old(state), state, id)
      ensures old(Linkable(state, id)) && Mem() == Detach(old(Mem()), id)
      ensures tmpList == if list.TmpList? then Remove(old(tmpList), id) else old(tmpList)
      ensures newList == if list.NewList? then Remove(old(newList), id) else old(newList)
    {
      UnlinkReleases(state, id);
      ghost var after := Unlink(state, id);
      hide Released, Linked;
      var thr := state.actions[id].host;
      var host := state.hosts[thr];
      log := log + [Down(thr)];
      state := state.(hosts := state.hosts[thr := host.(refcnt := host.refcnt - 1,
          actions := Remove(host.actions, id))]);
      if list.TmpList? { tmpList := Remove(tmpList, id); } else { newList := Remove(newList, id); }
      state := state.(actions := state.actions - {id});
      assert state == after;
    }

    /** Moves the whole action list to the end of a temporary list, one action at a time. */
    method MoveActions(list: Temporary) returns (count: nat)
      modifies this`actionList, this`tmpList, this`newList
      ensures actionList == [] && count == |old(actionList)|
      ensures tmpList == if list.TmpList? then old(tmpList) + old(actionList) else old(tmpList)
      ensures newList == if list.NewList? then old(newList) + old(actionList) else old(newList)
    {
      count := 0;
      while actionList != []
        invariant count + |actionList| == |old(actionList)|
        invariant if list.TmpList? then tmpList + actionList == old(tmpList) + old(actionList)
                else tmpList == old(tmpList)
        invariant if list.NewList? then newList + actionList == old(newList) + old(actionList)
                else newList == old(newList)
        decreases |actionList|
      {
        var act := actionList[0];
        actionList := actionList[1..];
        if list.TmpList? { tmpList := tmpList + [act]; } else { newList := newList + [act]; }
        count := count + 1;
      }
    }

    /** clear_config: delete the first action until the list is empty. */
    method ClearConfig() returns (count: nat)
      requires ValidMemory(Mem()) && Distinct(tmpList) && forall a | a in tmpList :: a in state.actions
      modifies this`state, this`log, this`tmpList, this`newList
      ensures tmpList == [] && newList == old(newList)
      ensures Mem() == DetachAll(old(Mem()), old(tmpList)) && count == |old(tmpList)|
    {
      hide Linked, WellNamed, Released;
      count := 0;
      while tmpList != []
        invariant ValidMemory(Mem()) && Distinct(tmpList) && forall a | a in tmpList :: a in state.actions
        invariant DetachAll(Mem(), tmpList) == DetachAll(old(Mem()), old(tmpList)) && newList == old(newList)
        invariant count + |tmpList| == |old(tmpList)|
        decreases |tmpList|
      {
        var act := tmpList[0];
        DetachValid(Mem(), act);
        ActionDel(act, TmpList);
        count := count + 1;
      }
    }

    /** The inner loop of merge_config: the first old action that agrees in type, host name,
        table and anchor. */
    method FindMatch(act: ActionId, tmp: seq<ActionId>) returns (r: Option<nat>)
      requires act in rules && forall a | a in tmp :: a in rules
      ensures r.Some? ==> r.value < |tmp| && SameLine(rules[tmp[r.value]], rules[act])
      ensures forall j | 0 <= j < (if r.Some? then r.value else |tmp|) :: !SameLine(rules[tmp[j]], rules[act])
      ensures r == FirstWith(tmp, RuleKey(rules, act), rules)
    {
      var i := 0;
      while i < |tmp|
        invariant 0 <= i <= |tmp|
        invariant forall j | 0 <= j < i :: !SameLine(rules[tmp[j]], rules[act])
        invariant forall j | 0 <= j < i :: RuleKey(rules, tmp[j]) != RuleKey(rules, act)
      {
        var x, y := rules[tmp[i]], rules[act];
        if x.typ == y.typ && x.hostname == y.hostname && x.tablename == y.tablename && x.anchor == y.anchor {
          return Some(i);
        }
        i := i + 1;
      }
      return None;
    }

    /** The two nested loops of merge_config: every pass takes its action off the new list, either
        into the action list or by deleting it for a live one, so that the new list ends empty. */
    method MergeLists()
      requires ValidMemory(Mem()) && actionList == [] && Distinct(newList)
      requires (forall a | a in newList :: a in state.actions) && (forall a | a in newList + tmpList :: a in rules)
      modifies this`actionList, this`tmpList, this`newList, this`state, this`log
      ensures newList == []
      ensures var x := Match(old(newList), old(tmpList), rules);
              Mem() == DetachAll(old(Mem()), x.dropped) && actionList == Reverse(x.chosen) && tmpList == x.left
    {
      hide ValidMemory, FirstWith, Match, DetachAll, Reverse, Detach, Linked, Released, Linkable, Without, Remove;
      var next := newList;
      ghost var done := [];
      ghost var x := Match(newList, tmpList, rules);
      NothingYet(x.chosen);
      while next != []
        invariant ValidMemory(Mem()) && Distinct(next) && newList == next
        invariant (forall a | a in next :: a in state.actions && a in rules) && (forall a | a in tmpList :: a in rules)
        invariant x.chosen == done + Match(next, tmpList, rules).chosen && x.left == Match(next, tmpList, rules).left
        invariant DetachAll(Mem(), Match(next, tmpList, rules).dropped) == DetachAll(old(Mem()), x.dropped)
        invariant actionList == Reverse(done)
        decreases |next|
      {
        var act := next[0];
        var i := FindMatch(act, tmpList);
        MatchStep(next, tmpList, rules);
        RemoveFirst(newList);
        next := next[1..];
        match i
        case Some(j) =>
          var tmpact := tmpList[j];
          ghost var y := Match(next, Without(tmpList, j), rules);
          ChosenStep(done, tmpact, y.chosen);
          WithoutInside(tmpList, j);
          DetachStep(Mem(), act, y.dropped);
          tmpList := Without(tmpList, j);
          actionList := [tmpact] + actionList;
          done := done + [tmpact];
          ValidLinked(Mem());
          ActionDel(act, NewList);
        case None =>
          ChosenStep(done, act, Match(next, tmpList, rules).chosen);
          newList := Remove(newList, act);
          actionList := [act] + actionList;
          done := done + [act];
      }
      MatchEnd(tmpList, rules, Mem(), done);
    }

    /** merge_config up to its assertion that both temporary lists are empty, which never fires. */
    method MergeActions(cfg: seq<Rule>) returns (ok: bool)
      requires Quiescent(Mem(), actionList) && tmpList == [] && newList == []
      modifies this`actionList, this`tmpList, this`newList, this`threadList, this`names, this`rules, this`state,
          this`nextId, this`log
      ensures match Merged(old(Mem()), old(actionList), cfg, strtol)
              case None => !ok
              case Some(r) => ok && actionList == r.list && Mem() == r.memory && tmpList == [] && newList == []
    {
      hide Quiescent, Grown, ParsedNew, Match, DetachAll, Reverse, Distinct, ValidMemory, WellNamed;
      ghost var m, olds := Mem(), actionList;
      var count := MoveActions(TmpList);
      log := [];
      assert tmpList == olds;
      ReloadBegins(m, olds, cfg, strtol);
      assert Mem() == m.(log := []);
      ok := ParseConfig(cfg);
      if !ok { return; }
      ghost var news := actionList;
      count := MoveActions(NewList);
      assert newList == news;
      MergeReady(m, olds, cfg, strtol);
      MergeLists();
      count := ClearConfig();
      if newList != [] || tmpList != [] {
        assert false;
      }
    }

    /** merge_config: reload the configuration; a file that does not parse ends the daemon. Run
        while no thread is inside its lock, the whole is the protocol's reload step. */
    method MergeConfig(cfg: seq<Rule>) returns (ok: bool)
      requires BetweenReloads()
      modifies this
      ensures match Merged(old(Mem()), old(actionList), cfg, strtol)
              case None => !ok
              case Some(r) =>
                && ok && actionList == r.list
                && Mem() == r.memory.(state := StartActions(r.memory.state, r.list, old(started)))
      ensures ok ==> BetweenReloads() && started == old(started) + state.actions.Keys
      ensures ok && old(Unlocked(state)) ==> Next(old(state), state, Reload)
      ensures ok ==> AllPosted(old(posts), posts, threadList)
    {
      hide Quiescent, Merged, StartActions, Threaded, Next, Unlocked, AllPosted, Anchored;
      ghost var m, olds := Mem(), actionList;
      ok := MergeActions(cfg);
      if !ok { return; }
      ReloadDone(m, olds, cfg, strtol, started);
      ReloadThreaded(m, olds, cfg, strtol, started);
      ReloadStaysAnchored(m, olds, cfg, strtol, started);
      if Unlocked(m.state) { ReloadRefinesMerge(m, olds, cfg, strtol, started); }
      ghost var r := Merged(m, olds, cfg, strtol).value;
      ghost var s := StartActions(r.memory.state, r.list, started);
      StartThreads();
      StartHosts();
      assert state == s && started == old(started) + s.actions.Keys;
      assert Mem() == r.memory.(state := s);
    }

    /** The loop that creates the missing host threads. */
    method CreateHostThreads()
      modifies this`posts
      ensures posts.Keys == old(posts.Keys) + set h | h in threadList
      ensures forall h | h in posts :: posts[h] == if h in old(posts) then old(posts)[h] else 0
    {
      for i := 0 to |threadList|
        invariant posts.Keys == old(posts.Keys) + set h | h in threadList[..i]
        invariant forall h | h in posts :: posts[h] == if h in old(posts) then old(posts)[h] else 0
      {
        assert threadList[..i + 1] == threadList[..i] + [threadList[i]];
        if threadList[i] !in posts { posts := posts[threadList[i] := 0]; }
      }
      assert threadList[..|threadList|] == threadList;
    }

    /** Creates the missing host threads, then the loop that makes every one of them run. */
    method StartHosts()
      modifies this`posts
      ensures AllPosted(old(posts), posts, threadList)
    {
      CreateHostThreads();
      ghost var before := posts;
      for i := 0 to |threadList|
        invariant posts.Keys == before.Keys && forall h | h in posts :: posts[h] >= before[h]
        invariant forall h | h in threadList[..i] :: posts[h] > before[h]
      {
        assert threadList[..i + 1] == threadList[..i] + [threadList[i]];
        posts := posts[threadList[i] := posts[threadList[i]] + 1];
      }
      assert threadList[..|threadList|] == threadList;
    }

    /** The loop that creates the missing action threads. */
    method StartThreads()
      requires forall a | a in actionList :: a in state.actions
      modifies this`state, this`started
      ensures state == StartActions(old(state), actionList, old(started))
      ensures started == old(started) + set a | a in actionList
    {
      for i := 0 to |actionList|
        invariant StartActions(old(state), actionList, old(started)) ==
                StartActions(state, actionList[i..], old(started))
        invariant started == old(started) + set a | a in actionList[..i]
        invariant forall a | a in actionList :: a in state.actions
        invariant forall a | a in started - old(started) :: a in state.actions && state.actions[a].force
      {
        var a := actionList[i];
        assert actionList[i..][0] == a && actionList[i..][1..] == actionList[i + 1..];
        assert actionList[..i + 1] == actionList[..i] + [a];
        if a !in started {
          state := state.(actions := state.actions[a := state.actions[a].(force := true)]);
          started := started + {a};
        } else {
          assert a !in old(started) ==> state.actions == state.actions[a := state.actions[a].(force := true)];
        }
      }
      assert actionList[..|actionList|] == actionList;
    }
  }

  lemma {:induction false} ReverseSnoc<T>(s: seq<T>, x: T)
    ensures Reverse(s + [x]) == [x] + Reverse(s)
  {
    if s != [] {
      assert (s + [x])[1..] == s[1..] + [x];
      ReverseSnoc(s[1..], x);
    }
  }

  /** One more action chosen. */
  lemma ChosenStep(done: seq<ActionId>, a: ActionId, rest: seq<ActionId>)
    ensures done + ([a] + rest) == (done + [a]) + rest && Reverse(done + [a]) == [a] + Reverse(done)
  {
    ReverseSnoc(done, a);
  }

  lemma RemoveFirst(s: seq<ActionId>)
    requires s != []
    ensures Remove(s, s[0]) == s[1..]
  {}

  lemma WithoutInside(s: seq<ActionId>, i: nat)
    requires i < |s|
    ensures forall a | a in Without(s, i) :: a in s
  {}

  lemma NothingYet<T>(s: seq<T>)
    ensures [] + s == s && Reverse<T>([]) == []
  {}

  lemma MatchStep(news: seq<ActionId>, olds: seq<ActionId>, rules: Rules)
    requires news != []
    ensures var x := Match(news, olds, rules);
            match FirstWith(olds, RuleKey(rules, news[0]), rules)
            case Some(j) =>
              var y := Match(news[1..], Without(olds, j), rules);
              x.chosen == [olds[j]] + y.chosen && x.dropped == [news[0]] + y.dropped && x.left == y.left
            case None =>
              var y := Match(news[1..], olds, rules);
              x.chosen == [news[0]] + y.chosen && x.dropped == y.dropped && x.left == y.left
  {}

  lemma MatchEnd(olds: seq<ActionId>, rules: Rules, m: Memory, done: seq<ActionId>)
    ensures Match([], olds, rules) == Matching([], [], olds) && DetachAll(m, []) == m && done + [] == done
  {}

  lemma DetachStep(m: Memory, a: ActionId, rest: seq<ActionId>)
    requires ValidMemory(m) && a in m.state.actions
    ensures Linkable(m.state, a) && ValidMemory(Detach(m, a))
    ensures DetachAll(m, [a] + rest) == DetachAll(Detach(m, a), rest)
    ensures Detach(m, a).state.actions.Keys == m.state.actions.Keys - {a}
  {
    DetachValid(m, a);
    hide ValidMemory;
    assert ([a] + rest)[1..] == rest;
  }

  lemma ReloadBegins(m: Memory, olds: seq<ActionId>, cfg: seq<Rule>, strtol: string -> Option<int>)
    requires Quiescent(m, olds)
    ensures ValidMemory(m.(log := [])) && WellNamed(m.(log := []))
    ensures ParsedNew(m.(log := []), cfg, strtol) == ParsedNew(m, cfg, strtol)
  {}

  lemma MergeReady(m: Memory, olds: seq<ActionId>, cfg: seq<Rule>, strtol: string -> Option<int>)
    requires Quiescent(m, olds) && ParsedNew(m, cfg, strtol).Some?
    ensures var p := ParsedNew(m, cfg, strtol).value;
            && ValidMemory(p.memory) && Distinct(p.list)
            && (forall a | a in p.list :: a in p.memory.state.actions)
            && (forall a | a in p.list + olds :: a in p.memory.rules)
            && var x := Match(p.list, olds, p.memory.rules);
            && var m' := DetachAll(p.memory, x.dropped);
            && ValidMemory(m') && Distinct(x.left) && forall a | a in x.left :: a in m'.state.actions
  {
    hide ValidMemory, Tracked, ParsedNew;
    ReloadParsed(m, cfg, strtol);
    var p := ParsedNew(m, cfg, strtol).value;
    var x := Match(p.list, olds, p.memory.rules);
    ParsedApart(m, olds, p);
    SplitDistinct(p.list, olds, p.memory.rules);
    DroppedAreNew(p.list, olds, p.memory.rules);
    DetachAllKeeps(m.state, p.memory, x.dropped);
  }

  lemma ReloadDone(m: Memory, olds: seq<ActionId>, cfg: seq<Rule>, strtol: string -> Option<int>,
      started: set<ActionId>)
    requires Quiescent(m, olds) && Merged(m, olds, cfg, strtol).Some?
    ensures var r := Merged(m, olds, cfg, strtol).value;
            var s := StartActions(r.memory.state, r.list, started);
            && Quiescent(r.memory.(state := s), r.list) && (forall a | a in r.list :: a in r.memory.state.actions)
            && (set a | a in r.list) == s.actions.Keys
  {
    hide Merged, ValidMemory, Tracked, StartActions, Distinct;
    ReloadEvolves(m, olds, cfg, strtol);
    var r := Merged(m, olds, cfg, strtol).value;
    StartKeepsQuiescent(r.memory, r.list, started);
  }

  lemma StartKeepsQuiescent(m: Memory, list: seq<ActionId>, started: set<ActionId>)
    requires Quiescent(m, list)
    ensures Quiescent(m.(state := StartActions(m.state, list, started)), list)
    ensures StartActions(m.state, list, started).actions.Keys == m.state.actions.Keys
  {
    hide Linked;
    StartActionsEffect(m.state, list, started);
    LinksUntouched(m.state, StartActions(m.state, list, started));
  }

  lemma ValidLinked(m: Memory)
    requires ValidMemory(m)
    ensures Linked(m.state)
  {}

  lemma GrownNamed(m: Memory, p: Parse)
    requires Grown(m, p)
    ensures WellNamed(p.memory)
  {}

  lemma DetachValid(m: Memory, id: ActionId)
    requires ValidMemory(m) && id in m.state.actions
    ensures Linkable(m.state, id) && ValidMemory(Detach(m, id))
  {
    UnlinkKeeps(m.state, id);
    hide Linked;
  }
}
