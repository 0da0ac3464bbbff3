/** Reloading filterdns: parse the new configuration next to the live one, keep every live
    action that the new configuration still asks for, and drop the rest. Objects are named
    by their addresses (ids); the queues hold addresses. */
module MergeConfig {
  import opened Ascii
  import opened Wrappers
  import opened FilterDns

  /** One configuration line. */
  datatype Rule = Rule(typ: int, hostname: string, tablename: Option<string>, anchor: Option<string>,
                       pipe: int, cmd: Option<string>)

  /** What merge_config compares: neither the pipe nor the command. */
  datatype Key = Key(typ: int, hostname: string, tablename: Option<string>, anchor: Option<string>)

  function KeyOf(r: Rule): Key {
    Key(r.typ, r.hostname, r.tablename, r.anchor)
  }

  /** Two lines that ask for the same: type, host name, table and anchor. */
  predicate SameLine(r: Rule, q: Rule) {
    r.typ == q.typ && r.hostname == q.hostname && r.tablename == q.tablename && r.anchor == q.anchor
  }

  lemma KeysAgree(r: Rule, q: Rule)
    ensures KeyOf(r) == KeyOf(q) <==> SameLine(r, q)
  {}

  // ----- matching the new list against the old one -----

  type Rules = map<ActionId, Rule>

  function RuleKey(rules: Rules, a: ActionId): Key {
    if a in rules then KeyOf(rules[a]) else Key(0, "", None, None)
  }

  function FirstWith(olds: seq<ActionId>, k: Key, rules: Rules): (r: Option<nat>)
    ensures r.Some? ==> r.value < |olds| && RuleKey(rules, olds[r.value]) == k
    ensures r.Some? ==> forall i | 0 <= i < r.value :: RuleKey(rules, olds[i]) != k
    ensures r.None? ==> forall i | 0 <= i < |olds| :: RuleKey(rules, olds[i]) != k
  {
    if olds == [] then None
    else if RuleKey(rules, olds[0]) == k then Some(0)
    else match FirstWith(olds[1..], k, rules)
      case Some(i) => Some(i + 1)
      case None => None
  }

  function Without<T>(s: seq<T>, i: nat): seq<T>
    requires i < |s|
  {
    s[..i] + s[i + 1..]
  }

  /** `chosen` serves the new list position by position, `dropped` are the new actions that
      a live one replaces, `left` the live ones that no rule asks for. */
  datatype Matching = Matching(chosen: seq<ActionId>, dropped: seq<ActionId>, left: seq<ActionId>)

  function Match(news: seq<ActionId>, olds: seq<ActionId>, rules: Rules): Matching
    decreases |news|
  {
    if news == [] then Matching([], [], olds)
    else match FirstWith(olds, RuleKey(rules, news[0]), rules)
      case Some(i) =>
        var m := Match(news[1..], Without(olds, i), rules);
        Matching([olds[i]] + m.chosen, [news[0]] + m.dropped, m.left)
      case None =>
        var m := Match(news[1..], olds, rules);
        Matching([news[0]] + m.chosen, m.dropped, m.left)
  }

  function Keys(s: seq<ActionId>, rules: Rules): seq<Key> {
    if s == [] then [] else [RuleKey(rules, s[0])] + Keys(s[1..], rules)
  }

  /** Every position of the new configuration is served by an action with that very key. */
  lemma {:induction false} ChosenKeys(news: seq<ActionId>, olds: seq<ActionId>, rules: Rules)
    ensures Keys(Match(news, olds, rules).chosen, rules) == Keys(news, rules)
    decreases |news|
  {
    if news != [] {
      match FirstWith(olds, RuleKey(rules, news[0]), rules)
      case Some(i) => ChosenKeys(news[1..], Without(olds, i), rules);
      case None => ChosenKeys(news[1..], olds, rules);
    }
  }

  function Occurs(s: seq<ActionId>, a: ActionId): nat {
    if s == [] then 0 else (if s[0] == a then 1 else 0) + Occurs(s[1..], a)
  }

  lemma {:induction false} OccursWithout(s: seq<ActionId>, i: nat, a: ActionId)
    requires i < |s|
    ensures Occurs(s, a) == Occurs(Without(s, i), a) + (if s[i] == a then 1 else 0)
  {
    if i > 0 {
      assert Without(s, i)[1..] == Without(s[1..], i - 1);
      OccursWithout(s[1..], i - 1, a);
    } else {
      assert Without(s, 0) == s[1..];
    }
  }

  /** No action is lost or made up: old and new together are chosen, dropped or left. */
  lemma {:induction false} Conserved(news: seq<ActionId>, olds: seq<ActionId>, rules: Rules, a: ActionId)
    ensures var m := Match(news, olds, rules);
            Occurs(news, a) + Occurs(olds, a) == Occurs(m.chosen, a) + Occurs(m.dropped, a) + Occurs(m.left, a)
    decreases |news|
  {
    if news != [] {
      match FirstWith(olds, RuleKey(rules, news[0]), rules)
      case Some(i) =>
        OccursWithout(olds, i, a);
        Conserved(news[1..], Without(olds, i), rules, a);
      case None =>
        Conserved(news[1..], olds, rules, a);
    }
  }

  lemma {:induction false} DroppedAreNew(news: seq<ActionId>, olds: seq<ActionId>, rules: Rules)
    ensures forall a | a in Match(news, olds, rules).dropped :: a in news
    ensures forall a | a in Match(news, olds, rules).left :: a in olds
    decreases |news|
  {
    if news != [] {
      match FirstWith(olds, RuleKey(rules, news[0]), rules)
      case Some(i) => DroppedAreNew(news[1..], Without(olds, i), rules);
      case None => DroppedAreNew(news[1..], olds, rules);
    }
  }

  function Count(s: seq<ActionId>, k: Key, rules: Rules): nat {
    if s == [] then 0 else (if RuleKey(rules, s[0]) == k then 1 else 0) + Count(s[1..], k, rules)
  }

  lemma {:induction false} CountWithout(s: seq<ActionId>, i: nat, k: Key, rules: Rules)
    requires i < |s|
    ensures Count(s, k, rules) == Count(Without(s, i), k, rules) + (if RuleKey(rules, s[i]) == k then 1 else 0)
  {
    if i > 0 {
      assert Without(s, i)[1..] == Without(s[1..], i - 1);
      CountWithout(s[1..], i - 1, k, rules);
    } else {
      assert Without(s, 0) == s[1..];
    }
  }

  lemma {:induction false} CountNone(s: seq<ActionId>, k: Key, rules: Rules)
    requires forall i | 0 <= i < |s| :: RuleKey(rules, s[i]) != k
    ensures Count(s, k, rules) == 0
  {
    if s != [] { CountNone(s[1..], k, rules); }
  }

  /** Per key, min(old, new) new copies are dropped for live actions, and the surplus of old over
      new is left over. */
  lemma {:induction false} KeepsMinimum(news: seq<ActionId>, olds: seq<ActionId>, rules: Rules, k: Key)
    ensures var was, now := Count(olds, k, rules), Count(news, k, rules);
            && Count(Match(news, olds, rules).dropped, k, rules) == (if was <= now then was else now)
            && Count(Match(news, olds, rules).left, k, rules) == (if was <= now then 0 else was - now)
    decreases |news|
  {
    if news != [] {
      match FirstWith(olds, RuleKey(rules, news[0]), rules)
      case Some(i) =>
        CountWithout(olds, i, k, rules);
        KeepsMinimum(news[1..], Without(olds, i), rules, k);
      case None =>
        CountNone(olds, RuleKey(rules, news[0]), rules);
        KeepsMinimum(news[1..], olds, rules, k);
    }
  }

  // ----- linking actions to hosts -----

  function Remove<T(==)>(s: seq<T>, x: T): seq<T> {
    if s == [] then [] else if s[0] == x then s[1..] else [s[0]] + Remove(s[1..], x)
  }

  function Link(s: State, id: ActionId, hid: HostId, hasTable: bool): State
    requires hid in s.hosts
  {
    var h := s.hosts[hid];
    State(s.hosts[hid := h.(refcnt := h.refcnt + 1, actions := h.actions + [id])],
          s.actions[id := Action(Waiting, hid, [], [], {}, 0, false, hasTable)])
  }

  function LinkNew(s: State, id: ActionId, hid: HostId, hasTable: bool): State {
    State(s.hosts[hid := Host(Starting, [], 0, {}, 1, [id])],
          s.actions[id := Action(Waiting, hid, [], [], {}, 0, false, hasTable)])
  }

  function Unlink(s: State, id: ActionId): State
    requires Linkable(s, id)
  {
    var hid := s.actions[id].host;
    var h := s.hosts[hid];
    State(s.hosts[hid := h.(refcnt := h.refcnt - 1, actions := Remove(h.actions, id))], s.actions - {id})
  }

  predicate Linkable(s: State, id: ActionId) {
    id in s.actions && s.actions[id].host in s.hosts && s.hosts[s.actions[id].host].refcnt > 0
  }

  lemma {:induction false} RemoveDistinct<T>(s: seq<T>, x: T)
    requires Distinct(s) && x in s
    ensures Distinct(Remove(s, x)) && |Remove(s, x)| == |s| - 1
    ensures forall y :: y in Remove(s, x) <==> y in s && y != x
  {
    assert forall y :: y in s <==> y == s[0] || y in s[1..];
    if s[0] != x {
      RemoveDistinct(s[1..], x);
      var r := Remove(s, x);
      assert r[1..] == Remove(s[1..], x);
      assert forall y :: y in r <==> y == r[0] || y in r[1..];
    }
  }

  lemma {:induction false} DistinctSnoc<T>(s: seq<T>, x: T)
    requires Distinct(s) && x !in s
    ensures Distinct(s + [x])
  {
    if s != [] {
      assert (s + [x])[1..] == s[1..] + [x];
      DistinctSnoc(s[1..], x);
    }
  }

  lemma LinkKeeps(s: State, id: ActionId, hid: HostId, hasTable: bool)
    requires Linked(s) && hid in s.hosts && id !in s.actions
    ensures Linked(Link(s, id, hid, hasTable))
  {
    var s', h := Link(s, id, hid, hasTable), s.hosts[hid];
    assert id !in h.actions;
    DistinctSnoc(h.actions, id);
    assert s'.hosts[hid].actions == h.actions + [id];
  }

  lemma LinkNewKeeps(s: State, id: ActionId, hid: HostId, hasTable: bool)
    requires Linked(s) && hid !in s.hosts && id !in s.actions
    ensures Linked(LinkNew(s, id, hid, hasTable))
  {}

  lemma UnlinkKeeps(s: State, id: ActionId)
    requires Linked(s) && id in s.actions
    ensures Linkable(s, id) && Linked(Unlink(s, id))
  {
    var hid := s.actions[id].host;
    var h := s.hosts[hid];
    RemoveDistinct(h.actions, id);
  }

  /** What a reload may have done so far: dropped actions, added untouched ones, moved links. */
  ghost predicate Evolved(s: State, s': State) {
    ActionsEvolved(s.actions, s'.actions) && HostsEvolved(s.hosts, s'.hosts) && Linked(s')
  }

  ghost predicate ActionsEvolved(m: map<ActionId, Action>, m': map<ActionId, Action>) {
    && (forall a | a in m && a in m' :: m'[a] == m[a])
    && (forall a | a in m' && a !in m :: NeverRan(m'[a]))
  }

  ghost predicate NeverRan(a: Action) {
    FreshAction(a.(force := true))
  }

  ghost predicate HostsEvolved(m: map<HostId, Host>, m': map<HostId, Host>) {
    && (forall h | h in m :: h in m' && SameHost(m[h], m'[h]))
    && (forall h | h in m' && h !in m :: FreshHost(m'[h]))
  }

  lemma RelinkEvolves(m: map<HostId, Host>, m': map<HostId, Host>, hid: HostId, h: Host)
    requires HostsEvolved(m, m')
    requires if hid in m' then SameHost(m'[hid], h) else FreshHost(h)
    ensures HostsEvolved(m, m'[hid := h])
  {
    if hid in m' {
      assert hid !in m ==> FreshHost(m'[hid]);
    }
  }

  lemma EvolvedLink(s0: State, s: State, id: ActionId, hid: HostId, hasTable: bool)
    requires Evolved(s0, s) && id !in s.actions && id !in s0.actions
    ensures hid in s.hosts ==> Evolved(s0, Link(s, id, hid, hasTable))
    ensures hid !in s.hosts ==> Evolved(s0, LinkNew(s, id, hid, hasTable))
  {
    hide Linked, HostsEvolved;
    if hid in s.hosts {
      LinkKeeps(s, id, hid, hasTable);
      RelinkEvolves(s0.hosts, s.hosts, hid, Link(s, id, hid, hasTable).hosts[hid]);
    } else {
      LinkNewKeeps(s, id, hid, hasTable);
      RelinkEvolves(s0.hosts, s.hosts, hid, LinkNew(s, id, hid, hasTable).hosts[hid]);
    }
  }

  lemma EvolvedUnlink(s0: State, s: State, id: ActionId)
    requires Evolved(s0, s) && id in s.actions
    ensures Linkable(s, id) && Evolved(s0, Unlink(s, id))
  {
    hide Linked, HostsEvolved;
    UnlinkKeeps(s, id);
    RelinkEvolves(s0.hosts, s.hosts, s.actions[id].host, Unlink(s, id).hosts[s.actions[id].host]);
  }

  // ----- reference counts over time -----

  /** refcnt++ and refcnt--, in the order they happen. */
  datatype Event = Up(host: HostId) | Down(host: HostId)

  function Net(log: seq<Event>, h: HostId): int {
    if log == [] then 0
    else Net(log[..|log| - 1], h) +
         match log[|log| - 1] case Up(x) => if x == h then 1 else 0 case Down(x) => if x == h then -1 else 0
  }

  function RefBefore(s: State, h: HostId): nat {
    if h in s.hosts then s.hosts[h].refcnt else 0
  }

  ghost predicate Counted(s0: State, s: State, log: seq<Event>) {
    forall h | h in s.hosts :: s.hosts[h].refcnt == RefBefore(s0, h) + Net(log, h)
  }

  ghost predicate UpsThenDowns(log: seq<Event>, m: nat) {
    && m <= |log|
    && (forall i | 0 <= i < m :: log[i].Up?)
    && (forall i | m <= i < |log| :: log[i].Down?)
  }

  lemma {:induction false} NetOfUps(log: seq<Event>, h: HostId)
    requires forall i | 0 <= i < |log| :: log[i].Up?
    ensures Net(log, h) >= 0
  {
    if log != [] { NetOfUps(log[..|log| - 1], h); }
  }

  lemma {:induction false} NetFalls(log: seq<Event>, n: nat, h: HostId)
    requires n <= |log| && forall i | n <= i < |log| :: log[i].Down?
    ensures Net(log[..n], h) >= Net(log, h)
    decreases |log|
  {
    if n == |log| {
      assert log[..n] == log;
    } else {
      var p := log[..|log| - 1];
      assert p[..n] == log[..n];
      NetFalls(p, n, h);
    }
  }

  /** Counting up first and down last never dips to zero between two positive values. */
  lemma NeverDips(log: seq<Event>, m: nat, n: nat, h: HostId, before: nat)
    requires UpsThenDowns(log, m) && n <= |log|
    requires before > 0 && before + Net(log, h) > 0
    ensures before + Net(log[..n], h) > 0
  {
    if n <= m {
      NetOfUps(log[..n], h);
    } else {
      NetFalls(log, n, h);
    }
  }

  // ----- the matching as sets -----

  lemma {:induction false} OccursIn(s: seq<ActionId>, a: ActionId)
    ensures Occurs(s, a) > 0 <==> a in s
  {
    if s != [] { OccursIn(s[1..], a); }
  }

  lemma {:induction false} OccursOnce(s: seq<ActionId>, a: ActionId)
    requires Distinct(s)
    ensures Occurs(s, a) <= 1
  {
    if s != [] {
      OccursIn(s[1..], a);
      OccursOnce(s[1..], a);
    }
  }

  lemma {:induction false} OnceDistinct(s: seq<ActionId>)
    requires forall a :: Occurs(s, a) <= 1
    ensures Distinct(s)
  {
    if s != [] {
      OccursIn(s[1..], s[0]);
      assert Occurs(s, s[0]) <= 1;
      forall a ensures Occurs(s[1..], a) <= 1 { assert Occurs(s, a) <= 1; }
      OnceDistinct(s[1..]);
    }
  }

  /** From lists without repetition every action ends in exactly one of the three places. */
  lemma Partition(news: seq<ActionId>, olds: seq<ActionId>, rules: Rules)
    requires Distinct(news) && Distinct(olds) && forall a | a in news :: a !in olds
    ensures var m := Match(news, olds, rules);
            && Distinct(m.chosen)
            && (forall a :: a in m.chosen <==> (a in news || a in olds) && a !in m.dropped && a !in m.left)
  {
    var m := Match(news, olds, rules);
    forall a
      ensures Occurs(m.chosen, a) <= 1
      ensures a in m.chosen <==> (a in news || a in olds) && a !in m.dropped && a !in m.left
    {
      Conserved(news, olds, rules, a);
      OccursOnce(news, a);
      OccursOnce(olds, a);
      OccursIn(news, a);
      OccursIn(olds, a);
      OccursIn(m.chosen, a);
      OccursIn(m.dropped, a);
      OccursIn(m.left, a);
    }
    OnceDistinct(m.chosen);
  }

  /** The elements that belong to a set, and those that do not. */
  function Among(s: seq<ActionId>, keep: set<ActionId>): seq<ActionId> {
    if s == [] then [] else if s[0] in keep then [s[0]] + Among(s[1..], keep) else Among(s[1..], keep)
  }

  function Outside(s: seq<ActionId>, keep: set<ActionId>): seq<ActionId> {
    if s == [] then [] else if s[0] in keep then Outside(s[1..], keep) else [s[0]] + Outside(s[1..], keep)
  }

  lemma {:induction false} CountSplit(s: seq<ActionId>, keep: set<ActionId>, k: Key, rules: Rules)
    ensures Count(s, k, rules) == Count(Among(s, keep), k, rules) + Count(Outside(s, keep), k, rules)
  {
    if s != [] { CountSplit(s[1..], keep, k, rules); }
  }

  lemma {:induction false} OutsideDistinct(s: seq<ActionId>, keep: set<ActionId>)
    ensures forall a :: a in Outside(s, keep) <==> a in s && a !in keep
    ensures Distinct(s) ==> Distinct(Outside(s, keep))
  {
    if s != [] {
      OutsideDistinct(s[1..], keep);
      assert forall a :: a in s <==> a == s[0] || a in s[1..];
    }
  }

  lemma {:induction false} CountRemove(s: seq<ActionId>, x: ActionId, k: Key, rules: Rules)
    requires x in s
    ensures Count(s, k, rules) == Count(Remove(s, x), k, rules) + (if RuleKey(rules, x) == k then 1 else 0)
  {
    if s[0] != x { CountRemove(s[1..], x, k, rules); }
  }

  lemma SomeElement<T>(t: seq<T>)
    ensures t == [] || exists a :: a in t
  {
    if t != [] { assert t[0] in t; }
  }

  lemma {:induction false} CountSame(s: seq<ActionId>, t: seq<ActionId>, k: Key, rules: Rules)
    requires Distinct(s) && Distinct(t) && forall a :: a in s <==> a in t
    ensures Count(s, k, rules) == Count(t, k, rules)
  {
    if s == [] {
      SomeElement(t);
    } else {
      assert s[0] in t;
      RemoveDistinct(t, s[0]);
      CountRemove(t, s[0], k, rules);
      assert forall a :: a in s <==> a == s[0] || a in s[1..];
      CountSame(s[1..], Remove(t, s[0]), k, rules);
    }
  }

  // ----- host names -----

  /** The name without its mask, and the mask (-1 for none). */
  datatype HostName = HostName(name: string, mask: int)

  function FirstSlash(s: string): (r: Option<nat>)
    ensures r.Some? ==> r.value < |s| && s[r.value] == '/' && '/' !in s[..r.value]
    ensures r.None? ==> '/' !in s
  {
    if s == "" then None
    else if s[0] == '/' then Some(0)
    else match FirstSlash(s[1..])
      case Some(i) => Some(i + 1)
      case None => None
  }

  function LastSlash(s: string): (r: Option<nat>)
    ensures r.Some? ==> r.value < |s| && s[r.value] == '/'
    ensures r.None? ==> '/' !in s
  {
    if s == "" then None
    else if s[|s| - 1] == '/' then Some(|s| - 1)
    else LastSlash(s[..|s| - 1])
  }

  /** With a mask, only the part before the first slash is compared, as a prefix. */
  predicate HostMatches(search: string, hostname: string) {
    match FirstSlash(hostname)
    case Some(p) =>
      if p > 0 then |search| >= p && Folded(search[..p]) == Folded(hostname[..p])
      else Folded(search) == Folded(hostname)
    case None => Folded(search) == Folded(hostname)
  }

  /** host_add's search: see FirstHostIsFirst. */
  function FirstHost(threads: seq<HostId>, names: map<HostId, HostName>, hostname: string): (r: Option<HostId>)
    ensures r.Some? ==> r.value in threads && r.value in names && HostMatches(names[r.value].name, hostname)
  {
    if threads == [] then None
    else if threads[0] in names && HostMatches(names[threads[0]].name, hostname) then Some(threads[0])
    else FirstHost(threads[1..], names, hostname)
  }

  /** The host found is the earliest in the list whose name matches; none is found exactly when no
      name matches. */
  lemma {:induction false} FirstHostIsFirst(threads: seq<HostId>, names: map<HostId, HostName>, hostname: string)
    requires forall h | h in threads :: h in names
    ensures var r := FirstHost(threads, names, hostname);
            && (r.None? <==> forall i | 0 <= i < |threads| :: !HostMatches(names[threads[i]].name, hostname))
            && forall i | 0 <= i < |threads| && HostMatches(names[threads[i]].name, hostname)
                          && (forall j | 0 <= j < i :: !HostMatches(names[threads[j]].name, hostname)) ::
                              r == Some(threads[i])
  {
    hide HostMatches;
    if threads != [] {
      var rest := threads[1..];
      FirstHostIsFirst(rest, names, hostname);
      assert forall i | 0 <= i < |rest| :: rest[i] == threads[i + 1];
      forall i | 0 <= i < |threads| && HostMatches(names[threads[i]].name, hostname)
                 && (forall j | 0 <= j < i :: !HostMatches(names[threads[j]].name, hostname))
        ensures FirstHost(threads, names, hostname) == Some(threads[i])
      {
        if i > 0 {
          assert rest[i - 1] == threads[i];
          assert forall j | 0 <= j < i - 1 :: rest[j] == threads[j + 1];
        }
      }
    }
  }

  /** The record of a new host, unless its mask is malformed or above 128. */
  function NewHostName(hostname: string, strtol: string -> Option<int>): Option<HostName> {
    match LastSlash(hostname)
    case None => Some(HostName(hostname, -1))
    case Some(p) =>
      match strtol(hostname[p + 1..])
      case None => None
      case Some(mask) => if mask > 128 then None else Some(HostName(hostname[..p], mask))
  }

  lemma NetSnoc(log: seq<Event>, e: Event, h: HostId)
    ensures Net(log + [e], h) == Net(log, h) +
            match e case Up(x) => if x == h then 1 else 0 case Down(x) => if x == h then -1 else 0
  {
    assert (log + [e])[..|log|] == log;
  }

  lemma {:induction false} NetOfStrangers(log: seq<Event>, h: HostId)
    requires forall i | 0 <= i < |log| :: log[i].host != h
    ensures Net(log, h) == 0
  {
    if log != [] { NetOfStrangers(log[..|log| - 1], h); }
  }

  lemma CountedLink(s0: State, s: State, log: seq<Event>, id: ActionId, hid: HostId, hasTable: bool)
    requires Counted(s0, s, log) && (hid !in s.hosts ==> RefBefore(s0, hid) + Net(log, hid) == 0)
    ensures hid in s.hosts ==> Counted(s0, Link(s, id, hid, hasTable), log + [Up(hid)])
    ensures hid !in s.hosts ==> Counted(s0, LinkNew(s, id, hid, hasTable), log + [Up(hid)])
  {
    forall h { NetSnoc(log, Up(hid), h); }
  }

  lemma CountedUnlink(s0: State, s: State, log: seq<Event>, id: ActionId)
    requires Counted(s0, s, log) && Linkable(s, id)
    ensures Counted(s0, Unlink(s, id), log + [Down(s.actions[id].host)])
  {
    forall h { NetSnoc(log, Down(s.actions[id].host), h); }
  }

  // ----- the daemon's memory -----

  /** Hosts and actions, the order of the hosts, their names, the rules of every action ever
      created (an id is never used twice), and the changes of reference counts so far. */
  datatype Memory = Memory(state: State, threads: seq<HostId>, names: map<HostId, HostName>,
                           rules: Rules, nextId: nat, log: seq<Event>)

  ghost predicate ValidMemory(m: Memory) {
    Linked(m.state) && WellNamed(m)
  }

  ghost predicate WellNamed(m: Memory) {
    && m.names.Keys == m.state.hosts.Keys
    && (forall h :: h in m.threads <==> h in m.state.hosts)
    && (forall h | h in m.state.hosts :: h < m.nextId)
    && (forall a | a in m.state.actions :: a < m.nextId)
    && (forall a | a in m.rules :: a < m.nextId)
  }

  /** The memory differs from the state a reload began in only as a reload may change it,
      and the log accounts for every reference count. */
  ghost predicate Tracked(base: State, m: Memory) {
    && Evolved(base, m.state) && Counted(base, m.state, m.log)
    && (forall a | a in base.actions :: a < m.nextId)
    && (forall i | 0 <= i < |m.log| :: m.log[i].host in m.state.hosts)
  }

  function Attach(m: Memory, id: ActionId, h: HostId): Memory
    requires id in m.rules && h in m.state.hosts
  {
    m.(state := Link(m.state, id, h, m.rules[id].tablename.Some?), log := m.log + [Up(h)])
  }

  function AttachNew(m: Memory, id: ActionId, record: HostName): Memory
    requires id in m.rules
  {
    m.(state := LinkNew(m.state, id, m.nextId, m.rules[id].tablename.Some?), names := m.names[m.nextId := record],
       threads := m.threads + [m.nextId], nextId := m.nextId + 1, log := m.log + [Up(m.nextId)])
  }

  /** host_add: the first host whose name matches, or a new host, or nothing for a bad mask. */
  function HostAdded(m: Memory, id: ActionId, strtol: string -> Option<int>): Option<Memory>
    requires id in m.rules
  {
    match FirstHost(m.threads, m.names, m.rules[id].hostname)
    case Some(h) => if h in m.state.hosts then Some(Attach(m, id, h)) else None
    case None =>
      match NewHostName(m.rules[id].hostname, strtol)
      case None => None
      case Some(record) => Some(AttachNew(m, id, record))
  }

  function Detach(m: Memory, id: ActionId): Memory
    requires Linkable(m.state, id)
  {
    m.(state := Unlink(m.state, id), log := m.log + [Down(m.state.actions[id].host)])
  }

  lemma AttachKeeps(base: State, m: Memory, id: ActionId, h: HostId)
    requires ValidMemory(m) && Tracked(base, m) && id in m.rules && id !in m.state.actions && id !in base.actions
    requires h in m.state.hosts
    ensures ValidMemory(Attach(m, id, h)) && Tracked(base, Attach(m, id, h))
  {
    hide Linked, Evolved, WellNamed;
    EvolvedLink(base, m.state, id, h, m.rules[id].tablename.Some?);
    LinkKeeps(m.state, id, h, m.rules[id].tablename.Some?);
    CountedLink(base, m.state, m.log, id, h, m.rules[id].tablename.Some?);
    AttachNamed(m, id, h);
  }

  lemma AttachNamed(m: Memory, id: ActionId, h: HostId)
    requires WellNamed(m) && id in m.rules && h in m.state.hosts
    ensures WellNamed(Attach(m, id, h))
  {}

  lemma HostsStay(s: State, s': State)
    requires Evolved(s, s')
    ensures s.hosts.Keys <= s'.hosts.Keys
  {}

  lemma AttachNewKeeps(base: State, m: Memory, id: ActionId, record: HostName)
    requires ValidMemory(m) && Tracked(base, m) && id in m.rules && id !in m.state.actions && id !in base.actions
    ensures ValidMemory(AttachNew(m, id, record)) && Tracked(base, AttachNew(m, id, record))
  {
    hide Linked, Evolved, Counted;
    var h := m.nextId;
    assert h !in m.state.hosts;
    hide WellNamed;
    HostsStay(base, m.state);
    NetOfStrangers(m.log, h);
    LinkNewKeeps(m.state, id, h, m.rules[id].tablename.Some?);
    EvolvedLink(base, m.state, id, h, m.rules[id].tablename.Some?);
    CountedLink(base, m.state, m.log, id, h, m.rules[id].tablename.Some?);
    AttachNewNamed(m, id, record);
  }

  lemma AttachNewNamed(m: Memory, id: ActionId, record: HostName)
    requires WellNamed(m) && id in m.rules
    ensures WellNamed(AttachNew(m, id, record))
  {
    var m' := AttachNew(m, id, record);
    assert m'.names.Keys == m.names.Keys + {m.nextId};
    assert m'.state.hosts.Keys == m.state.hosts.Keys + {m.nextId};
  }

  lemma DetachKeeps(base: State, m: Memory, id: ActionId)
    requires ValidMemory(m) && Tracked(base, m) && id in m.state.actions
    ensures Linkable(m.state, id)
    ensures ValidMemory(Detach(m, id)) && Tracked(base, Detach(m, id))
  {
    hide Linked, Evolved;
    UnlinkKeeps(m.state, id);
    EvolvedUnlink(base, m.state, id);
    CountedUnlink(base, m.state, m.log, id);
    assert WellNamed(Detach(m, id));
  }
}
