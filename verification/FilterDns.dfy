/** filterdns as a transition system: host threads, action threads and reloads, interleaved.

    Host and action rounds both hold only the read lock, so they interleave here entry by
    entry. A host list carries a version that changes whenever an entry is linked or
    unlinked; an action that copies across such a change reads arbitrary entries from then
    on. A reload holds the write lock and is one step. */
module FilterDns {
  import opened AddrList
  import opened Tables

  type HostId = nat
  type ActionId = nat

  datatype HostPc =
    | Starting                                // created, static address not yet entered
    | Idle                                    // between rounds
    | Resolving(todo: seq<SockAddr>)          // marked; answers still to be added
    | Sweeping(next: nat, update: nat)
    | Posting(rest: seq<ActionId>, update: nat)

  /** `answer` is the address set of the latest resolver answer. */
  datatype Host = Host(pc: HostPc, list: seq<Entry>, version: nat, answer: set<SockAddr>,
                       refcnt: nat, actions: seq<ActionId>)

  datatype ActionPc =
    | Waiting                                 // in sem_wait
    | Woken                                   // past sem_wait, before the read lock
    | Copying(next: nat, version: nat)        // marked; reading the host's list

  datatype Action = Action(pc: ActionPc, host: HostId, list: seq<Entry>, tbl: seq<Entry>,
                           kernel: set<SockAddr>, sem: nat, force: bool, hasTable: bool)

  datatype State = State(hosts: map<HostId, Host>, actions: map<ActionId, Action>)

  // ----- steps of one host thread -----

  datatype HostStep =
    | Start(address: Answer)
    | BeginRound(answer: seq<SockAddr>)
    | ResolveOne
    | EndResolve
    | SweepOne
    | EndSweep
    | EndRound

  datatype Answer = NotNumeric | Numeric(addr: SockAddr)

  function AddrSet(s: seq<SockAddr>): set<SockAddr> {
    set a | a in s
  }

  predicate HostCan(h: Host, st: HostStep) {
    match st
    case Start(_) => h.pc.Starting?
    case BeginRound(_) => h.pc.Idle?
    case ResolveOne => h.pc.Resolving? && h.pc.todo != []
    case EndResolve => h.pc.Resolving? && h.pc.todo == []
    case SweepOne => h.pc.Sweeping? && h.pc.next < |h.list|
    case EndSweep => h.pc.Sweeping? && h.pc.next >= |h.list|
    case EndRound => h.pc.Posting? && h.pc.rest == []
  }

  /** A failed lookup is the empty answer: the round then drops every address that is not
      static. A host with an explicit mask is never looked up, which is the same. */
  function HostDo(h: Host, st: HostStep): Host
    requires HostCan(h, st)
  {
    match st
    case Start(NotNumeric) => h.(pc := Idle)
    case Start(Numeric(a)) =>
      h.(pc := Idle, list := Add(h.list, Item(a, true)), version := h.version + 1)
    case BeginRound(answer) =>
      h.(pc := Resolving(answer), list := Mark(h.list), answer := AddrSet(answer))
    case ResolveOne =>
      h.(pc := Resolving(h.pc.todo[1..]), list := Add(h.list, Item(h.pc.todo[0], false)),
         version := if Has(h.list, h.pc.todo[0]) then h.version else h.version + 1)
    case EndResolve => h.(pc := Sweeping(0, 0))
    case SweepOne => SweepEntry(h, h.pc.next, h.pc.update)
    case EndSweep => h.(pc := Posting(h.actions, h.pc.update))
    case EndRound => h.(pc := Idle)
  }

  function SweepEntry(h: Host, i: nat, update: nat): Host
    requires i < |h.list|
  {
    var e := h.list[i];
    var u := update + (if e.isNew then 1 else 0);
    if e.isOld then
      h.(pc := Sweeping(i, u + 1), list := h.list[..i] + h.list[i + 1..], version := h.version + 1)
    else
      h.(pc := Sweeping(i + 1, u), list := h.list[..i] + [e.(isNew := false)] + h.list[i + 1..])
  }

  // ----- steps of one action thread -----

  datatype ActionStep = Wake | BeginCopy | CopyOne | CopyTorn(item: Item) | EndCopy

  ghost predicate ActionCan(a: Action, h: Host, st: ActionStep) {
    match st
    case Wake => a.pc.Waiting? && a.sem > 0
    case BeginCopy => a.pc.Woken?
    case CopyOne => a.pc.Copying? && a.pc.version == h.version && a.pc.next < |h.list|
    case CopyTorn(x) => a.pc.Copying? && a.pc.version != h.version && (x.isStatic ==> x.addr in Statics(h.list))
    case EndCopy => a.pc.Copying? && (a.pc.version == h.version ==> a.pc.next == |h.list|)
  }

  ghost function ActionDo(a: Action, h: Host, st: ActionStep): Action
    requires ActionCan(a, h, st)
  {
    match st
    case Wake => a.(pc := Woken, sem := a.sem - 1)
    case BeginCopy => a.(pc := Copying(0, h.version), force := false, list := Mark(a.list))
    case CopyOne =>
      a.(pc := a.pc.(next := a.pc.next + 1),
         list := Add(a.list, Item(h.list[a.pc.next].addr, h.list[a.pc.next].isStatic)))
    case CopyTorn(x) => a.(list := Add(a.list, x))
    case EndCopy =>
      var list := Sweep(a.list);
      if Updates(a.list) > 0 && a.hasTable then
        a.(pc := Waiting, list := list, tbl := Round(a.tbl, Items(list)),
           kernel := Kernel(a.kernel, Ops(AddAll(Mark(a.tbl), Items(list)))))
      else
        a.(pc := Waiting, list := list)
  }

  // ----- steps of the whole daemon -----

  /** check_hostname's last loop: post the next linked action if the set changed or the
      action has never run. */
  ghost predicate PostOne(s: State, s': State, hid: HostId) {
    && hid in s.hosts && s.hosts[hid].pc.Posting? && s.hosts[hid].pc.rest != []
    && var h, id := s.hosts[hid], s.hosts[hid].pc.rest[0];
    && id in s.actions
    && s' == s.(hosts := s.hosts[hid := h.(pc := h.pc.(rest := h.pc.rest[1..]))],
                actions := if h.pc.update == 0 && !s.actions[id].force then s.actions
                           else s.actions[id := s.actions[id].(sem := s.actions[id].sem + 1)])
  }

  /** A reload, seen from outside: it runs alone, keeps some live actions exactly as they
      are, drops the others, and adds fresh ones that must run once. */
  ghost predicate Merge(s: State, s': State) {
    && (forall h | h in s.hosts :: s.hosts[h].pc.Starting? || s.hosts[h].pc.Idle?)
    && (forall a | a in s.actions :: !s.actions[a].pc.Copying?)
    && (forall a | a in s.actions && a in s'.actions :: s'.actions[a] == s.actions[a])
    && (forall a | a in s'.actions && a !in s.actions :: FreshAction(s'.actions[a]))
    && (forall h | h in s.hosts :: h in s'.hosts && SameHost(s.hosts[h], s'.hosts[h]))
    && (forall h | h in s'.hosts && h !in s.hosts :: FreshHost(s'.hosts[h]))
    && Linked(s')
  }

  ghost predicate FreshAction(a: Action) {
    a.pc == Waiting && a.list == [] && a.tbl == [] && a.kernel == {} && a.sem == 0 && a.force
  }

  ghost predicate FreshHost(h: Host) {
    h.pc == Starting && h.list == [] && h.answer == {}
  }

  /** All but the links of a host. */
  ghost predicate SameHost(h: Host, h': Host) {
    h' == h.(refcnt := h'.refcnt, actions := h'.actions)
  }

  ghost predicate Distinct<T>(s: seq<T>) {
    s == [] || (s[0] !in s[1..] && Distinct(s[1..]))
  }

  /** refcnt counts the linked actions, and the links agree in both directions. */
  ghost predicate Linked(s: State) {
    && (forall h | h in s.hosts :: s.hosts[h].refcnt == |s.hosts[h].actions| && Distinct(s.hosts[h].actions))
    && (forall a | a in s.actions :: s.actions[a].host in s.hosts && a in s.hosts[s.actions[a].host].actions)
    && (forall h, a | h in s.hosts && a in s.hosts[h].actions :: a in s.actions && s.actions[a].host == h)
  }

  datatype Label =
    | HostMove(host: HostId, hostStep: HostStep)
    | ActionMove(action: ActionId, actionStep: ActionStep)
    | Post(host: HostId)
    | Exit(host: HostId)
    | Reload

  ghost predicate Next(s: State, s': State, l: Label) {
    match l
    case HostMove(h, st) =>
      && h in s.hosts && HostCan(s.hosts[h], st)
      && s' == s.(hosts := s.hosts[h := HostDo(s.hosts[h], st)])
    case ActionMove(a, st) =>
      && a in s.actions && s.actions[a].host in s.hosts
      && ActionCan(s.actions[a], s.hosts[s.actions[a].host], st)
      && s' == s.(actions := s.actions[a := ActionDo(s.actions[a], s.hosts[s.actions[a].host], st)])
    case Post(h) => PostOne(s, s', h)
    case Exit(h) => h in s.hosts && s.hosts[h].pc.Idle? && s.hosts[h].refcnt == 0 && s' == s.(hosts := s.hosts - {h})
    case Reload => Merge(s, s')
  }

  /** A run of the daemon: it starts by loading a configuration into the empty state. */
  ghost predicate Run(states: seq<State>, labels: seq<Label>) {
    && |states| == |labels| + 1
    && states[0] == State(map[], map[])
    && forall i | 0 <= i < |labels| :: Next(states[i], states[i + 1], labels[i])
  }

  // ----- the invariant -----

  ghost predicate HostInv(h: Host) {
    && NoDup(h.list) && Exclusive(h.list)
    && match h.pc
       case Starting => h.list == [] && h.answer == {}
       case Idle => Calm(h.list) && Addrs(h.list) == Statics(h.list) + h.answer
       case Resolving(todo) => Kept(h.list) + AddrSet(todo) == Statics(h.list) + h.answer
       case Sweeping(i, _) =>
         && i <= |h.list| && Settled(h.list[..i]) && Kept(h.list) == Statics(h.list) + h.answer
       case Posting(rest, _) =>
         && Settled(h.list) && Addrs(h.list) == Statics(h.list) + h.answer
         && forall id | id in rest :: id in h.actions
  }

  /** The host's running round will still post this action. */
  ghost predicate WillPost(h: Host, id: ActionId) {
    match h.pc
    case Starting => false
    case Idle => false
    case Resolving(_) => Fresh(h.list) != {}
    case Sweeping(_, update) => update > 0 || Fresh(h.list) != {}
    case Posting(rest, update) => update > 0 && id in rest
  }

  /** Either a further round of this action is certain, or what it has copied is what the
      host's list reads now. */
  ghost predicate Synced(a: Action, id: ActionId, h: Host) {
    || a.force || a.sem > 0 || a.pc.Woken?
    || WillPost(h, id)
    || (a.pc.Waiting? && Addrs(a.list) == ItemAddrs(Items(h.list)))
    || (a.pc.Copying? && a.pc.version == h.version && CopiedUpTo(a, h))
  }

  ghost predicate CopiedUpTo(a: Action, h: Host)
    requires a.pc.Copying?
  {
    && a.pc.next <= |h.list| == |Items(h.list)|
    && Kept(a.list) == Statics(a.list) + ItemAddrs(Items(h.list)[..a.pc.next])
  }

  ghost predicate TableInv(a: Action) {
    && NoDup(a.tbl) && Settled(a.tbl) && Statics(a.tbl) <= Statics(a.list) && a.kernel == Addrs(a.tbl)
    && (a.hasTable ==> Addrs(a.tbl) == Addrs(a.list) - Fresh(a.list))
  }

  ghost predicate ActionInv(a: Action, id: ActionId, h: Host) {
    && NoDup(a.list) && Exclusive(a.list) && TableInv(a)
    && (!a.pc.Copying? ==> Settled(a.list))
    && (a.pc.Copying? ==> a.pc.version <= h.version && (a.pc.version == h.version ==> a.pc.next <= |h.list|))
    && Statics(a.list) <= Statics(h.list)
    && (h.pc.Starting? ==> a.force && a.sem == 0 && a.pc.Waiting?)
    && Synced(a, id, h)
  }

  ghost predicate Inv(s: State) {
    && Linked(s)
    && (forall h | h in s.hosts :: HostInv(s.hosts[h]))
    && (forall a | a in s.actions :: ActionInv(s.actions[a], a, s.hosts[s.actions[a].host]))
  }

  // ----- host steps -----

  /** All an action needs to know of a host step: a list that reads differently has a new
      version and a post on its way, and a post on its way stays on its way. */
  ghost predicate HostEffect(h: Host, h': Host) {
    && h'.actions == h.actions && h'.refcnt == h.refcnt && !h.pc.Starting? && !h'.pc.Starting?
    && Statics(h'.list) == Statics(h.list) && h.version <= h'.version
    && (h'.version == h.version ==> Items(h'.list) == Items(h.list))
    && (h'.version != h.version ==> (forall id | id in h.actions :: WillPost(h', id)))
    && (forall id | id in h.actions && WillPost(h, id) :: WillPost(h', id))
  }

  lemma StartKeeps(h: Host, st: HostStep)
    requires HostInv(h) && HostCan(h, st) && st.Start?
    ensures HostInv(HostDo(h, st)) && !HostDo(h, st).pc.Starting?
    ensures HostDo(h, st).version >= h.version && HostDo(h, st).actions == h.actions && HostDo(h, st).refcnt == h.refcnt
  {
    if st.address.Numeric? {
      assert HostDo(h, st).list == [Entry(st.address.addr, true, false, true)];
    }
  }

  lemma BeginKeeps(h: Host, st: HostStep)
    requires HostInv(h) && HostCan(h, st) && st.BeginRound?
    ensures HostInv(HostDo(h, st)) && HostEffect(h, HostDo(h, st))
  {
    MarkSets(h.list);
    ItemsKept(h.list, SockAddr(0, []));
  }

  lemma ResolveKeeps(h: Host)
    requires HostInv(h) && HostCan(h, ResolveOne)
    ensures HostInv(HostDo(h, ResolveOne)) && HostEffect(h, HostDo(h, ResolveOne))
  {
    var todo := h.pc.todo;
    AddSets(h.list, Item(todo[0], false));
    HasIff(h.list, todo[0]);
    ItemsKept(h.list, todo[0]);
    assert AddrSet(todo) == {todo[0]} + AddrSet(todo[1..]);
  }

  lemma EndKeeps(h: Host, st: HostStep)
    requires HostInv(h) && HostCan(h, st) && (st.EndResolve? || st.EndSweep? || st.EndRound?)
    ensures HostInv(HostDo(h, st)) && HostEffect(h, HostDo(h, st))
  {
    Views(h.list);
    if st.EndSweep? {
      assert h.list[..h.pc.next] == h.list;
    }
  }

  lemma Around(s: seq<Entry>, i: nat)
    requires i < |s|
    ensures Addrs(s) == Addrs(s[..i]) + ({s[i].addr} + Addrs(s[i + 1..]))
    ensures Statics(s) == Statics(s[..i]) + ((if s[i].isStatic then {s[i].addr} else {}) + Statics(s[i + 1..]))
    ensures Kept(s) == Kept(s[..i]) + ((if s[i].isOld then {} else {s[i].addr}) + Kept(s[i + 1..]))
    ensures Fresh(s) == Fresh(s[..i]) + ((if s[i].isNew then {s[i].addr} else {}) + Fresh(s[i + 1..]))
  {
    assert s == s[..i] + s[i..] && s[i..][0] == s[i] && s[i..][1..] == s[i + 1..];
    Append(s[..i], s[i..]);
  }

  lemma AroundWhole(s: seq<Entry>, i: nat)
    requires i < |s|
    ensures NoDup(s) <==> NoDup(s[..i]) && NoDup(s[i + 1..]) && Addrs(s[..i]) !! Addrs(s[i + 1..])
                          && s[i].addr !in Addrs(s[..i]) + Addrs(s[i + 1..])
    ensures Exclusive(s) <==>
            Exclusive(s[..i]) && Exclusive(s[i + 1..]) && (s[i].isOld ==> !s[i].isNew && !s[i].isStatic)
    ensures Items(s) == Items(s[..i]) + ([Item(s[i].addr, s[i].isStatic)] + Items(s[i + 1..]))
  {
    assert s == s[..i] + s[i..] && s[i..][0] == s[i] && s[i..][1..] == s[i + 1..];
    AppendNoDup(s[..i], s[i..]);
    AppendMarks(s[..i], s[i..]);
  }

  lemma DropOld(s: seq<Entry>, i: nat)
    requires i < |s| && NoDup(s) && Exclusive(s) && s[i].isOld
    ensures var t := s[..i] + s[i + 1..];
            NoDup(t) && Exclusive(t) && Kept(t) == Kept(s) && Statics(t) == Statics(s) && Fresh(t) == Fresh(s)
  {
    Around(s, i);
    AroundWhole(s, i);
    Append(s[..i], s[i + 1..]);
    AppendNoDup(s[..i], s[i + 1..]);
    AppendMarks(s[..i], s[i + 1..]);
  }

  lemma SweepDropKeeps(h: Host)
    requires HostInv(h) && HostCan(h, SweepOne) && h.list[h.pc.next].isOld
    ensures HostInv(HostDo(h, SweepOne)) && HostEffect(h, HostDo(h, SweepOne))
  {
    var i, t := h.pc.next, HostDo(h, SweepOne).list;
    DropOld(h.list, i);
    assert t[..i] == h.list[..i];
  }

  lemma SweepPassKeeps(h: Host)
    requires HostInv(h) && HostCan(h, SweepOne) && !h.list[h.pc.next].isOld
    ensures HostInv(HostDo(h, SweepOne)) && HostEffect(h, HostDo(h, SweepOne))
  {
    var i, t := h.pc.next, HostDo(h, SweepOne).list;
    var x, e, y := h.list[..i], h.list[i].(isNew := false), h.list[i + 1..];
    assert t[..i] == x && t[i] == e && t[i + 1..] == y;
    Around(h.list, i);
    AroundWhole(h.list, i);
    Around(t, i);
    AroundWhole(t, i);
    assert t[..i + 1] == x + [e];
    AppendMarks(x, [e]);
  }

  lemma HostKeeps(h: Host, st: HostStep)
    requires HostInv(h) && HostCan(h, st) && !st.Start?
    ensures HostInv(HostDo(h, st)) && HostEffect(h, HostDo(h, st))
  {
    match st
    case BeginRound(_) => BeginKeeps(h, st);
    case ResolveOne => ResolveKeeps(h);
    case EndResolve => EndKeeps(h, st);
    case SweepOne => if h.list[h.pc.next].isOld { SweepDropKeeps(h); } else { SweepPassKeeps(h); }
    case EndSweep => EndKeeps(h, st);
    case EndRound => EndKeeps(h, st);
  }

  lemma ActionAfterHost(a: Action, id: ActionId, h: Host, h': Host)
    requires ActionInv(a, id, h) && id in h.actions && HostEffect(h, h')
    ensures ActionInv(a, id, h')
  {
    ItemsSets(h.list);
    ItemsSets(h'.list);
  }

  // ----- action steps -----

  lemma WakeKeeps(a: Action, id: ActionId, h: Host)
    requires HostInv(h) && ActionInv(a, id, h) && ActionCan(a, h, Wake)
    ensures ActionInv(ActionDo(a, h, Wake), id, h)
  {}

  lemma BeginCopyKeeps(a: Action, id: ActionId, h: Host)
    requires HostInv(h) && ActionInv(a, id, h) && ActionCan(a, h, BeginCopy)
    ensures ActionInv(ActionDo(a, h, BeginCopy), id, h)
  {
    Views(a.list);
    MarkSettled(a.list);
    ItemsSets(h.list);
  }

  lemma {:induction false} ItemsAt(s: seq<Entry>, i: nat)
    requires i < |s|
    ensures |Items(s)| == |s| && Items(s)[i] == Item(s[i].addr, s[i].isStatic)
  {
    ItemsSets(s);
    if i > 0 { ItemsAt(s[1..], i - 1); }
  }

  lemma {:induction false} ItemAddrsSnoc(s: seq<Item>, i: nat)
    requires i < |s|
    ensures ItemAddrs(s[..i + 1]) == ItemAddrs(s[..i]) + {s[i].addr}
  {
    if i == 0 {
      assert s[..1] == [s[0]];
    } else {
      assert s[..i + 1][1..] == s[1..][..i] && s[..i][1..] == s[1..][..i - 1];
      ItemAddrsSnoc(s[1..], i - 1);
    }
  }

  /** Copying one entry, torn or not, touches only marks and new entries. */
  lemma AddKeeps(a: Action, x: Item)
    requires NoDup(a.list) && Exclusive(a.list) && TableInv(a)
    ensures var a' := a.(list := Add(a.list, x));
            NoDup(a'.list) && Exclusive(a'.list) && TableInv(a')
  {
    Views(a.list);
    AddSets(a.list, x);
  }

  lemma CopyStatics(a: Action, h: Host)
    requires NoDup(a.list) && Exclusive(a.list) && ActionCan(a, h, CopyOne) && Statics(a.list) <= Statics(h.list)
    ensures Statics(ActionDo(a, h, CopyOne).list) <= Statics(h.list)
  {
    AddSets(a.list, Item(h.list[a.pc.next].addr, h.list[a.pc.next].isStatic));
    IndexIn(h.list, a.pc.next);
  }

  lemma CopyProgress(a: Action, h: Host)
    requires NoDup(a.list) && Exclusive(a.list) && ActionCan(a, h, CopyOne) && CopiedUpTo(a, h)
    ensures CopiedUpTo(ActionDo(a, h, CopyOne), h)
  {
    hide NoDup, Exclusive, Addrs, Add, ItemAddrs;
    var i := a.pc.next;
    AddSets(a.list, Item(h.list[i].addr, h.list[i].isStatic));
    ItemsAt(h.list, i);
    ItemAddrsSnoc(Items(h.list), i);
    Views(Add(a.list, Item(h.list[i].addr, h.list[i].isStatic)));
  }

  lemma CopyKeeps(a: Action, id: ActionId, h: Host)
    requires HostInv(h) && ActionInv(a, id, h) && ActionCan(a, h, CopyOne)
    ensures ActionInv(ActionDo(a, h, CopyOne), id, h)
  {
    AddKeeps(a, Item(h.list[a.pc.next].addr, h.list[a.pc.next].isStatic));
    CopyStatics(a, h);
    if CopiedUpTo(a, h) { CopyProgress(a, h); }
  }

  lemma TornKeeps(a: Action, id: ActionId, h: Host, x: Item)
    requires HostInv(h) && ActionInv(a, id, h) && ActionCan(a, h, CopyTorn(x))
    ensures ActionInv(ActionDo(a, h, CopyTorn(x)), id, h)
  {
    AddKeeps(a, x);
    AddSets(a.list, x);
  }

  /** The end of a copy: the table follows the list whenever the list's set changed. */
  lemma EndCopyTable(a: Action, h: Host)
    requires NoDup(a.list) && Exclusive(a.list) && TableInv(a) && ActionCan(a, h, EndCopy)
    ensures TableInv(ActionDo(a, h, EndCopy))
  {
    var list := Sweep(a.list);
    SweepSets(a.list);
    Views(list);
    if Updates(a.list) > 0 && a.hasTable {
      TableFollows(a.tbl, list);
    } else if a.hasTable {
      NoUpdate(a.list);
    }
  }

  lemma NoUpdate(s: seq<Entry>)
    requires NoDup(s) && Exclusive(s) && Updates(s) == 0
    ensures Fresh(s) == {} && Kept(s) == Addrs(s)
  {
    SweepCount(s);
    Views(s);
    assert Addrs(s) - Kept(s) == {};
  }

  lemma EndCopyKeeps(a: Action, id: ActionId, h: Host)
    requires HostInv(h) && ActionInv(a, id, h) && ActionCan(a, h, EndCopy)
    ensures ActionInv(ActionDo(a, h, EndCopy), id, h)
  {
    EndCopyTable(a, h);
    SweepSets(a.list);
    Views(ActionDo(a, h, EndCopy).list);
    ItemsSets(h.list);
    Views(h.list);
    if a.pc.version == h.version {
      assert Items(h.list)[..|h.list|] == Items(h.list);
    }
  }

  lemma ActionKeeps(a: Action, id: ActionId, h: Host, st: ActionStep)
    requires HostInv(h) && ActionInv(a, id, h) && ActionCan(a, h, st)
    ensures ActionInv(ActionDo(a, h, st), id, h) && ActionDo(a, h, st).host == a.host
  {
    match st
    case Wake => WakeKeeps(a, id, h);
    case BeginCopy => BeginCopyKeeps(a, id, h);
    case CopyOne => CopyKeeps(a, id, h);
    case CopyTorn(x) => TornKeeps(a, id, h, x);
    case EndCopy => EndCopyKeeps(a, id, h);
  }

  // ----- the whole system -----

  /** Links depend only on who is linked to whom. */
  lemma LinksUntouched(s: State, s': State)
    requires Linked(s) && s'.hosts.Keys == s.hosts.Keys && s'.actions.Keys == s.actions.Keys
    requires forall h | h in s.hosts ::
            s'.hosts[h].actions == s.hosts[h].actions && s'.hosts[h].refcnt == s.hosts[h].refcnt
    requires forall a | a in s.actions :: s'.actions[a].host == s.actions[a].host
    ensures Linked(s')
  {}

  lemma HostMoveAction(a: Action, id: ActionId, h: Host, st: HostStep)
    requires HostInv(h) && HostCan(h, st) && ActionInv(a, id, h) && id in h.actions
    ensures ActionInv(a, id, HostDo(h, st))
  {
    if st.Start? {
      StartKeeps(h, st);
    } else {
      HostKeeps(h, st);
      ActionAfterHost(a, id, h, HostDo(h, st));
    }
  }

  lemma HostMoveKeeps(s: State, s': State, hid: HostId, st: HostStep)
    requires Inv(s) && Next(s, s', HostMove(hid, st))
    ensures Inv(s')
  {
    hide HostCan, HostInv, ActionInv;
    var h := s.hosts[hid];
    assert HostInv(HostDo(h, st)) && HostDo(h, st).actions == h.actions && HostDo(h, st).refcnt == h.refcnt by {
      if st.Start? { StartKeeps(h, st); } else { HostKeeps(h, st); }
    }
    LinksUntouched(s, s');
    forall a | a in s'.actions ensures ActionInv(s'.actions[a], a, s'.hosts[s'.actions[a].host]) {
      assert ActionInv(s.actions[a], a, s.hosts[s.actions[a].host]);
      if s.actions[a].host == hid {
        HostMoveAction(s.actions[a], a, h, st);
      }
    }
  }

  lemma ActionMoveKeeps(s: State, s': State, aid: ActionId, st: ActionStep)
    requires Inv(s) && Next(s, s', ActionMove(aid, st))
    ensures Inv(s')
  {
    hide ActionCan, ActionDo, ActionInv, HostInv;
    ActionKeeps(s.actions[aid], aid, s.hosts[s.actions[aid].host], st);
    LinksUntouched(s, s');
  }

  lemma PostAction(a: Action, id: ActionId, h: Host)
    requires ActionInv(a, id, h) && h.pc.Posting? && h.pc.rest != []
    ensures var h' := h.(pc := h.pc.(rest := h.pc.rest[1..]));
            && ActionInv(a.(sem := a.sem + 1), id, h')
            && (id != h.pc.rest[0] || (h.pc.update == 0 && !a.force) ==> ActionInv(a, id, h'))
  {
    assert h.pc.rest == [h.pc.rest[0]] + h.pc.rest[1..];
  }

  lemma PostedIsOwn(s: State, hid: HostId)
    requires Inv(s) && hid in s.hosts && s.hosts[hid].pc.Posting? && s.hosts[hid].pc.rest != []
    ensures var id := s.hosts[hid].pc.rest[0]; id in s.actions && s.actions[id].host == hid
  {
    hide ActionInv, Distinct;
    assert HostInv(s.hosts[hid]) && s.hosts[hid].pc.rest[0] in s.hosts[hid].actions;
  }

  lemma EachHolds(s: State, id: ActionId)
    requires Inv(s) && id in s.actions
    ensures s.actions[id].host in s.hosts && ActionInv(s.actions[id], id, s.hosts[s.actions[id].host])
  {
    hide ActionInv, HostInv, Distinct;
  }

  lemma PostEach(s: State, s': State, hid: HostId, id: ActionId)
    requires Inv(s) && PostOne(s, s', hid) && id in s'.actions
    ensures ActionInv(s'.actions[id], id, s'.hosts[s'.actions[id].host])
  {
    hide ActionInv, Inv;
    PostedIsOwn(s, hid);
    EachHolds(s, id);
    if s.actions[id].host == hid {
      PostAction(s.actions[id], id, s.hosts[hid]);
    }
  }

  lemma PostKeeps(s: State, s': State, hid: HostId)
    requires Inv(s) && Next(s, s', Post(hid))
    ensures Inv(s')
  {
    hide ActionInv;
    assert HostInv(s.hosts[hid]) && HostInv(s'.hosts[hid]);
    LinksUntouched(s, s');
    forall id | id in s'.actions ensures ActionInv(s'.actions[id], id, s'.hosts[s'.actions[id].host]) {
      PostEach(s, s', hid, id);
    }
  }

  lemma FreshActionInv(a: Action, id: ActionId, h: Host)
    requires FreshAction(a)
    ensures ActionInv(a, id, h)
  {}

  lemma KeptActionInv(a: Action, id: ActionId, h: Host, h': Host)
    requires ActionInv(a, id, h) && SameHost(h, h') && !h.pc.Posting?
    ensures ActionInv(a, id, h')
  {}

  lemma ReloadKeeps(s: State, s': State)
    requires Inv(s) && Next(s, s', Reload)
    ensures Inv(s')
  {
    forall a | a in s'.actions ensures ActionInv(s'.actions[a], a, s'.hosts[s'.actions[a].host]) {
      if a in s.actions {
        KeptActionInv(s.actions[a], a, s.hosts[s.actions[a].host], s'.hosts[s'.actions[a].host]);
      } else {
        FreshActionInv(s'.actions[a], a, s'.hosts[s'.actions[a].host]);
      }
    }
  }

  lemma StepKeeps(s: State, s': State, l: Label)
    requires Inv(s) && Next(s, s', l)
    ensures Inv(s')
  {
    hide HostCan, HostDo, ActionCan, ActionDo, ActionInv, HostInv;
    match l
    case HostMove(h, st) => HostMoveKeeps(s, s', h, st);
    case ActionMove(a, st) => ActionMoveKeeps(s, s', a, st);
    case Post(h) => PostKeeps(s, s', h);
    case Exit(h) =>
    case Reload => ReloadKeeps(s, s');
  }

  lemma {:induction false} RunInv(states: seq<State>, labels: seq<Label>, i: nat)
    requires Run(states, labels) && i < |states|
    ensures Inv(states[i])
    decreases i
  {
    if i > 0 {
      RunInv(states, labels, i - 1);
      StepKeeps(states[i - 1], states[i], labels[i - 1]);
    }
  }

  /** In every state of every run: an action that waits with no post pending and has run
      once holds exactly its host's addresses while the host is idle, and these are the
      static address and the latest resolver answer; the table list and the kernel's table
      hold the action's addresses; no list repeats an address; and every refcnt is the
      number of linked actions. */
  lemma QuietMeansInSync(states: seq<State>, labels: seq<Label>, i: nat)
    requires Run(states, labels) && i < |states|
    ensures forall id | id in states[i].actions ::
              var a := states[i].actions[id];
              && a.host in states[i].hosts
              && var h := states[i].hosts[a.host];
              && NoDup(a.list) && NoDup(a.tbl) && NoDup(h.list)
              && (a.pc.Waiting? && a.sem == 0 && !a.force && h.pc.Idle? ==>
                    Addrs(a.list) == Addrs(h.list) == Statics(h.list) + h.answer)
              && (a.hasTable && !a.pc.Copying? ==> a.kernel == Addrs(a.tbl) == Addrs(a.list))
    ensures forall h | h in states[i].hosts :: states[i].hosts[h].refcnt == |states[i].hosts[h].actions|
  {
    RunInv(states, labels, i);
    var s := states[i];
    forall id | id in s.actions
      ensures var a, h := s.actions[id], s.hosts[s.actions[id].host];
              && (a.pc.Waiting? && a.sem == 0 && !a.force && h.pc.Idle? ==>
                    Addrs(a.list) == Addrs(h.list) == Statics(h.list) + h.answer)
              && (a.hasTable && !a.pc.Copying? ==> a.kernel == Addrs(a.tbl) == Addrs(a.list))
    {
      assert ActionInv(s.actions[id], id, s.hosts[s.actions[id].host]);
      ItemsSets(s.hosts[s.actions[id].host].list);
      Views(s.actions[id].list);
    }
  }

  /** A set that differs from the host's is never forgotten: in every reachable state some
      round that will repair it is already under way or signalled. */
  lemma StaleMeansSignalled(states: seq<State>, labels: seq<Label>, i: nat, id: ActionId)
    requires Run(states, labels) && i < |states| && id in states[i].actions
    requires states[i].actions[id].host in states[i].hosts
    requires Addrs(states[i].actions[id].list) != Addrs(states[i].hosts[states[i].actions[id].host].list)
    ensures var a, h := states[i].actions[id], states[i].hosts[states[i].actions[id].host];
            a.force || a.sem > 0 || !a.pc.Waiting? || WillPost(h, id)
  {
    RunInv(states, labels, i);
    ItemsSets(states[i].hosts[states[i].actions[id].host].list);
  }
}
