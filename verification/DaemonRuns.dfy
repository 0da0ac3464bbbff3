/** The daemon as a whole: rounds of its threads, host threads that leave, and reloads of real
    configuration files, one after the other. Every such history is a run of the protocol. */
module DaemonRuns {
  import opened Ascii
  import opened Wrappers
  import opened AddrList
  import opened FilterDns
  import opened RoundRuns
  import opened MergeConfig
  import opened Reload
  import opened Loads

  /** The library: strtol with base 0 on a whole text, and the address that a numeric name denotes. */
  datatype Env = Env(strtol: string -> Option<int>, numeric: string -> FilterDns.Answer)

  /** The daemon's memory, its action list and the actions that have a thread. */
  datatype World = World(memory: Memory, list: seq<ActionId>, started: set<ActionId>)

  datatype Step = Round(move: Label) | Leave(host: HostId) | Load(cfg: seq<Rule>)

  /** The list without a host; a host is on it once. */
  function Dropped(threads: seq<HostId>, h: HostId): seq<HostId> {
    if threads == [] then []
    else if threads[0] == h then Dropped(threads[1..], h)
    else [threads[0]] + Dropped(threads[1..], h)
  }

  /** A round changes the threads' state only; a host thread that starts looks whether its name is an
      address. A host thread that leaves takes itself off the list.
      A reload waits until no thread is inside its lock. */
  ghost predicate Happens(w: World, w': World, step: Step, env: Env) {
    match step
    case Round(l) =>
      && !l.Reload? && !l.Exit? && Next(w.memory.state, w'.memory.state, l)
      && (l.HostMove? && l.hostStep.Start? ==>
            l.host in w.memory.names && l.hostStep.address == env.numeric(w.memory.names[l.host].name))
      && w' == w.(memory := w.memory.(state := w'.memory.state))
    case Leave(h) =>
      && Next(w.memory.state, w'.memory.state, Exit(h))
      && w' == w.(memory := w.memory.(state := w'.memory.state, threads := Dropped(w.memory.threads, h),
                                      names := w.memory.names - {h}))
    case Load(cfg) =>
      && Unlocked(w.memory.state) && Merged(w.memory, w.list, cfg, env.strtol).Some?
      && var r := Merged(w.memory, w.list, cfg, env.strtol).value;
      && var s := StartActions(r.memory.state, r.list, w.started);
      && w' == World(r.memory.(state := s), r.list, w.started + s.actions.Keys)
  }

  const START := World(Memory(State(map[], map[]), [], map[], map[], 0, []), [], {})

  ghost predicate History(worlds: seq<World>, steps: seq<Step>, env: Env) {
    && |worlds| == |steps| + 1 && worlds[0] == START
    && forall i | 0 <= i < |steps| :: Happens(worlds[i], worlds[i + 1], steps[i], env)
  }

  /** What reloads rely on. */
  ghost predicate Ready(w: World) {
    && Inv(w.memory.state) && Quiescent(w.memory, w.list) && Threaded(w.memory, w.started)
    && Anchored(w.memory) && Tabled(w.memory)
  }

  function LabelOf(step: Step): Label {
    match step
    case Round(l) => l
    case Leave(h) => Exit(h)
    case Load(_) => Label.Reload
  }

  // ----- rounds -----

  /** A round keeps who is there and who is linked to whom. */
  ghost predicate SameLinks(s: State, s': State) {
    && s'.actions.Keys == s.actions.Keys && s'.hosts.Keys == s.hosts.Keys
    && (forall a | a in s.actions :: s'.actions[a].host == s.actions[a].host)
    && forall a | a in s.actions :: s'.actions[a].hasTable == s.actions[a].hasTable
  }

  lemma RoundKeepsLinks(s: State, s': State, l: Label)
    requires Next(s, s', l) && !l.Reload? && !l.Exit?
    ensures SameLinks(s, s')
  {
    hide HostDo, HostCan, ActionCan;
  }

  /** A round of any thread leaves a reload what it relies on. */
  lemma RoundKeeps(w: World, w': World, l: Label, env: Env)
    requires Ready(w) && Happens(w, w', Round(l), env)
    ensures Ready(w')
  {
    var m, m' := w.memory, w'.memory;
    StepKeeps(m.state, m'.state, l);
    RoundKeepsLinks(m.state, m'.state, l);
    hide Next, Inv, Quiescent, Anchored, Tabled, SameLinks;
    InvLinked(m'.state);
    SameLinksQuiescent(m, m', w.list);
    SameLinksAnchored(m, m', w.started);
  }

  lemma SameLinksAnchored(m: Memory, m': Memory, started: set<ActionId>)
    requires Anchored(m) && Tabled(m) && Threaded(m, started) && SameLinks(m.state, m'.state)
    requires m' == m.(state := m'.state)
    ensures Anchored(m') && Tabled(m') && Threaded(m', started)
  {
    hide FirstHost, FirstSlash;
  }

  lemma InvLinked(s: State)
    requires Inv(s)
    ensures Linked(s)
  {}

  lemma SameLinksQuiescent(m: Memory, m': Memory, list: seq<ActionId>)
    requires Quiescent(m, list) && Linked(m'.state) && SameLinks(m.state, m'.state) && m' == m.(state := m'.state)
    ensures Quiescent(m', list)
  {
    hide Linked, Distinct;
  }

  // ----- a host thread that leaves -----

  lemma {:induction false} DroppedIn(threads: seq<HostId>, h: HostId)
    ensures forall x :: x in Dropped(threads, h) <==> x in threads && x != h
  {
    if threads != [] {
      DroppedIn(threads[1..], h);
      assert forall x :: x in threads <==> x == threads[0] || x in threads[1..];
    }
  }

  lemma {:induction false} FirstHostDropped(threads: seq<HostId>, names: map<HostId, HostName>, h: HostId,
      hostname: string)
    requires FirstHost(threads, names, hostname).Some? && FirstHost(threads, names, hostname) != Some(h)
    ensures FirstHost(Dropped(threads, h), names - {h}, hostname) == FirstHost(threads, names, hostname)
  {
    hide HostMatches;
    if !(threads[0] in names && HostMatches(names[threads[0]].name, hostname)) {
      FirstHostDropped(threads[1..], names, h, hostname);
    }
  }

  /** So does a host thread that leaves. */
  lemma LeaveKeeps(w: World, w': World, h: HostId, env: Env)
    requires Ready(w) && Happens(w, w', Leave(h), env)
    ensures Ready(w')
  {
    var s := w.memory.state;
    assert h in s.hosts && s.hosts[h].refcnt == 0 && w'.memory.state == s.(hosts := s.hosts - {h});
    hide Inv, Anchored, Quiescent, Next;
    StepKeeps(s, w'.memory.state, Exit(h));
    InvLinked(s);
    InvLinked(w'.memory.state);
    ZeroIsUnused(s, h);
    LeaveAnchored(w.memory, w'.memory, h);
    LeaveQuiescent(w.memory, w'.memory, h, w.list);
  }

  lemma ZeroIsUnused(s: State, h: HostId)
    requires Linked(s) && h in s.hosts && s.hosts[h].refcnt == 0
    ensures Unused(s, h)
  {
    hide Distinct;
  }

  lemma LeaveQuiescent(m: Memory, m': Memory, h: HostId, list: seq<ActionId>)
    requires Quiescent(m, list) && Linked(m'.state)
    requires m' == m.(state := m.state.(hosts := m.state.hosts - {h}), threads := Dropped(m.threads, h),
            names := m.names - {h})
    ensures Quiescent(m', list)
  {
    hide Linked, Distinct;
    DroppedIn(m.threads, h);
  }

  /** No action is linked to the host. */
  ghost predicate Unused(s: State, h: HostId) {
    forall a | a in s.actions :: s.actions[a].host != h
  }

  lemma LeaveAnchored(m: Memory, m': Memory, h: HostId)
    requires Anchored(m) && Unused(m.state, h)
    requires m' == m.(state := m.state.(hosts := m.state.hosts - {h}), threads := Dropped(m.threads, h),
            names := m.names - {h})
    ensures Anchored(m')
  {
    hide FirstHost, FirstSlash;
    forall a | a in m'.state.actions && a in m'.rules && FirstSlash(m'.rules[a].hostname) != Some(0)
      ensures FirstHost(m'.threads, m'.names, m'.rules[a].hostname) == Some(m'.state.actions[a].host)
    {
      FirstHostDropped(m.threads, m.names, h, m.rules[a].hostname);
    }
  }

  // ----- reloads and whole histories -----

  lemma QuiescentIsValid(m: Memory, list: seq<ActionId>)
    requires Quiescent(m, list)
    ensures ValidMemory(m)
  {}

  /** A reload of any file is the protocol's reload, and the next one finds what it relies on. */
  lemma LoadKeeps(w: World, w': World, cfg: seq<Rule>, env: Env)
    requires Ready(w) && Happens(w, w', Load(cfg), env)
    ensures Ready(w') && Next(w.memory.state, w'.memory.state, Label.Reload)
  {
    hide Merged, StartActions, Next, Inv, Quiescent, Threaded, Anchored, Unlocked, Tabled, ValidMemory;
    ReloadRefinesMerge(w.memory, w.list, cfg, env.strtol, w.started);
    StepKeeps(w.memory.state, w'.memory.state, Label.Reload);
    ReloadDone(w.memory, w.list, cfg, env.strtol, w.started);
    ReloadThreaded(w.memory, w.list, cfg, env.strtol, w.started);
    ReloadStaysAnchored(w.memory, w.list, cfg, env.strtol, w.started);
    assert ValidMemory(w.memory) by { QuiescentIsValid(w.memory, w.list); }
    ReloadTabled(w.memory, w.list, cfg, env.strtol, w.started);
  }

  lemma HappensKeeps(w: World, w': World, step: Step, env: Env)
    requires Ready(w) && Happens(w, w', step, env)
    ensures Ready(w') && Next(w.memory.state, w'.memory.state, LabelOf(step))
  {
    hide Ready, Next, Merged, StartActions, Unlocked;
    match step
    case Round(l) => RoundKeeps(w, w', l, env);
    case Leave(h) => LeaveKeeps(w, w', h, env);
    case Load(cfg) => LoadKeeps(w, w', cfg, env);
  }

  /** In every moment of every history the next reload finds what it relies on. */
  lemma {:induction false} HistoryReady(worlds: seq<World>, steps: seq<Step>, env: Env, i: nat)
    requires History(worlds, steps, env) && i < |worlds|
    ensures Ready(worlds[i])
    decreases i
  {
    if i > 0 {
      hide Ready, Happens;
      HistoryReady(worlds, steps, env, i - 1);
      assert Happens(worlds[i - 1], worlds[i - 1 + 1], steps[i - 1], env);
      HappensKeeps(worlds[i - 1], worlds[i], steps[i - 1], env);
    } else {
      StartReady();
    }
  }

  lemma StartReady()
    ensures Ready(START)
  {}

  function StatesOf(worlds: seq<World>): seq<State> {
    seq(|worlds|, i requires 0 <= i < |worlds| => worlds[i].memory.state)
  }

  function LabelsOf(steps: seq<Step>): seq<Label> {
    seq(|steps|, i requires 0 <= i < |steps| => LabelOf(steps[i]))
  }

  /** Every history is a run of the protocol, so what holds of its runs holds of the daemon. */
  lemma HistoryIsRun(worlds: seq<World>, steps: seq<Step>, env: Env)
    requires History(worlds, steps, env)
    ensures Run(StatesOf(worlds), LabelsOf(steps))
  {
    hide Ready, Happens, Next;
    var states, labels := StatesOf(worlds), LabelsOf(steps);
    forall i | 0 <= i < |labels| ensures Next(states[i], states[i + 1], labels[i]) {
      HistoryReady(worlds, steps, env, i);
      HappensKeeps(worlds[i], worlds[i + 1], steps[i], env);
    }
  }

  // ----- what a host was told -----

  /** A host thread that has started was told exactly the address that its name denotes. */
  ghost predicate NamedTold(w: World, labels: seq<Label>, env: Env, h: HostId) {
    h in w.memory.state.hosts && !w.memory.state.hosts[h].pc.Starting? ==>
      h in w.memory.names && Told(labels, h) == AddressOf(env.numeric(w.memory.names[h].name))
  }

  lemma NamesStay(w: World, w': World, step: Step, env: Env, h: HostId)
    requires Ready(w) && Happens(w, w', step, env) && h in w.memory.state.hosts && h in w'.memory.state.hosts
    ensures h in w.memory.names && h in w'.memory.names && w'.memory.names[h] == w.memory.names[h]
  {
    assert step.Leave? ==> h != step.host;
    hide Inv, Next, Anchored, Tabled, StartActions, Linked, Distinct, Merged, Unlocked;
    if step.Load? {
      ReloadAnchored(w.memory, w.list, step.cfg, env.strtol);
    }
  }

  lemma StartsOnce(s: State, s': State, l: Label, h: HostId)
    requires Next(s, s', l) && h in s'.hosts && !s'.hosts[h].pc.Starting?
    ensures h in s.hosts && l != Exit(h)
    ensures s.hosts[h].pc.Starting? <==> l.HostMove? && l.host == h && l.hostStep.Start?
  {
    hide ActionCan, ActionDo, Linked;
  }

  lemma StepTold(w: World, w': World, step: Step, env: Env, labels: seq<Label>, h: HostId)
    requires Ready(w) && Happens(w, w', step, env) && NamedTold(w, labels, env, h)
    requires Agrees(w.memory.state, labels, h)
    ensures NamedTold(w', labels + [LabelOf(step)], env, h)
  {
    hide Ready, Next, Told, Answered, Merged, StartActions, Unlocked;
    if h in w'.memory.state.hosts && !w'.memory.state.hosts[h].pc.Starting? {
      var l := LabelOf(step);
      HappensKeeps(w, w', step, env);
      StartsOnce(w.memory.state, w'.memory.state, l, h);
      NamesStay(w, w', step, env, h);
      LastLabel(labels, l, h);
    }
  }

  lemma {:induction false} HistoryTold(worlds: seq<World>, steps: seq<Step>, env: Env, i: nat, h: HostId)
    requires History(worlds, steps, env) && i < |worlds|
    ensures |LabelsOf(steps)| == |steps| && NamedTold(worlds[i], LabelsOf(steps)[..i], env, h)
    decreases i
  {
    hide History, Ready, Happens, Run, Agrees, Told;
    HistoryStarts(worlds, steps, env);
    if i > 0 {
      var labels := LabelsOf(steps);
      hide NamedTold;
      HistoryStep(worlds, steps, env, i - 1);
      HistoryTold(worlds, steps, env, i - 1, h);
      HistoryReady(worlds, steps, env, i - 1);
      HistoryIsRun(worlds, steps, env);
      StateAt(worlds, i - 1);
      HostsFollowLabels(StatesOf(worlds), labels, i - 1, h);
      assert labels[..i] == labels[..i - 1] + [LabelOf(steps[i - 1])];
      StepTold(worlds[i - 1], worlds[i], steps[i - 1], env, labels[..i - 1], h);
    }
  }

  lemma HistoryStarts(worlds: seq<World>, steps: seq<Step>, env: Env)
    requires History(worlds, steps, env)
    ensures |worlds| == |steps| + 1 && worlds[0].memory.state.hosts == map[]
  {}

  lemma HistoryStep(worlds: seq<World>, steps: seq<Step>, env: Env, i: nat)
    requires History(worlds, steps, env) && i < |steps|
    ensures |worlds| == |steps| + 1 && Happens(worlds[i], worlds[i + 1], steps[i], env)
  {}

  // ----- an action at any moment -----

  /** The action has begun a round, waits, and has been woken as often as it was posted. */
  ghost predicate Quiet(states: seq<State>, labels: seq<Label>, i: nat, id: ActionId)
    requires i < |states| && i <= |labels| && id in states[i].actions
  {
    states[i].actions[id].pc.Waiting? && Began(states, labels, i, id)
    && Wakes(states, labels, i, id) == Posts(states, labels, i, id)
  }

  /** The action is listed, has its thread and its line, a table exactly if the line names one, and is
      linked to the first host on the list that its name matches. */
  ghost predicate Placed(w: World, id: ActionId)
    requires id in w.memory.state.actions
  {
    var m := w.memory;
    && id in w.list && id in w.started && id in m.rules
    && (m.state.actions[id].hasTable <==> m.rules[id].tablename.Some?)
    && (FirstSlash(m.rules[id].hostname) != Some(0) ==>
          FirstHost(m.threads, m.names, m.rules[id].hostname) == Some(m.state.actions[id].host))
  }

  /** The kernel's table, for an action that has one, and the action's own list hold these addresses. */
  ghost predicate Serves(a: Action, addresses: set<SockAddr>) {
    Addrs(a.list) == addresses && (a.hasTable ==> a.kernel == Addrs(a.tbl) == addresses)
  }

  /** At any moment of any history of rounds, departures and reloads: every live action is placed, and
      one that is quiet while its host is idle serves exactly the address that its host's name denotes
      and those of its host's latest lookup. */
  lemma DaemonInSync(worlds: seq<World>, steps: seq<Step>, env: Env, i: nat, id: ActionId)
    requires History(worlds, steps, env) && i < |worlds| && id in worlds[i].memory.state.actions
    ensures |StatesOf(worlds)| == |worlds| == |LabelsOf(steps)| + 1
    ensures StatesOf(worlds)[i] == worlds[i].memory.state && Placed(worlds[i], id)
    ensures var m := worlds[i].memory;
            var a := m.state.actions[id];
            && a.host in m.state.hosts && a.host in m.names
            && (Quiet(StatesOf(worlds), LabelsOf(steps), i, id) && m.state.hosts[a.host].pc.Idle? ==>
                  Serves(a, AddressOf(env.numeric(m.names[a.host].name)) + Answered(LabelsOf(steps)[..i], a.host)))
  {
    var states, labels, m := StatesOf(worlds), LabelsOf(steps), worlds[i].memory;
    HistoryIsRun(worlds, steps, env);
    HistoryReady(worlds, steps, env, i);
    StateAt(worlds, i);
    HistoryTold(worlds, steps, env, i, m.state.actions[id].host);
    hide History, Ready, Placed, Run, Began, Wakes, Posts, Told, Answered;
    ReadyPlaces(worlds[i], id);
    RunStarts(states, labels);
    QuietMeansTold(states, labels, i, id);
  }

  lemma ReadyPlaces(w: World, id: ActionId)
    requires Ready(w) && id in w.memory.state.actions
    ensures Placed(w, id)
    ensures w.memory.state.actions[id].host in w.memory.state.hosts && w.memory.state.actions[id].host in w.memory.names
  {
    assert Linked(w.memory.state) && WellNamed(w.memory);
    hide Inv, ValidMemory, Distinct, FirstHost, FirstSlash;
  }

  lemma StateAt(worlds: seq<World>, i: nat)
    requires i < |worlds|
    ensures |StatesOf(worlds)| == |worlds| && StatesOf(worlds)[i] == worlds[i].memory.state
  {}

  /** At any moment of any history, live actions whose names have no mask share a host exactly when the
      names are the same but for the case of letters. */
  lemma HostsAreShared(worlds: seq<World>, steps: seq<Step>, env: Env, i: nat, a: ActionId, b: ActionId)
    requires History(worlds, steps, env) && i < |worlds|
    requires a in worlds[i].memory.state.actions && b in worlds[i].memory.state.actions
    ensures var m := worlds[i].memory;
            && a in m.rules && b in m.rules
            && ('/' !in m.rules[a].hostname && '/' !in m.rules[b].hostname ==>
                  (m.state.actions[a].host == m.state.actions[b].host <==>
                   Folded(m.rules[a].hostname) == Folded(m.rules[b].hostname)))
  {
    HistoryReady(worlds, steps, env, i);
    hide History, Inv, Anchored, Tabled, ValidMemory;
    var m := worlds[i].memory;
    if '/' !in m.rules[a].hostname && '/' !in m.rules[b].hostname { SharedHost(m, a, b); }
  }
}
