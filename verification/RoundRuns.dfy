/** What the labels of a run say about its states: which addresses a host was told, whom its rounds
    call, how often an action is woken, and that every round ends. The fields that the threads keep
    for themselves (the answer, the update counter, the semaphore, the force flag) are not taken as
    given here but derived from what happened. */
module RoundRuns {
  import opened AddrList
  import opened FilterDns

  // ----- what a host was told -----

  /** The address a numeric host name stands for. */
  function AddressOf(a: Answer): set<SockAddr> {
    match a
    case NotNumeric => {}
    case Numeric(x) => {x}
  }

  /** The addresses entered when the thread of host `h` started, until it left. */
  function Told(labels: seq<Label>, h: HostId): set<SockAddr> {
    if labels == [] then {}
    else
      var l, before := labels[|labels| - 1], Told(labels[..|labels| - 1], h);
      if l == Exit(h) then {}
      else if l.HostMove? && l.host == h && l.hostStep.Start? then before + AddressOf(l.hostStep.address)
      else before
  }

  /** The addresses of the latest lookup of host `h`, until it left. */
  function Answered(labels: seq<Label>, h: HostId): set<SockAddr> {
    if labels == [] then {}
    else
      var l := labels[|labels| - 1];
      if l == Exit(h) then {}
      else if l.HostMove? && l.host == h && l.hostStep.BeginRound? then AddrSet(l.hostStep.answer)
      else Answered(labels[..|labels| - 1], h)
  }

  ghost predicate HostAgrees(h: Host, told: set<SockAddr>, answered: set<SockAddr>) {
    Statics(h.list) == told && h.answer == answered && (h.pc.Starting? ==> told == {})
  }

  ghost predicate Agrees(s: State, labels: seq<Label>, h: HostId) {
    if h in s.hosts then HostAgrees(s.hosts[h], Told(labels, h), Answered(labels, h))
    else Told(labels, h) == {} && Answered(labels, h) == {}
  }

  lemma LastLabel(labels: seq<Label>, l: Label, h: HostId)
    ensures Told(labels + [l], h) ==
            if l == Exit(h) then {}
            else if l.HostMove? && l.host == h && l.hostStep.Start? then Told(labels, h) + AddressOf(l.hostStep.address)
            else Told(labels, h)
    ensures Answered(labels + [l], h) ==
            if l == Exit(h) then {}
            else if l.HostMove? && l.host == h && l.hostStep.BeginRound? then AddrSet(l.hostStep.answer)
            else Answered(labels, h)
  {
    assert (labels + [l])[..|labels|] == labels;
  }

  lemma HostStepAgrees(h: Host, st: HostStep, told: set<SockAddr>, answered: set<SockAddr>)
    requires HostInv(h) && HostCan(h, st) && HostAgrees(h, told, answered)
    ensures HostAgrees(HostDo(h, st), if st.Start? then told + AddressOf(st.address) else told,
                       if st.BeginRound? then AddrSet(st.answer) else answered)
  {
    if st.Start? {
      StartKeeps(h, st);
      if st.address.Numeric? { assert Add([], Item(st.address.addr, true))[1..] == []; }
    } else {
      HostKeeps(h, st);
    }
  }

  lemma StepAgrees(s: State, s': State, l: Label, labels: seq<Label>, h: HostId)
    requires Inv(s) && Next(s, s', l) && Agrees(s, labels, h)
    ensures Agrees(s', labels + [l], h)
  {
    LastLabel(labels, l, h);
    hide HostDo, HostCan, ActionCan, ActionDo, ActionInv, Linked, Told, Answered;
    if l.HostMove? && l.host == h {
      hide HostAgrees;
      HostStepAgrees(s.hosts[h], l.hostStep, Told(labels, h), Answered(labels, h));
    }
  }

  lemma StartAgrees(s: State, h: HostId)
    requires s.hosts == map[]
    ensures Agrees(s, [], h)
  {}

  lemma RunStep(states: seq<State>, labels: seq<Label>, i: nat)
    requires Run(states, labels) && i < |labels|
    ensures |states| == |labels| + 1 && Next(states[i], states[i + 1], labels[i])
  {}

  lemma RunStarts(states: seq<State>, labels: seq<Label>)
    requires Run(states, labels)
    ensures |states| == |labels| + 1 && states[0].hosts == map[] && states[0].actions == map[]
  {}

  /** In every state of every run a host's static addresses are exactly those entered when its thread
      started, and its answer is that of its latest lookup. */
  lemma {:induction false} HostsFollowLabels(states: seq<State>, labels: seq<Label>, i: nat, h: HostId)
    requires Run(states, labels) && i < |states|
    ensures Agrees(states[i], labels[..i], h)
    decreases i
  {
    hide Run, Agrees, Next, Inv;
    RunStarts(states, labels);
    if i > 0 {
      RunStep(states, labels, i - 1);
      HostsFollowLabels(states, labels, i - 1, h);
      RunInv(states, labels, i - 1);
      assert labels[..i] == labels[..i - 1] + [labels[i - 1]];
      StepAgrees(states[i - 1], states[i], labels[i - 1], labels[..i - 1], h);
    } else {
      StartAgrees(states[0], h);
    }
  }

  lemma {:induction false} ToldStays(labels: seq<Label>, j: nat, h: HostId, a: SockAddr)
    requires j < |labels| && labels[j] == HostMove(h, Start(Numeric(a)))
    requires forall n | j < n < |labels| :: labels[n] != Exit(h)
    ensures a in Told(labels, h)
  {
    if j < |labels| - 1 { ToldStays(labels[..|labels| - 1], j, h, a); }
  }

  lemma StepKeepsHost(s: State, s': State, l: Label, h: HostId)
    requires Next(s, s', l) && l != Exit(h) && h in s.hosts
    ensures h in s'.hosts
  {}

  lemma {:induction false} HostStays(states: seq<State>, labels: seq<Label>, j: nat, i: nat, h: HostId)
    requires Run(states, labels) && j <= i < |states| && h in states[j].hosts
    requires forall n | j <= n < i :: labels[n] != Exit(h)
    ensures h in states[i].hosts
    decreases i
  {
    hide Run, Next;
    RunStarts(states, labels);
    if j < i {
      RunStep(states, labels, i - 1);
      HostStays(states, labels, j, i - 1, h);
      StepKeepsHost(states[i - 1], states[i], labels[i - 1], h);
    }
  }

  /** A host thread that finds its name to be an address keeps that address, marked static, in every
      later state until it leaves. */
  lemma StaticStays(states: seq<State>, labels: seq<Label>, j: nat, i: nat, h: HostId, a: SockAddr)
    requires Run(states, labels) && j < i < |states| && labels[j] == HostMove(h, Start(Numeric(a)))
    requires forall n | j < n < i :: labels[n] != Exit(h)
    ensures h in states[i].hosts && a in Statics(states[i].hosts[h].list)
  {
    assert Next(states[j], states[j + 1], labels[j]);
    HostStays(states, labels, j, i, h);
    assert labels[..i][j] == labels[j];
    ToldStays(labels[..i], j, h, a);
    HostsFollowLabels(states, labels, i, h);
  }

  // ----- what a round changes -----

  /** The addresses of host `h`, new ones apart, when its latest round began. */
  ghost function Before(states: seq<State>, labels: seq<Label>, i: nat, h: HostId): set<SockAddr>
    requires i < |states| && i <= |labels|
  {
    if i == 0 then {}
    else if labels[i - 1].HostMove? && labels[i - 1].host == h && labels[i - 1].hostStep.BeginRound?
            && h in states[i - 1].hosts then
      Addrs(states[i - 1].hosts[h].list) - Fresh(states[i - 1].hosts[h].list)
    else Before(states, labels, i - 1, h)
  }

  /** How the update counter of a round relates to the addresses `b` it began with. */
  ghost predicate Counts(h: Host, b: set<SockAddr>) {
    var a, f := Addrs(h.list), Fresh(h.list);
    match h.pc
    case Starting => true
    case Idle => true
    case Resolving(_) => a - f == b
    case Sweeping(_, u) => u == |b - a| + |(a - f) - b| && f !! b && a - Kept(h.list) <= b
    case Posting(_, u) => u == |b - a| + |a - b|
  }

  lemma DropCounts<T>(b: set<T>, a: set<T>, f: set<T>, x: T)
    requires x in a && x in b && x !in f
    ensures |b - (a - {x})| == |b - a| + 1 && ((a - {x}) - f) - b == (a - f) - b
  {
    assert b - (a - {x}) == (b - a) + {x};
  }

  lemma PassCounts<T>(b: set<T>, a: set<T>, f: set<T>, x: T)
    requires x in f && f <= a && x !in b
    ensures |(a - (f - {x})) - b| == |(a - f) - b| + 1
  {
    assert (a - (f - {x})) - b == ((a - f) - b) + {x};
  }

  lemma EntryApart(s: seq<Entry>, i: nat)
    requires i < |s| && NoDup(s)
    ensures s[i].addr in Addrs(s) && (s[i].isNew <==> s[i].addr in Fresh(s)) && (s[i].isOld <==> s[i].addr !in Kept(s))
    ensures Addrs(s[..i] + s[i + 1..]) == Addrs(s) - {s[i].addr}
  {
    Around(s, i);
    AroundWhole(s, i);
    Append(s[..i], s[i + 1..]);
    Views(s[..i]);
    Views(s[i + 1..]);
  }

  lemma DropKeepsCount(h: Host, b: set<SockAddr>)
    requires HostInv(h) && Counts(h, b) && HostCan(h, SweepOne) && h.list[h.pc.next].isOld
    ensures Counts(HostDo(h, SweepOne), b)
  {
    var s, i := h.list, h.pc.next;
    EntryApart(s, i);
    DropOld(s, i);
    Views(s);
    DropCounts(b, Addrs(s), Fresh(s), s[i].addr);
  }

  lemma PassSets(s: seq<Entry>, i: nat)
    requires i < |s| && NoDup(s) && !s[i].isOld
    ensures var t := s[..i] + [s[i].(isNew := false)] + s[i + 1..];
            Addrs(t) == Addrs(s) && Kept(t) == Kept(s) && Fresh(t) == Fresh(s) - {s[i].addr}
  {
    var e := s[i].(isNew := false);
    var t := s[..i] + [e] + s[i + 1..];
    assert t[..i] == s[..i] && t[i] == e && t[i + 1..] == s[i + 1..];
    Around(s, i);
    AroundWhole(s, i);
    Around(t, i);
    Views(s[..i]);
    Views(s[i + 1..]);
    hide NoDup, Exclusive, Addrs, Fresh, Kept, Statics;
  }

  lemma PassKeepsCount(h: Host, b: set<SockAddr>)
    requires HostInv(h) && Counts(h, b) && HostCan(h, SweepOne) && !h.list[h.pc.next].isOld
    ensures Counts(HostDo(h, SweepOne), b)
  {
    var s, i := h.list, h.pc.next;
    assert NoDup(s) && Exclusive(s);
    EntryApart(s, i);
    PassSets(s, i);
    Views(s);
    PassedSets(b, Addrs(s), Fresh(s), s[i].addr);
  }

  lemma PassedSets<T>(b: set<T>, a: set<T>, f: set<T>, x: T)
    requires f <= a && x in a && f !! b
    ensures x in f ==> |(a - (f - {x})) - b| == |(a - f) - b| + 1
    ensures x !in f ==> f - {x} == f
    ensures f - {x} !! b
  {
    if x in f { PassCounts(b, a, f, x); }
  }

  lemma BeginCounts(h: Host, st: HostStep)
    requires HostInv(h) && HostCan(h, st) && st.BeginRound?
    ensures Counts(HostDo(h, st), Addrs(h.list) - Fresh(h.list))
  {
    MarkSets(h.list);
  }

  lemma AddedFresh<T>(a: set<T>, f: set<T>, x: T)
    requires f <= a
    ensures x in a ==> a + {x} == a
    ensures x !in a ==> (a + {x}) - (f + {x}) == a - f
  {}

  lemma ResolveCounts(h: Host, b: set<SockAddr>)
    requires HostInv(h) && HostCan(h, ResolveOne) && Counts(h, b)
    ensures Counts(HostDo(h, ResolveOne), b)
  {
    var x := h.pc.todo[0];
    AddSets(h.list, Item(x, false));
    Views(h.list);
    hide NoDup, Exclusive, Addrs, Fresh, Kept, Statics, Add;
    AddedFresh(Addrs(h.list), Fresh(h.list), x);
  }

  lemma EndCounts(h: Host, st: HostStep, b: set<SockAddr>)
    requires HostInv(h) && HostCan(h, st) && Counts(h, b) && (st.EndResolve? || st.EndSweep? || st.EndRound?)
    ensures Counts(HostDo(h, st), b)
  {
    if st.EndResolve? {
      ResolvedCounts(h, b);
    } else if st.EndSweep? {
      assert h.list[..h.pc.next] == h.list;
      Views(h.list);
      assert Addrs(h.list) - Fresh(h.list) == Addrs(h.list);
    }
  }

  lemma StepCounts(h: Host, st: HostStep, b: set<SockAddr>)
    requires HostInv(h) && HostCan(h, st) && Counts(h, b)
    ensures Counts(HostDo(h, st), if st.BeginRound? then Addrs(h.list) - Fresh(h.list) else b)
  {
    match st
    case Start(_) =>
    case BeginRound(_) => BeginCounts(h, st);
    case ResolveOne => ResolveCounts(h, b);
    case EndResolve => EndCounts(h, st, b);
    case SweepOne =>
      hide Counts, HostInv;
      if h.list[h.pc.next].isOld { DropKeepsCount(h, b); } else { PassKeepsCount(h, b); }
    case EndSweep => EndCounts(h, st, b);
    case EndRound => EndCounts(h, st, b);
  }

  lemma ResolvedCounts(h: Host, b: set<SockAddr>)
    requires HostInv(h) && Counts(h, b) && h.pc.Resolving?
    ensures var a, f := Addrs(h.list), Fresh(h.list);
            |b - a| == 0 && |(a - f) - b| == 0 && f !! b && a - Kept(h.list) <= b
  {
    Views(h.list);
    var a, f := Addrs(h.list), Fresh(h.list);
    assert b - a == {} && (a - f) - b == {};
  }

  ghost predicate CountsAt(states: seq<State>, labels: seq<Label>, i: nat, h: HostId)
    requires i < |states| && i <= |labels|
  {
    h in states[i].hosts ==> Counts(states[i].hosts[h], Before(states, labels, i, h))
  }

  lemma StepCountsAt(s: State, s': State, l: Label, h: HostId, b: set<SockAddr>)
    requires Inv(s) && Next(s, s', l) && h in s'.hosts && (h in s.hosts ==> Counts(s.hosts[h], b))
    ensures Counts(s'.hosts[h], if l.HostMove? && l.host == h && l.hostStep.BeginRound? && h in s.hosts
                                then Addrs(s.hosts[h].list) - Fresh(s.hosts[h].list) else b)
  {
    hide HostDo, HostCan, ActionCan, ActionDo, ActionInv, Linked;
    if l.HostMove? && l.host == h {
      hide Counts;
      StepCounts(s.hosts[h], l.hostStep, b);
    }
  }

  /** In every state of every run the update counter of a round that posts is the number of addresses
      that came and went since the round began. */
  lemma {:induction false} RoundsCount(states: seq<State>, labels: seq<Label>, i: nat, h: HostId)
    requires Run(states, labels) && i < |states|
    ensures CountsAt(states, labels, i, h)
    decreases i
  {
    hide Run, Counts, Next, Inv, Addrs, Fresh;
    RunStarts(states, labels);
    if i > 0 {
      RunStep(states, labels, i - 1);
      RoundsCount(states, labels, i - 1, h);
      RunInv(states, labels, i - 1);
      if h in states[i].hosts {
        StepCountsAt(states[i - 1], states[i], labels[i - 1], h, Before(states, labels, i - 1, h));
      }
    }
  }

  /** The host's addresses are not those its latest round began with. */
  ghost predicate Changed(states: seq<State>, labels: seq<Label>, i: nat, h: HostId)
    requires i < |states| && i <= |labels|
  {
    h in states[i].hosts && Addrs(states[i].hosts[h].list) != Before(states, labels, i, h)
  }

  lemma NoneApart<T>(a: set<T>, b: set<T>)
    ensures |b - a| + |a - b| == 0 <==> a == b
  {
    if |b - a| + |a - b| == 0 {
      assert b - a == {} && a - b == {};
      assert forall x | x in a :: x in b;
    }
  }

  /** So the counter is zero exactly when the round changed nothing. */
  lemma PostsIfChanged(states: seq<State>, labels: seq<Label>, i: nat, h: HostId)
    requires Run(states, labels) && i < |states| && h in states[i].hosts && states[i].hosts[h].pc.Posting?
    ensures states[i].hosts[h].pc.update > 0 <==> Changed(states, labels, i, h)
  {
    RoundsCount(states, labels, i, h);
    NoneApart(Addrs(states[i].hosts[h].list), Before(states, labels, i, h));
  }

  // ----- first rounds, posts and wakes of an action -----

  /** The action has been there and has begun a round. */
  ghost predicate Began(states: seq<State>, labels: seq<Label>, i: nat, id: ActionId)
    requires i < |states| && i <= |labels|
  {
    && i > 0 && id in states[i].actions && id in states[i - 1].actions
    && (labels[i - 1] == ActionMove(id, BeginCopy) || Began(states, labels, i - 1, id))
  }

  /** The force flag of an action is set exactly until it begins its first round. */
  lemma {:induction false} ForcedUntilBegun(states: seq<State>, labels: seq<Label>, i: nat, id: ActionId)
    requires Run(states, labels) && i < |states| && id in states[i].actions
    ensures states[i].actions[id].force <==> !Began(states, labels, i, id)
    decreases i
  {
    hide Run, Next, Began;
    RunStarts(states, labels);
    if i > 0 {
      RunStep(states, labels, i - 1);
      if id in states[i - 1].actions { ForcedUntilBegun(states, labels, i - 1, id); }
      StepForces(states[i - 1], states[i], labels[i - 1], id);
      BeganLast(states, labels, i, id);
    }
  }

  lemma BeganLast(states: seq<State>, labels: seq<Label>, i: nat, id: ActionId)
    requires 0 < i < |states| && i <= |labels| && id in states[i].actions
    ensures Began(states, labels, i, id) <==>
            && id in states[i - 1].actions
            && (labels[i - 1] == ActionMove(id, BeginCopy) || Began(states, labels, i - 1, id))
  {}

  lemma StepForces(s: State, s': State, l: Label, id: ActionId)
    requires Next(s, s', l) && id in s'.actions
    ensures s'.actions[id].force <==> id !in s.actions || (s.actions[id].force && l != ActionMove(id, BeginCopy))
  {
    hide HostDo, HostCan, Linked;
  }

  /** The label posts the action: its host's round comes to it, and the host's addresses have changed
      in this round or the action has never run. */
  ghost predicate Posted(states: seq<State>, labels: seq<Label>, i: nat, id: ActionId)
    requires i < |states| && i < |labels|
  {
    && labels[i].Post? && labels[i].host in states[i].hosts
    && var pc := states[i].hosts[labels[i].host].pc;
    && pc.Posting? && pc.rest != [] && pc.rest[0] == id
    && (Changed(states, labels, i, labels[i].host) || !Began(states, labels, i, id))
  }

  ghost function Posts(states: seq<State>, labels: seq<Label>, i: nat, id: ActionId): nat
    requires i < |states| && i <= |labels|
  {
    if i == 0 || id !in states[i].actions || id !in states[i - 1].actions then 0
    else Posts(states, labels, i - 1, id) + if Posted(states, labels, i - 1, id) then 1 else 0
  }

  ghost function Wakes(states: seq<State>, labels: seq<Label>, i: nat, id: ActionId): nat
    requires i < |states| && i <= |labels|
  {
    if i == 0 || id !in states[i].actions || id !in states[i - 1].actions then 0
    else Wakes(states, labels, i - 1, id) + if labels[i - 1] == ActionMove(id, Wake) then 1 else 0
  }

  lemma StepPosts(s: State, s': State, l: Label, id: ActionId)
    requires Next(s, s', l) && id in s'.actions
    ensures id !in s.actions ==> s'.actions[id].sem == 0
    ensures id in s.actions && l.Post? ==>
              var pc := s.hosts[l.host].pc;
              s'.actions[id].sem == s.actions[id].sem +
                if pc.rest[0] == id && (pc.update > 0 || s.actions[id].force) then 1 else 0
    ensures id in s.actions && !l.Post? ==>
              s'.actions[id].sem + (if l == ActionMove(id, Wake) then 1 else 0) == s.actions[id].sem
  {
    hide HostDo, HostCan, Linked;
  }

  /** Every wake-up of an action is owed to one post, and every post is either still waiting or was
      one wake-up; and it is posted exactly when its host's round comes to it with other addresses
      than the round began with, or before its first round. */
  lemma {:induction false} PostsAndWakes(states: seq<State>, labels: seq<Label>, i: nat, id: ActionId)
    requires Run(states, labels) && i < |states| && id in states[i].actions
    ensures states[i].actions[id].sem + Wakes(states, labels, i, id) == Posts(states, labels, i, id)
    decreases i
  {
    hide Run, Next, Changed, Began;
    RunStarts(states, labels);
    if i > 0 {
      RunStep(states, labels, i - 1);
      StepPosts(states[i - 1], states[i], labels[i - 1], id);
      if id in states[i - 1].actions {
        PostsAndWakes(states, labels, i - 1, id);
        ForcedUntilBegun(states, labels, i - 1, id);
        if labels[i - 1].Post? {
          PostIsReal(states[i - 1], states[i], labels[i - 1]);
          PostsIfChanged(states, labels, i - 1, labels[i - 1].host);
        }
      }
    }
  }

  lemma PostIsReal(s: State, s': State, l: Label)
    requires Next(s, s', l) && l.Post?
    ensures l.host in s.hosts && s.hosts[l.host].pc.Posting? && s.hosts[l.host].pc.rest != []
  {}

  // ----- a round calls everyone -----

  /** The action has begun a round, or a round of it is certain. */
  predicate Called(a: Action) {
    !a.force || a.sem > 0 || a.pc.Woken?
  }

  /** The round of host `h` has called every linked action that it has passed. */
  ghost predicate CalledSoFar(s: State, h: HostId) {
    h in s.hosts && s.hosts[h].pc.Posting? ==>
      forall id | id in s.hosts[h].actions && id !in s.hosts[h].pc.rest && id in s.actions :: Called(s.actions[id])
  }

  lemma StaysCalled(s: State, s': State, l: Label, id: ActionId)
    requires Next(s, s', l) && !l.Reload? && id in s.actions && id in s'.actions && Called(s.actions[id])
    ensures Called(s'.actions[id])
  {
    hide HostDo, HostCan, Linked;
  }

  lemma SameActions(s: State, s': State, l: Label)
    requires Next(s, s', l) && !l.Reload?
    ensures s'.actions.Keys == s.actions.Keys
  {}

  /** What a step does to the list of actions that a round has still to call. */
  lemma RestShrinks(s: State, s': State, l: Label, h: HostId)
    requires Inv(s) && Next(s, s', l) && h in s'.hosts && s'.hosts[h].pc.Posting?
    ensures h in s.hosts && !l.Reload? && s'.hosts[h].actions == s.hosts[h].actions
    ensures if l == Post(h) then s.hosts[h].pc.Posting? && s.hosts[h].pc.rest != []
                                 && s'.hosts[h].pc.rest == s.hosts[h].pc.rest[1..]
            else if l.HostMove? && l.host == h then s'.hosts[h].pc.rest == s.hosts[h].actions
            else s'.hosts[h].pc == s.hosts[h].pc
  {
    hide ActionCan, ActionDo, ActionInv, HostInv;
    if l.HostMove? && l.host == h { MoveToPosting(s.hosts[h], l.hostStep); }
  }

  lemma MoveToPosting(h: Host, st: HostStep)
    requires HostCan(h, st) && HostDo(h, st).pc.Posting?
    ensures HostDo(h, st).pc.rest == h.actions && HostDo(h, st).actions == h.actions
  {}

  lemma CallsNext(s: State, s': State, h: HostId)
    requires Next(s, s', Post(h))
    ensures s.hosts[h].pc.rest[0] in s'.actions && Called(s'.actions[s.hosts[h].pc.rest[0]])
  {}

  lemma StepCalls(s: State, s': State, l: Label, h: HostId)
    requires Inv(s) && Next(s, s', l) && CalledSoFar(s, h)
    ensures CalledSoFar(s', h)
  {
    if h in s'.hosts && s'.hosts[h].pc.Posting? {
      RestShrinks(s, s', l, h);
      SameActions(s, s', l);
      if l == Post(h) { CallsNext(s, s', h); }
      hide Next, Inv, Called;
      var rest := s'.hosts[h].pc.rest;
      forall id | id in s'.hosts[h].actions && id !in rest && id in s'.actions ensures Called(s'.actions[id]) {
        if l == Post(h) && id == s.hosts[h].pc.rest[0] {
        } else {
          StaysCalled(s, s', l, id);
        }
      }
    }
  }

  lemma {:induction false} RoundCallsSoFar(states: seq<State>, labels: seq<Label>, i: nat, h: HostId)
    requires Run(states, labels) && i < |states|
    ensures CalledSoFar(states[i], h)
    decreases i
  {
    hide Run, Next, Inv;
    RunStarts(states, labels);
    if i > 0 {
      hide CalledSoFar;
      RunStep(states, labels, i - 1);
      RoundCallsSoFar(states, labels, i - 1, h);
      RunInv(states, labels, i - 1);
      StepCalls(states[i - 1], states[i], labels[i - 1], h);
    }
  }

  /** When a round of a host ends, every action linked to it has begun a round of its own, or one is
      certain: also one that is new and whose host's addresses did not change. */
  lemma RoundCallsAll(states: seq<State>, labels: seq<Label>, j: nat, h: HostId, id: ActionId)
    requires Run(states, labels) && j < |labels| && labels[j] == HostMove(h, EndRound)
    requires h in states[j].hosts && id in states[j].hosts[h].actions
    ensures id in states[j + 1].actions
    ensures var a := states[j + 1].actions[id]; Began(states, labels, j + 1, id) || a.sem > 0 || a.pc.Woken?
  {
    RunStep(states, labels, j);
    RunInv(states, labels, j);
    hide Run, Began;
    RoundCallsSoFar(states, labels, j, h);
    assert id in states[j].actions && Called(states[j].actions[id]);
    ForcedUntilBegun(states, labels, j + 1, id);
  }

  // ----- every round ends -----

  /** What a running round has still to do. */
  function Left(h: Host): nat {
    match h.pc
    case Starting => 0
    case Idle => 0
    case Resolving(todo) => 2 * |todo| + |h.list| + |h.actions| + 3
    case Sweeping(i, _) => (if i <= |h.list| then |h.list| - i else 0) + |h.actions| + 2
    case Posting(rest, _) => |rest| + 1
  }

  /** The label is a step of the round that host `h` is in. */
  predicate OwnStep(l: Label, h: HostId) {
    l == Post(h) || (l.HostMove? && l.host == h && !l.hostStep.Start? && !l.hostStep.BeginRound?)
  }

  lemma OwnMoveLowers(h: Host, st: HostStep)
    requires HostCan(h, st) && !st.Start? && !st.BeginRound?
    ensures Left(HostDo(h, st)) < Left(h)
  {
    if st.ResolveOne? { AddGrows(h.list, Item(h.pc.todo[0], false)); }
  }

  lemma {:induction false} UnmarkLength(s: seq<Entry>, a: SockAddr)
    ensures |Unmark(s, a)| == |s|
  {
    if s != [] { UnmarkLength(s[1..], a); }
  }

  lemma AddGrows(s: seq<Entry>, x: Item)
    ensures |Add(s, x)| <= |s| + 1
  {
    UnmarkLength(s, x.addr);
  }

  /** The step that a host in a round takes next, unless it posts. */
  function NextStep(h: Host): HostStep {
    match h.pc
    case Resolving(todo) => if todo == [] then EndResolve else ResolveOne
    case Sweeping(i, _) => if i < |h.list| then SweepOne else EndSweep
    case _ => EndRound
  }

  lemma CanStep(h: Host)
    requires !h.pc.Starting? && !h.pc.Idle? && (h.pc.Posting? ==> h.pc.rest == [])
    ensures HostCan(h, NextStep(h)) && !NextStep(h).Start? && !NextStep(h).BeginRound?
  {}

  /** A host in a round always has a next step of its own. */
  lemma RoundAdvances(s: State, h: HostId) returns (l: Label, s': State)
    requires Inv(s) && h in s.hosts && !s.hosts[h].pc.Starting? && !s.hosts[h].pc.Idle?
    ensures OwnStep(l, h) && Next(s, s', l)
  {
    hide Inv;
    var host := s.hosts[h];
    if host.pc.Posting? && host.pc.rest != [] {
      PostedIsOwn(s, h);
      var id := host.pc.rest[0];
      l := Post(h);
      s' := s.(hosts := s.hosts[h := host.(pc := host.pc.(rest := host.pc.rest[1..]))],
               actions := if host.pc.update == 0 && !s.actions[id].force then s.actions
                          else s.actions[id := s.actions[id].(sem := s.actions[id].sem + 1)]);
    } else {
      CanStep(host);
      hide HostCan, HostDo, NextStep;
      l := HostMove(h, NextStep(host));
      s' := s.(hosts := s.hosts[h := HostDo(host, NextStep(host))]);
    }
  }

  /** Each of its own steps brings the end of the round nearer, and no other step touches the host. */
  lemma StepsAndLeft(s: State, s': State, l: Label, h: HostId)
    requires Next(s, s', l) && h in s.hosts && h in s'.hosts
    requires !s.hosts[h].pc.Starting? && !s.hosts[h].pc.Idle?
    ensures if OwnStep(l, h) then Left(s'.hosts[h]) < Left(s.hosts[h]) else s'.hosts[h] == s.hosts[h]
  {
    hide ActionCan, ActionDo, Linked;
    if l.HostMove? && l.host == h { OwnMoveLowers(s.hosts[h], l.hostStep); }
  }

  /** An action that was posted, or is in a round, always has a next step: it wakes and takes one post,
      it marks its list, it copies the next entry of a list that did not change meanwhile, or it ends its
      round, which it does at the end of such a list. */
  lemma ActionAdvances(s: State, id: ActionId) returns (st: ActionStep, s': State)
    requires Inv(s) && id in s.actions && (s.actions[id].sem > 0 || !s.actions[id].pc.Waiting?)
    ensures Next(s, s', ActionMove(id, st)) && s.actions[id].host in s.hosts
    ensures var a, a', h := s.actions[id], s'.actions[id], s.hosts[s.actions[id].host];
            match a.pc
            case Waiting => a'.pc.Woken? && a'.sem == a.sem - 1
            case Woken => a'.pc == Copying(0, h.version) && Kept(a'.list) == Statics(a.list)
            case Copying(i, v) =>
              if v == h.version && i < |h.list| then
                a'.pc == Copying(i + 1, v) && Kept(a'.list) == Kept(a.list) + {h.list[i].addr}
              else a'.pc.Waiting? && Addrs(a'.list) == Kept(a.list)
  {
    EachHolds(s, id);
    var a, h := s.actions[id], s.hosts[s.actions[id].host];
    st := match a.pc
      case Waiting => Wake
      case Woken => BeginCopy
      case Copying(i, v) => if v == h.version && i < |h.list| then CopyOne else EndCopy;
    CanAdvance(a, id, h, st);
    s' := s.(actions := s.actions[id := ActionDo(a, h, st)]);
    hide Inv, ActionInv, ActionCan, ActionDo;
  }

  lemma CanAdvance(a: Action, id: ActionId, h: Host, st: ActionStep)
    requires ActionInv(a, id, h) && (a.sem > 0 || !a.pc.Waiting?)
    requires st == match a.pc
                   case Waiting => Wake
                   case Woken => BeginCopy
                   case Copying(i, v) => if v == h.version && i < |h.list| then CopyOne else EndCopy
    ensures ActionCan(a, h, st)
    ensures var a' := ActionDo(a, h, st);
            match a.pc
            case Waiting => a'.pc.Woken? && a'.sem == a.sem - 1
            case Woken => a'.pc == Copying(0, h.version) && Kept(a'.list) == Statics(a.list)
            case Copying(i, v) =>
              if v == h.version && i < |h.list| then
                a'.pc == Copying(i + 1, v) && Kept(a'.list) == Kept(a.list) + {h.list[i].addr}
              else a'.pc.Waiting? && Addrs(a'.list) == Kept(a.list)
  {
    match st
    case Wake =>
    case BeginCopy => MarkSettled(a.list);
    case CopyOne => AddSets(a.list, Item(h.list[a.pc.next].addr, h.list[a.pc.next].isStatic));
    case EndCopy => SweepSets(a.list);
  }

  // ----- the addresses of a quiet action -----

  /** In every state of every run: an action that has begun a round, waits, and has been woken as often
      as it was posted, holds while its host is idle exactly the address its host's name stands for and
      those of its host's latest lookup; so do its table list and the kernel's table, if it has one. */
  lemma QuietMeansTold(states: seq<State>, labels: seq<Label>, i: nat, id: ActionId)
    requires Run(states, labels) && i < |states| && id in states[i].actions
    ensures states[i].actions[id].host in states[i].hosts
    ensures var a := states[i].actions[id];
            a.pc.Waiting? && Began(states, labels, i, id)
            && Wakes(states, labels, i, id) == Posts(states, labels, i, id) && states[i].hosts[a.host].pc.Idle? ==>
              && Addrs(a.list) == Told(labels[..i], a.host) + Answered(labels[..i], a.host)
              && (a.hasTable ==> a.kernel == Addrs(a.tbl) == Addrs(a.list))
  {
    RunStarts(states, labels);
    hide Run, Began, Wakes, Posts;
    QuietMeansInSync(states, labels, i);
    ForcedUntilBegun(states, labels, i, id);
    PostsAndWakes(states, labels, i, id);
    HostsFollowLabels(states, labels, i, states[i].actions[id].host);
  }

  /** So a quiet action of a host whose name is an address has that address in its list, in its table
      list and in the kernel's table, for as long as the host is there. */
  lemma StaticServed(states: seq<State>, labels: seq<Label>, j: nat, i: nat, h: HostId, a: SockAddr, id: ActionId)
    requires Run(states, labels) && j < i < |states| && labels[j] == HostMove(h, Start(Numeric(a)))
    requires forall n | j < n < i :: labels[n] != Exit(h)
    requires id in states[i].actions && states[i].actions[id].host == h
    requires states[i].actions[id].pc.Waiting? && Began(states, labels, i, id)
    requires Wakes(states, labels, i, id) == Posts(states, labels, i, id)
    requires h in states[i].hosts && states[i].hosts[h].pc.Idle?
    ensures a in Addrs(states[i].actions[id].list)
    ensures states[i].actions[id].hasTable ==>
              a in states[i].actions[id].kernel && a in Addrs(states[i].actions[id].tbl)
  {
    hide Run, Began, Wakes, Posts, Told, Answered;
    RunStarts(states, labels);
    assert labels[..i][j] == labels[j];
    ToldStays(labels[..i], j, h, a);
    QuietMeansTold(states, labels, i, id);
  }
}
