/** The life of one queue entry over a whole run: where it comes from, when it is sent and sent again,
    and when it leaves. Entries are told apart by the number of the event that made them. */
module QueueRuns {
  import opened Wrappers
  import opened RunQueue

  // ----- entries and their numbers -----

  ghost predicate Numbered(q: Queue, id: nat) {
    && (forall i | 0 <= i < |q| :: q[i].id < id)
    && (forall i, j | 0 <= i < j < |q| :: q[i].id != q[j].id)
    && (forall i | 0 <= i < |q| :: q[i].aggregate == 0 ==> !q[i].dontexec)
  }

  /** The entry of event `n` is queued. */
  ghost predicate Queued(q: Queue, n: nat) {
    exists i :: 0 <= i < |q| && q[i].id == n
  }

  /** It is queued and in this state. */
  ghost predicate QueuedAs(q: Queue, e: Entry) {
    exists i :: 0 <= i < |q| && q[i] == e
  }

  /** The step works on the entry of event `n`. */
  predicate Touches(q: Queue, s: Step, n: nat) {
    Target(s).Some? && Target(s).value < |q| && q[Target(s).value].id == n
  }

  /** The step sends it: to the FastCGI server, or to a shell. */
  predicate SendsIt(q: Queue, s: Step, n: nat) {
    && Touches(q, s, n) && !q[Target(s).value].dontexec
    && ((s.FcgiTimer? && s.how.Sent?) || (s.ShellTimer? && s.forked))
  }

  /** The server answers that it completed, or did not. */
  predicate AnswersIt(q: Queue, s: Step, n: nat, success: bool) {
    Touches(q, s, n) && s.EndRequest? && s.success == success
  }

  /** An event joins it: the second entry of its command, marked as sent, is to be sent again. */
  ghost predicate JoinsIt(q: Queue, s: Step, n: nat) {
    s.Event? && s.cmd.aggregate
    && exists i :: 0 <= i < |q| && q[i].id == n && q[i].command == s.cmd.command && q[i].aggregate == 2
  }

  /** The step takes it out of the queue: its request completed, its timer fired after it was sent, or it
      was a shell command of its own that ran. */
  predicate RemovesIt(q: Queue, s: Step, n: nat) {
    && Touches(q, s, n)
    && var e := q[Target(s).value];
    || (s.EndRequest? && s.success)
    || ((s.FcgiTimer? || s.ShellTimer?) && e.dontexec)
    || (s.ShellTimer? && s.forked && e.aggregate == 0)
  }

  // ----- one step -----

  lemma EventNumbers(q: Queue, c: Command, params: string, id: nat)
    requires Coalesced(q) && Numbered(q, id)
    ensures Numbered(Ran(q, c, params, id), id + 1)
  {
    RanCases(q, c, params, id);
    hide Ran, Walked, Aggregates, Coalesced;
  }

  lemma RemovedNumbers(q: Queue, j: nat, id: nat)
    requires Numbered(q, id) && j < |q|
    ensures Numbered(Removed(q, j), id + 1)
  {
    RemovedEntries(q, j);
    hide Removed;
  }

  lemma StepNumbers(q: Queue, s: Step, id: nat)
    requires QueueInv(q) && Can(q, s) && Numbered(q, id)
    ensures Numbered(Do(q, s, id), id + 1)
  {
    hide Removed;
    match s
    case Event(c, p) => EventNumbers(q, c, p, id);
    case FcgiTimer(i, how) => RemovedNumbers(q, i, id);
    case ShellTimer(i, forked) => RemovedNumbers(q, i, id);
    case EndRequest(i, success) => RemovedNumbers(q, i, id);
    case ReadTimeout(i) =>
  }

  /** The entry with its two flags as given. */
  function Flagged(e: Entry, dontexec: bool, armed: bool): Entry {
    e.(dontexec := dontexec, armed := armed)
  }

  /** What an event does to an entry that is queued: an entry that it joins is to be sent again, every
      other one stays as it is. */
  lemma EventKeeps(q: Queue, s: Step, id: nat, i: nat)
    requires QueueInv(q) && Numbered(q, id) && s.Event? && i < |q|
    ensures QueuedAs(Do(q, s, id), if JoinsIt(q, s, q[i].id) && q[i].dontexec then Flagged(q[i], false, true) else q[i])
  {
    RanCases(q, s.cmd, s.params, id);
    var q', n := Do(q, s, id), q[i].id;
    var two := Aggregates(q, s.cmd.command) != [] && Aggregates(q, s.cmd.command)[0] == 2;
    if JoinsIt(q, s, n) {
      var j :| 0 <= j < |q| && q[j].id == n && q[j].command == s.cmd.command && q[j].aggregate == 2;
      assert j == i;
      TwoIsFirst(q, i);
      var at := Walked(q, s.cmd, 0).at;
      OnlyOneTwo(q, i, at);
      assert q'[i] == if q[i].dontexec then Flagged(q[i], false, true) else q[i];
    } else {
      hide Ran, Walked, Aggregates, QueueInv;
      if |q'| == |q| { assert q'[i] == q[i]; } else { assert q'[i + 1] == q[i]; }
    }
  }

  lemma TwoIsFirst(q: Queue, i: nat)
    requires Coalesced(q) && i < |q| && q[i].aggregate == 2
    ensures Aggregates(q, q[i].command) != [] && Aggregates(q, q[i].command)[0] == 2
  {
    AggregatesHas(q, i);
    assert Allowed(Aggregates(q, q[i].command));
  }

  /** What a step does to the entry it works on, unless that leaves. */
  function Worked(e: Entry, s: Step): Entry {
    match s
    case Event(_, _) => e
    case FcgiTimer(_, how) =>
      if how.Sent? then Flagged(e, e.aggregate > 0, e.aggregate > 0) else Flagged(e, e.dontexec, true)
    case ShellTimer(_, forked) => if forked then Flagged(e, true, true) else Flagged(e, e.dontexec, false)
    case EndRequest(_, _) => Flagged(e, false, e.armed)
    case ReadTimeout(_) => Flagged(e, e.dontexec, true)
  }

  lemma WorkedOn(q: Queue, s: Step, id: nat, i: nat)
    requires Numbered(q, id) && Can(q, s) && Target(s) == Some(i)
    ensures i < |q|
    ensures RemovesIt(q, s, q[i].id) ==> Do(q, s, id) == Removed(q, i)
    ensures !RemovesIt(q, s, q[i].id) ==> Do(q, s, id) == q[i := Worked(q[i], s)]
  {
    hide Removed;
    if s.FcgiTimer? && !q[i].dontexec && s.how.Sent? && q[i].aggregate == 0 {
      assert Worked(q[i], s) == q[i].(armed := false);
    }
  }

  lemma RemovedGone(q: Queue, i: nat, id: nat)
    requires Numbered(q, id) && i < |q|
    ensures !Queued(Removed(q, i), q[i].id)
  {
    RemovedEntries(q, i);
    hide Removed;
  }

  /** An entry leaves in exactly three kinds of step: its request completes, its timer fires after it was
      sent, or it is a shell command that is not coalesced and ran. */
  lemma LeavesExactly(q: Queue, s: Step, id: nat, i: nat)
    requires QueueInv(q) && Numbered(q, id) && Can(q, s) && i < |q|
    ensures Queued(Do(q, s, id), q[i].id) <==> !RemovesIt(q, s, q[i].id)
  {
    hide QueueInv, Do, Removed;
    if Target(s) == Some(i) {
      WorkedOn(q, s, id, i);
      if RemovesIt(q, s, q[i].id) {
        RemovedGone(q, i, id);
      } else {
        assert Do(q, s, id)[i].id == q[i].id;
      }
    } else {
      Untouched(q, s, id, i);
      StaysAs(q, s, id, i);
    }
  }

  lemma Untouched(q: Queue, s: Step, id: nat, i: nat)
    requires Numbered(q, id) && i < |q| && Target(s) != Some(i)
    ensures !Touches(q, s, q[i].id)
  {}

  /** An entry that the step does not work on stays as it is, or is to be sent again if an event joins. */
  lemma StaysAs(q: Queue, s: Step, id: nat, i: nat)
    requires QueueInv(q) && Numbered(q, id) && Can(q, s) && i < |q| && Target(s) != Some(i)
    ensures Queued(Do(q, s, id), q[i].id)
    ensures QueuedAs(Do(q, s, id), if JoinsIt(q, s, q[i].id) && q[i].dontexec then Flagged(q[i], false, true) else q[i])
  {
    if s.Event? {
      EventKeeps(q, s, id, i);
    } else {
      OthersStay(q, s, id, i);
    }
    hide Do, QueueInv, JoinsIt, Can;
    var e := if JoinsIt(q, s, q[i].id) && q[i].dontexec then Flagged(q[i], false, true) else q[i];
    var j :| 0 <= j < |Do(q, s, id)| && Do(q, s, id)[j] == e;
    assert Do(q, s, id)[j].id == q[i].id;
  }

  // ----- where entries come from -----

  /** The same entry, but for its flags. */
  predicate Kin(e: Entry, e': Entry) {
    e' == Flagged(e, e'.dontexec, e'.armed)
  }

  /** The entry is made of this event: its command and its parameters, to be sent, with its timer set. */
  predicate MadeOf(e: Entry, c: Command, params: string) {
    && !c.compound && e.command == c.command && e.params == params && e.fcgi == c.fcgi
    && (e.aggregate > 0 <==> c.aggregate)
  }

  /** An entry of the queue after a step was there before, or the step is an event and the entry is made
      of it. */
  lemma Origin(q: Queue, s: Step, id: nat, j: nat)
    requires QueueInv(q) && Numbered(q, id) && Can(q, s) && j < |Do(q, s, id)|
    ensures var e := Do(q, s, id)[j];
            || (e.id == id && s.Event? && MadeOf(e, s.cmd, s.params) && !e.dontexec && e.armed)
            || exists i :: 0 <= i < |q| && Kin(q[i], e)
  {
    if s.Event? { EventOrigin(q, s, id, j); } else { WorkOrigin(q, s, id, j); }
  }

  lemma WorkedIsKin(e: Entry, s: Step)
    ensures Kin(e, Worked(e, s)) && Kin(e, e)
  {}

  lemma WorkOrigin(q: Queue, s: Step, id: nat, j: nat)
    requires Numbered(q, id) && Can(q, s) && !s.Event? && j < |Do(q, s, id)|
    ensures exists i :: 0 <= i < |q| && Kin(q[i], Do(q, s, id)[j])
  {
    hide Removed, Do, Kin, Worked, RemovesIt;
    var i, q' := Target(s).value, Do(q, s, id);
    WorkedOn(q, s, id, i);
    RemovedEntries(q, i);
    var from := if |q'| < |q| && j >= i then j + 1 else j;
    WorkedIsKin(q[from], s);
    assert Kin(q[from], q'[j]);
  }

  lemma EventOrigin(q: Queue, s: Step, id: nat, j: nat)
    requires QueueInv(q) && s.Event? && j < |Do(q, s, id)|
    ensures var e := Do(q, s, id)[j];
            || (e.id == id && MadeOf(e, s.cmd, s.params) && !e.dontexec && e.armed)
            || exists i :: 0 <= i < |q| && Kin(q[i], e)
  {
    RanCases(q, s.cmd, s.params, id);
    hide Ran, Walked, Aggregates, QueueInv;
    var q' := Do(q, s, id);
    if |q'| == |q| {
      assert Kin(q[j], q'[j]);
    } else if j > 0 {
      assert Kin(q[j - 1], q'[j]);
    }
  }

  lemma RunStep(queues: seq<Queue>, steps: seq<Step>, k: nat)
    requires Run(queues, steps) && k < |steps|
    ensures |queues| == |steps| + 1 && Can(queues[k], steps[k]) && queues[k + 1] == Do(queues[k], steps[k], k)
  {}

  lemma RunStarts(queues: seq<Queue>, steps: seq<Step>)
    requires Run(queues, steps)
    ensures |queues| == |steps| + 1 && queues[0] == []
  {}

  lemma {:induction false} RunNumbers(queues: seq<Queue>, steps: seq<Step>, k: nat)
    requires Run(queues, steps) && k < |queues|
    ensures Numbered(queues[k], k)
    decreases k
  {
    hide Run, Do, Can, QueueInv;
    RunStarts(queues, steps);
    if k > 0 {
      RunStep(queues, steps, k - 1);
      RunNumbers(queues, steps, k - 1);
      ReachableQueues(queues, steps, k - 1);
      StepNumbers(queues[k - 1], steps[k - 1], k - 1);
    }
  }

  /** In every run every queued entry is made of the event whose number it has, and no number is there
      twice. */
  lemma {:induction false} ComesFromEvent(queues: seq<Queue>, steps: seq<Step>, k: nat, j: nat)
    requires Run(queues, steps) && k < |queues| && j < |queues[k]|
    ensures var e := queues[k][j];
            && e.id < k <= |steps| && steps[e.id].Event? && MadeOf(e, steps[e.id].cmd, steps[e.id].params)
            && forall i | 0 <= i < |queues[k]| && i != j :: queues[k][i].id != e.id
    decreases k
  {
    hide Run, Do, Can, QueueInv;
    RunStarts(queues, steps);
    RunNumbers(queues, steps, k);
    if k > 0 {
      var q, e := queues[k - 1], queues[k][j];
      RunStep(queues, steps, k - 1);
      RunNumbers(queues, steps, k - 1);
      ReachableQueues(queues, steps, k - 1);
      Origin(q, steps[k - 1], k - 1, j);
      if i :| 0 <= i < |q| && Kin(q[i], e) {
        ComesFromEvent(queues, steps, k - 1, i);
      }
    }
  }

  // ----- what is not sent does not leave -----

  /** The entry of event `n` is queued and to be sent; if it is one that a server gets and that is
      coalesced, its timer is running. */
  ghost predicate Waits(q: Queue, n: nat) {
    exists i :: 0 <= i < |q| && q[i].id == n && !q[i].dontexec && (q[i].fcgi && q[i].aggregate > 0 ==> q[i].armed)
  }

  lemma StillWaits(q: Queue, s: Step, id: nat, n: nat)
    requires QueueInv(q) && Numbered(q, id) && Can(q, s) && Waits(q, n)
    requires !SendsIt(q, s, n) && !AnswersIt(q, s, n, true)
    ensures Waits(Do(q, s, id), n)
  {
    var i :| 0 <= i < |q| && q[i].id == n && !q[i].dontexec && (q[i].fcgi && q[i].aggregate > 0 ==> q[i].armed);
    hide Do, QueueInv, Removed, Can;
    var q' := Do(q, s, id);
    if Target(s) == Some(i) {
      WorkedOn(q, s, id, i);
      assert q'[i].id == n;
    } else {
      StaysAs(q, s, id, i);
      var j :| 0 <= j < |q'| && q'[j] == q[i];
      assert q'[j].id == n;
    }
  }

  lemma {:induction false} WaitsUntilSent(queues: seq<Queue>, steps: seq<Step>, k: nat, m: nat, n: nat)
    requires Run(queues, steps) && k <= m < |queues| && m <= |steps| && Waits(queues[k], n)
    requires forall j | k <= j < m :: !SendsIt(queues[j], steps[j], n) && !AnswersIt(queues[j], steps[j], n, true)
    ensures Waits(queues[m], n)
    decreases m
  {
    hide Run, Do, Can, QueueInv, Waits, SendsIt, AnswersIt;
    if k < m {
      WaitsUntilSent(queues, steps, k, m - 1, n);
      RunStep(queues, steps, m - 1);
      RunNumbers(queues, steps, m - 1);
      ReachableQueues(queues, steps, m - 1);
      StillWaits(queues[m - 1], steps[m - 1], m - 1, n);
    }
  }

  /** An entry that is to be sent is sent before it leaves, unless a completion of it comes first. */
  lemma LeavesOnlySent(queues: seq<Queue>, steps: seq<Step>, k: nat, m: nat, n: nat)
    requires Run(queues, steps) && k <= m < |queues| && m <= |steps| && Waits(queues[k], n) && !Queued(queues[m], n)
    ensures exists j :: k <= j < m && (SendsIt(queues[j], steps[j], n) || AnswersIt(queues[j], steps[j], n, true))
  {
    hide Run, SendsIt, AnswersIt;
    if !exists j :: k <= j < m && (SendsIt(queues[j], steps[j], n) || AnswersIt(queues[j], steps[j], n, true)) {
      WaitsUntilSent(queues, steps, k, m, n);
    }
  }

  lemma FailureWaits(q: Queue, s: Step, id: nat, n: nat)
    requires QueueInv(q) && Can(q, s) && AnswersIt(q, s, n, false)
    ensures Waits(Do(q, s, id), n)
  {
    assert Do(q, s, id)[Target(s).value].id == n;
  }

  /** A request that the server answered without completing it is sent again before its entry leaves,
      unless a completion of it comes first. */
  lemma FailedIsSentAgain(queues: seq<Queue>, steps: seq<Step>, k: nat, m: nat, n: nat)
    requires Run(queues, steps) && k < m < |queues| && m <= |steps|
    requires AnswersIt(queues[k], steps[k], n, false) && !Queued(queues[m], n)
    ensures exists j :: k < j < m && (SendsIt(queues[j], steps[j], n) || AnswersIt(queues[j], steps[j], n, true))
  {
    hide Run, Waits, AnswersIt, SendsIt, QueueInv, Do, Can;
    RunStep(queues, steps, k);
    ReachableQueues(queues, steps, k);
    FailureWaits(queues[k], steps[k], k, n);
    LeavesOnlySent(queues, steps, k + 1, m, n);
  }

  /** The entry that an event makes is sent before it leaves, unless a completion comes first. */
  lemma NewIsSent(queues: seq<Queue>, steps: seq<Step>, m: nat, n: nat)
    requires Run(queues, steps) && n < m < |queues| && m <= |steps|
    requires Queued(queues[n + 1], n) && !Queued(queues[m], n)
    ensures exists j :: n < j < m && (SendsIt(queues[j], steps[j], n) || AnswersIt(queues[j], steps[j], n, true))
  {
    hide Run, AnswersIt, SendsIt, QueueInv, Do, Can;
    RunStep(queues, steps, n);
    ReachableQueues(queues, steps, n);
    RunNumbers(queues, steps, n);
    var j: nat :| j < |queues[n + 1]| && queues[n + 1][j].id == n;
    Origin(queues[n], steps[n], n, j);
    assert Waits(queues[n + 1], n);
    LeavesOnlySent(queues, steps, n + 1, m, n);
  }

  // ----- what is sent is not sent twice -----

  /** The entry of event `n` was sent, and nothing has asked for it again: no answer that it was not
      completed, and no event that joined it. */
  ghost predicate Sent(queues: seq<Queue>, steps: seq<Step>, k: nat, n: nat)
    requires k < |queues| && k <= |steps|
  {
    && k > 0
    && (SendsIt(queues[k - 1], steps[k - 1], n)
        || (Sent(queues, steps, k - 1, n) && !AnswersIt(queues[k - 1], steps[k - 1], n, false)
            && !JoinsIt(queues[k - 1], steps[k - 1], n)))
  }

  lemma {:induction false} NotSentYet(queues: seq<Queue>, steps: seq<Step>, k: nat, n: nat)
    requires Run(queues, steps) && k < |queues| && k <= |steps| && k <= n
    ensures !Sent(queues, steps, k, n)
    decreases k
  {
    if k > 0 {
      hide Run;
      NotSentYet(queues, steps, k - 1, n);
      RunNumbers(queues, steps, k - 1);
    }
  }

  lemma StepMarks(q: Queue, s: Step, id: nat, i: nat, j: nat)
    requires QueueInv(q) && Numbered(q, id) && Can(q, s) && i < |q| && q[i].aggregate > 0
    requires j < |Do(q, s, id)| && Do(q, s, id)[j].id == q[i].id
    ensures Do(q, s, id)[j].dontexec <==>
            SendsIt(q, s, q[i].id)
            || (q[i].dontexec && !AnswersIt(q, s, q[i].id, false) && !JoinsIt(q, s, q[i].id))
  {
    var q', n := Do(q, s, id), q[i].id;
    StepNumbers(q, s, id);
    LeavesExactly(q, s, id, i);
    if Target(s) == Some(i) {
      WorkedOn(q, s, id, i);
      assert Queued(q', n);
      hide Do, QueueInv, Removed, Can;
      assert q'[i].id == n;
    } else {
      StaysAs(q, s, id, i);
      Untouched(q, s, id, i);
      hide Do, QueueInv, Can, JoinsIt;
      var e := if JoinsIt(q, s, n) && q[i].dontexec then Flagged(q[i], false, true) else q[i];
      var l :| 0 <= l < |q'| && q'[l] == e;
      assert l == j;
    }
  }

  /** An entry that is coalesced is marked not to be sent exactly while it counts as sent. */
  lemma {:induction false} MarkedWhileSent(queues: seq<Queue>, steps: seq<Step>, k: nat, j: nat)
    requires Run(queues, steps) && k < |queues| && k <= |steps| && j < |queues[k]| && queues[k][j].aggregate > 0
    ensures queues[k][j].dontexec <==> Sent(queues, steps, k, queues[k][j].id)
    decreases k
  {
    hide Run, Do, Can, QueueInv, SendsIt, AnswersIt, JoinsIt;
    RunStarts(queues, steps);
    if k > 0 {
      var q, e := queues[k - 1], queues[k][j];
      RunStep(queues, steps, k - 1);
      RunNumbers(queues, steps, k - 1);
      ReachableQueues(queues, steps, k - 1);
      Origin(q, steps[k - 1], k - 1, j);
      if i :| 0 <= i < |q| && Kin(q[i], e) {
        MarkedWhileSent(queues, steps, k - 1, i);
        StepMarks(q, steps[k - 1], k - 1, i, j);
      } else {
        NotSentYet(queues, steps, k - 1, k - 1);
        NewIsNotSent(q, steps[k - 1], k - 1);
      }
    }
  }

  lemma NewIsNotSent(q: Queue, s: Step, id: nat)
    requires Numbered(q, id)
    ensures !SendsIt(q, s, id)
  {}

  lemma {:induction false} SentStays(queues: seq<Queue>, steps: seq<Step>, j: nat, k: nat, n: nat)
    requires j < k < |queues| && k <= |steps| && SendsIt(queues[j], steps[j], n)
    requires forall i | j < i < k :: !AnswersIt(queues[i], steps[i], n, false) && !JoinsIt(queues[i], steps[i], n)
    ensures Sent(queues, steps, k, n)
    decreases k
  {
    if j + 1 < k { SentStays(queues, steps, j, k - 1, n); }
  }

  /** An entry of a coalesced command is not sent twice, unless in between the server answers that it was
      not completed, or an event joins it. */
  lemma NotSentTwice(queues: seq<Queue>, steps: seq<Step>, j: nat, k: nat, n: nat)
    requires Run(queues, steps) && j < k < |steps| && SendsIt(queues[j], steps[j], n) && SendsIt(queues[k], steps[k], n)
    requires queues[k][Target(steps[k]).value].aggregate > 0
    ensures exists i :: j < i < k && (AnswersIt(queues[i], steps[i], n, false) || JoinsIt(queues[i], steps[i], n))
  {
    RunStarts(queues, steps);
    hide Run, AnswersIt, JoinsIt, Sent;
    if !exists i :: j < i < k && (AnswersIt(queues[i], steps[i], n, false) || JoinsIt(queues[i], steps[i], n)) {
      SentStays(queues, steps, j, k, n);
      MarkedWhileSent(queues, steps, k, Target(steps[k]).value);
    }
  }

  /** The read of the answer times out. */
  predicate TimesOut(q: Queue, s: Step, n: nat) {
    Touches(q, s, n) && s.ReadTimeout?
  }

  /** The entry of event `n` was sent, and no read of its answer has timed out since. */
  ghost predicate Open(queues: seq<Queue>, steps: seq<Step>, k: nat, n: nat)
    requires k < |queues| && k <= |steps|
  {
    && k > 0
    && (SendsIt(queues[k - 1], steps[k - 1], n)
        || (Open(queues, steps, k - 1, n) && !TimesOut(queues[k - 1], steps[k - 1], n)))
  }

  lemma {:induction false} NotOpenYet(queues: seq<Queue>, steps: seq<Step>, k: nat, n: nat)
    requires Run(queues, steps) && k < |queues| && k <= |steps| && k <= n
    ensures !Open(queues, steps, k, n)
    decreases k
  {
    if k > 0 {
      hide Run;
      NotOpenYet(queues, steps, k - 1, n);
      RunNumbers(queues, steps, k - 1);
    }
  }

  lemma StepArms(q: Queue, s: Step, id: nat, i: nat, j: nat)
    requires QueueInv(q) && Numbered(q, id) && Can(q, s) && i < |q| && q[i].aggregate == 0 && q[i].fcgi
    requires j < |Do(q, s, id)| && Do(q, s, id)[j].id == q[i].id
    ensures !Do(q, s, id)[j].armed <==> SendsIt(q, s, q[i].id) || (!q[i].armed && !TimesOut(q, s, q[i].id))
  {
    var q', n := Do(q, s, id), q[i].id;
    StepNumbers(q, s, id);
    LeavesExactly(q, s, id, i);
    if Target(s) == Some(i) {
      WorkedOn(q, s, id, i);
      assert Queued(q', n);
      hide Do, QueueInv, Removed;
      assert q'[i].id == n;
    } else {
      StaysAs(q, s, id, i);
      Untouched(q, s, id, i);
      hide Do, QueueInv, Can, JoinsIt;
      var l :| 0 <= l < |q'| && q'[l] == q[i];
      assert l == j;
    }
  }

  /** A FastCGI entry that is not coalesced has no timer exactly while its request is open. */
  lemma {:induction false} UnarmedWhileOpen(queues: seq<Queue>, steps: seq<Step>, k: nat, j: nat)
    requires Run(queues, steps) && k < |queues| && k <= |steps| && j < |queues[k]|
    requires queues[k][j].aggregate == 0 && queues[k][j].fcgi
    ensures !queues[k][j].armed <==> Open(queues, steps, k, queues[k][j].id)
    decreases k
  {
    hide Run, Do, Can, QueueInv, SendsIt, TimesOut;
    RunStarts(queues, steps);
    if k > 0 {
      var q, e := queues[k - 1], queues[k][j];
      RunStep(queues, steps, k - 1);
      RunNumbers(queues, steps, k - 1);
      ReachableQueues(queues, steps, k - 1);
      Origin(q, steps[k - 1], k - 1, j);
      if i :| 0 <= i < |q| && Kin(q[i], e) {
        UnarmedWhileOpen(queues, steps, k - 1, i);
        StepArms(q, steps[k - 1], k - 1, i, j);
      } else {
        NotOpenYet(queues, steps, k - 1, k - 1);
        NewIsNotSent(q, steps[k - 1], k - 1);
      }
    }
  }

  lemma {:induction false} StaysOpen(queues: seq<Queue>, steps: seq<Step>, j: nat, k: nat, n: nat)
    requires j < k < |queues| && k <= |steps| && SendsIt(queues[j], steps[j], n)
    requires forall i | j < i < k :: !TimesOut(queues[i], steps[i], n)
    ensures Open(queues, steps, k, n)
    decreases k
  {
    if j + 1 < k { StaysOpen(queues, steps, j, k - 1, n); }
  }

  /** A FastCGI entry that is not coalesced is sent again only after a read of its answer timed out. */
  lemma SentAgainAfterTimeout(queues: seq<Queue>, steps: seq<Step>, j: nat, k: nat, n: nat)
    requires Run(queues, steps) && j < k < |steps| && SendsIt(queues[j], steps[j], n) && SendsIt(queues[k], steps[k], n)
    requires queues[k][Target(steps[k]).value].aggregate == 0 && queues[k][Target(steps[k]).value].fcgi
    ensures exists i :: j < i < k && TimesOut(queues[i], steps[i], n)
  {
    RunStarts(queues, steps);
    RunStep(queues, steps, k);
    hide Run, TimesOut, Open, Do;
    if !exists i :: j < i < k && TimesOut(queues[i], steps[i], n) {
      StaysOpen(queues, steps, j, k, n);
      UnarmedWhileOpen(queues, steps, k, Target(steps[k]).value);
    }
  }
}
