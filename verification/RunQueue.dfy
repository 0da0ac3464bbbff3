/** The event queue of check_reload_status: events are queued, coalesced, sent to the
    FastCGI server after a delay, and dropped when their command has completed. */
module RunQueue {
  import opened Wrappers

  /** One queued command. `armed` tells whether its timer is pending. */
  datatype Entry = Entry(id: nat, command: string, params: string, fcgi: bool, aggregate: nat,
                         dontexec: bool, armed: bool)

  /** A row of the command table that can be run. */
  datatype Command = Command(compound: bool, command: string, aggregate: bool, fcgi: bool)

  type Queue = seq<Entry>

  predicate Matches(e: Entry, c: Command) {
    c.aggregate && e.command == c.command
  }

  /** The aggregate values of one command string, in list order. */
  function Aggregates(q: Queue, command: string): seq<nat> {
    if q == [] then []
    else if q[0].command == command && q[0].aggregate > 0 then [q[0].aggregate] + Aggregates(q[1..], command)
    else Aggregates(q[1..], command)
  }

  predicate Allowed(s: seq<nat>) {
    s == [] || s == [1] || s == [2] || s == [2, 1]
  }

  /** Outcome of walking the queue with the running sum `sum`: the position where it first
      exceeds one, or the total. */
  datatype Walk = Hit(at: nat, sum: nat) | Total(sum: nat)

  function Walked(q: Queue, c: Command, sum: nat): Walk {
    if q == [] then Total(sum)
    else
      var s := if Matches(q[0], c) then sum + q[0].aggregate else sum;
      if Matches(q[0], c) && s > 1 then Hit(0, s)
      else match Walked(q[1..], c, s)
        case Hit(i, t) => Hit(i + 1, t)
        case Total(t) => Total(t)
  }

  function Rescheduled(e: Entry): Entry {
    e.(dontexec := false, armed := true)
  }

  /** run_command: coalesce with what is queued, or put a new entry at the head. */
  function Ran(q: Queue, c: Command, params: string, id: nat): Queue {
    match Walked(q, c, 0)
    case Hit(i, sum) =>
      if i < |q| && q[i].dontexec && sum < 3 then q[i := Rescheduled(q[i])] else q
    case Total(sum) =>
      if c.compound then q
      else [Entry(id, c.command, params, c.fcgi, if c.aggregate then sum + 1 else 0, false, true)] + q
  }

  function Removed(q: Queue, i: nat): Queue
    requires i < |q|
  {
    q[..i] + q[i + 1..]
  }

  datatype Sending = NoSocket | WriteFailed | Sent

  /** fcgi_send_command: the timer has fired and is no longer pending. */
  function FcgiFired(q: Queue, i: nat, how: Sending): Queue
    requires i < |q|
  {
    if q[i].dontexec then Removed(q, i)
    else match how
      case NoSocket => q[i := q[i].(armed := true)]
      case WriteFailed => q[i := q[i].(armed := true)]
      case Sent =>
        if q[i].aggregate > 0 then q[i := q[i].(dontexec := true, armed := true)]
        else q[i := q[i].(armed := false)]
  }

  /** run_command_detailed: after a failed fork nothing re-arms the timer. */
  function ShellFired(q: Queue, i: nat, forked: bool): Queue
    requires i < |q|
  {
    if q[i].dontexec then Removed(q, i)
    else if !forked then q[i := q[i].(armed := false)]
    else if q[i].aggregate > 0 then q[i := q[i].(dontexec := true, armed := true)]
    else Removed(q, i)
  }

  /** socket_read_fcgi on an end-of-request record. */
  function Ended(q: Queue, i: nat, success: bool): Queue
    requires i < |q|
  {
    if success then Removed(q, i) else q[i := q[i].(dontexec := false)]
  }

  /** socket_read_fcgi on a read timeout. */
  function ReadTimedOut(q: Queue, i: nat): Queue
    requires i < |q|
  {
    q[i := q[i].(armed := true)]
  }

  // ----- runs -----

  datatype Step =
    | Event(cmd: Command, params: string)
    | FcgiTimer(index: nat, how: Sending)
    | ShellTimer(at: nat, forked: bool)
    | EndRequest(entry: nat, success: bool)
    | ReadTimeout(waiting: nat)

  /** Timers fire only while pending, FastCGI answers come only for FastCGI entries. */
  predicate Can(q: Queue, s: Step) {
    match s
    case Event(c, _) => true
    case FcgiTimer(i, _) => i < |q| && q[i].armed && q[i].fcgi
    case ShellTimer(i, _) => i < |q| && q[i].armed && !q[i].fcgi
    case EndRequest(i, _) => i < |q| && q[i].fcgi
    case ReadTimeout(i) => i < |q| && q[i].fcgi
  }

  function Do(q: Queue, s: Step, id: nat): Queue
    requires Can(q, s)
  {
    match s
    case Event(c, p) => Ran(q, c, p, id)
    case FcgiTimer(i, how) => FcgiFired(q, i, how)
    case ShellTimer(i, forked) => ShellFired(q, i, forked)
    case EndRequest(i, success) => Ended(q, i, success)
    case ReadTimeout(i) => ReadTimedOut(q, i)
  }

  ghost predicate Run(queues: seq<Queue>, steps: seq<Step>) {
    && |queues| == |steps| + 1 && queues[0] == []
    && forall k | 0 <= k < |steps| :: Can(queues[k], steps[k]) && queues[k + 1] == Do(queues[k], steps[k], k)
  }

  // ----- the invariant -----

  ghost predicate TimersArmed(q: Queue) {
    forall i | 0 <= i < |q| :: q[i].fcgi && q[i].aggregate > 0 ==> q[i].armed
  }

  ghost predicate Coalesced(q: Queue) {
    forall c :: Allowed(Aggregates(q, c))
  }

  ghost predicate QueueInv(q: Queue) {
    Coalesced(q) && TimersArmed(q)
  }

  lemma {:induction false} AggregatesAppend(x: Queue, y: Queue, c: string)
    ensures Aggregates(x + y, c) == Aggregates(x, c) + Aggregates(y, c)
  {
    if x == [] {
      assert x + y == y;
    } else {
      assert (x + y)[1..] == x[1..] + y;
      AggregatesAppend(x[1..], y, c);
    }
  }

  /** The values around one entry of the queue. */
  lemma AggregatesAround(q: Queue, i: nat, c: string)
    requires i < |q|
    ensures Aggregates(q, c) == Aggregates(q[..i], c) + Aggregates([q[i]], c) + Aggregates(q[i + 1..], c)
    ensures Aggregates(Removed(q, i), c) == Aggregates(q[..i], c) + Aggregates(q[i + 1..], c)
    ensures |Aggregates([q[i]], c)| <= 1
  {
    assert q == (q[..i] + [q[i]]) + q[i + 1..];
    AggregatesAppend(q[..i] + [q[i]], q[i + 1..], c);
    AggregatesAppend(q[..i], [q[i]], c);
    AggregatesAppend(q[..i], q[i + 1..], c);
  }

  lemma AllowedWithout(x: seq<nat>, m: seq<nat>, y: seq<nat>)
    requires Allowed(x + m + y) && |m| <= 1
    ensures Allowed(x + y)
  {
    if m == [] {
      assert x + m + y == x + y;
    } else {
      var s := x + m + y;
      assert |x + y| == |s| - 1;
      if |s| == 2 {
        if |x| == 0 { assert x + y == y && y == s[1..]; } else if |x| == 1 { assert x + y == x && x == s[..1]; }
      }
    }
  }

  lemma RemovedCoalesced(q: Queue, i: nat)
    requires Coalesced(q) && i < |q|
    ensures Coalesced(Removed(q, i))
  {
    forall c ensures Allowed(Aggregates(Removed(q, i), c)) {
      AggregatesAround(q, i, c);
      AllowedWithout(Aggregates(q[..i], c), Aggregates([q[i]], c), Aggregates(q[i + 1..], c));
    }
  }

  lemma UpdatedCoalesced(q: Queue, i: nat, e: Entry)
    requires Coalesced(q) && i < |q| && e.command == q[i].command && e.aggregate == q[i].aggregate
    ensures Coalesced(q[i := e])
  {
    var r := q[i := e];
    forall c ensures Allowed(Aggregates(r, c)) {
      AggregatesAround(q, i, c);
      AggregatesAround(q[i := e], i, c);
      assert q[i := e][..i] == q[..i] && q[i := e][i + 1..] == q[i + 1..];
      assert Aggregates([e], c) == Aggregates([q[i]], c);
    }
  }

  lemma RemovedArmed(q: Queue, i: nat)
    requires TimersArmed(q) && i < |q|
    ensures TimersArmed(Removed(q, i))
  {
    var r := Removed(q, i);
    forall j | 0 <= j < |r| ensures r[j].fcgi && r[j].aggregate > 0 ==> r[j].armed {
      assert r[j] == if j < i then q[j] else q[j + 1];
    }
  }

  // ----- what a walk finds -----

  lemma {:induction false} WalkNone(q: Queue, c: Command, sum: nat)
    requires sum <= 1 && (c.aggregate ==> Aggregates(q, c.command) == [])
    ensures Walked(q, c, sum) == Total(sum)
  {
    if q != [] { WalkNone(q[1..], c, sum); }
  }

  lemma {:induction false} WalkOne(q: Queue, c: Command)
    requires c.aggregate && Aggregates(q, c.command) == [1]
    ensures Walked(q, c, 0) == Total(1)
  {
    if q[0].command == c.command && q[0].aggregate > 0 {
      assert Aggregates(q, c.command)[0] == q[0].aggregate
          && Aggregates(q, c.command)[1..] == Aggregates(q[1..], c.command);
      WalkNone(q[1..], c, 1);
    } else {
      WalkOne(q[1..], c);
    }
  }

  lemma {:induction false} WalkTwo(q: Queue, c: Command)
    requires c.aggregate && Aggregates(q, c.command) != [] && Aggregates(q, c.command)[0] == 2
    ensures var w := Walked(q, c, 0);
            w.Hit? && w.sum == 2 && w.at < |q| && q[w.at].command == c.command && q[w.at].aggregate == 2
  {
    if !(q[0].command == c.command && q[0].aggregate > 0) { WalkTwo(q[1..], c); }
  }

  /** What run_command does, by what is queued: nothing or one entry makes room for a new
      head, two are coalesced into the first. */
  lemma RanCases(q: Queue, c: Command, params: string, id: nat)
    requires Coalesced(q)
    ensures var s := Aggregates(q, c.command);
            var q' := Ran(q, c, params, id);
            if c.aggregate && s != [] && s[0] == 2 then
              && Walked(q, c, 0).Hit?
              && var i := Walked(q, c, 0).at;
              && i < |q| && q[i].command == c.command && q[i].aggregate == 2
              && q' == if q[i].dontexec then q[i := Rescheduled(q[i])] else q
            else if c.compound then q' == q
            else q' == [Entry(id, c.command, params, c.fcgi, if c.aggregate then |s| + 1 else 0, false, true)] + q
  {
    var s := Aggregates(q, c.command);
    assert Allowed(s);
    if !c.aggregate || s == [] {
      WalkNone(q, c, 0);
    } else if s == [1] {
      WalkOne(q, c);
    } else {
      WalkTwo(q, c);
    }
  }

  lemma InsertCoalesced(q: Queue, e: Entry)
    requires Coalesced(q)
    requires e.aggregate > 0 ==> |Aggregates(q, e.command)| < 2 && e.aggregate == |Aggregates(q, e.command)| + 1
    requires e.aggregate > 0 ==> Aggregates(q, e.command) == [] || Aggregates(q, e.command)[0] == 1
    ensures Coalesced([e] + q)
  {
    var r := [e] + q;
    assert r[1..] == q;
    forall c ensures Allowed(Aggregates(r, c)) {
      assert Allowed(Aggregates(q, c));
    }
  }

  lemma RanKeeps(q: Queue, c: Command, params: string, id: nat)
    requires QueueInv(q)
    ensures QueueInv(Ran(q, c, params, id))
  {
    hide Ran, Walked;
    RanCases(q, c, params, id);
    var s, q' := Aggregates(q, c.command), Ran(q, c, params, id);
    assert Allowed(s);
    if c.aggregate && s != [] && s[0] == 2 {
      var i := Walked(q, c, 0).at;
      UpdatedCoalesced(q, i, Rescheduled(q[i]));
    } else if !c.compound {
      InsertCoalesced(q, q'[0]);
      assert forall j | 0 < j < |q'| :: q'[j] == q[j - 1];
    }
  }

  lemma StepKeeps(q: Queue, s: Step, id: nat)
    requires QueueInv(q) && Can(q, s)
    ensures QueueInv(Do(q, s, id))
  {
    hide Aggregates, Walked, Ran, Coalesced, Removed;
    match s
    case Event(c, p) => RanKeeps(q, c, p, id);
    case FcgiTimer(i, how) => TouchKeeps(q, i);
    case ShellTimer(i, forked) => TouchKeeps(q, i);
    case EndRequest(i, success) => TouchKeeps(q, i);
    case ReadTimeout(i) => TouchKeeps(q, i);
  }

  /** Removing an entry, and changing its flags so that a FastCGI aggregate stays armed. */
  lemma TouchKeeps(q: Queue, i: nat)
    requires QueueInv(q) && i < |q|
    ensures QueueInv(Removed(q, i))
    ensures forall e: Entry {:trigger q[i := e]} | Touched(q[i], e) :: QueueInv(q[i := e])
  {
    RemovedCoalesced(q, i);
    RemovedArmed(q, i);
    forall e: Entry {:trigger q[i := e]} | Touched(q[i], e) ensures QueueInv(q[i := e]) {
      UpdatedCoalesced(q, i, e);
    }
  }

  ghost predicate Touched(e: Entry, e': Entry) {
    && e'.command == e.command && e'.aggregate == e.aggregate && e'.fcgi == e.fcgi
    && (e'.fcgi && e'.aggregate > 0 ==> e'.armed)
  }

  /** In every reachable queue the aggregate entries of one command read [], [1], [2] or
      [2, 1], so there are at most two, and each FastCGI one among them has a pending timer. */
  lemma {:induction false} ReachableQueues(queues: seq<Queue>, steps: seq<Step>, k: nat)
    requires Run(queues, steps) && k < |queues|
    ensures QueueInv(queues[k])
    decreases k
  {
    if k > 0 {
      ReachableQueues(queues, steps, k - 1);
      StepKeeps(queues[k - 1], steps[k - 1], k - 1);
    }
  }

  // ----- events and their execution -----

  /** Some entry for this command is still to be sent. A shell entry whose fork has failed is one
      too, although it waits for no timer any more: Scheduled leaves it out. */
  ghost predicate Pending(q: Queue, command: string) {
    exists i :: 0 <= i < |q| && WillSend(q[i], command)
  }

  predicate WillSend(e: Entry, command: string) {
    e.command == command && !e.dontexec && (e.fcgi ==> e.armed)
  }

  /** Right after an event its command is pending, whether it was queued or coalesced. */
  lemma EventIsPending(q: Queue, c: Command, params: string, id: nat)
    requires QueueInv(q) && !c.compound
    ensures Pending(Ran(q, c, params, id), c.command)
  {
    hide Ran, Walked;
    RanCases(q, c, params, id);
    var s, q' := Aggregates(q, c.command), Ran(q, c, params, id);
    if c.aggregate && s != [] && s[0] == 2 {
      var i := Walked(q, c, 0).at;
      assert WillSend(q'[i], c.command);
    } else {
      assert WillSend(q'[0], c.command);
    }
  }

  /** Some entry for this command has its timer pending and will be sent when it fires. */
  ghost predicate Scheduled(q: Queue, command: string) {
    exists i :: 0 <= i < |q| && Due(q[i], command)
  }

  predicate Due(e: Entry, command: string) {
    WillSend(e, command) && e.armed
  }

  /** A request that the server did not complete is scheduled again. */
  lemma FailureReschedules(q: Queue, i: nat, id: nat)
    requires QueueInv(q) && Can(q, EndRequest(i, false)) && q[i].aggregate > 0
    ensures Scheduled(Do(q, EndRequest(i, false), id), q[i].command)
  {
    assert Due(Do(q, EndRequest(i, false), id)[i], q[i].command);
  }

  /** The event joins an entry that waits for no timer: one whose fork has failed. */
  predicate JoinsStuck(q: Queue, c: Command) {
    var w := Walked(q, c, 0);
    w.Hit? && w.at < |q| && !q[w.at].dontexec && !q[w.at].armed
  }

  /** Right after an event its command is also scheduled, unless it joined an entry whose fork has
      failed and nothing else of the command is scheduled. Such an entry is never a FastCGI one. */
  lemma EventIsScheduled(q: Queue, c: Command, params: string, id: nat)
    requires QueueInv(q) && !c.compound
    ensures Scheduled(Ran(q, c, params, id), c.command) <==> !JoinsStuck(q, c) || Scheduled(q, c.command)
    ensures JoinsStuck(q, c) ==> !q[Walked(q, c, 0).at].fcgi
  {
    RanCases(q, c, params, id);
    hide Ran, Walked;
    var s, q', w := Aggregates(q, c.command), Ran(q, c, params, id), Walked(q, c, 0);
    if c.aggregate && s != [] && s[0] == 2 {
      if q'[w.at].armed { assert Due(q'[w.at], c.command); }
      forall i | 0 <= i < |q| && Due(q[i], c.command) ensures Due(q'[i], c.command) {}
      forall i | 0 <= i < |q'| && i != w.at && Due(q'[i], c.command) ensures Due(q[i], c.command) {}
    } else {
      assert Due(q'[0], c.command);
      assert !JoinsStuck(q, c) by { NoHit(q, c); }
    }
  }

  lemma NoHit(q: Queue, c: Command)
    requires Coalesced(q) && !(c.aggregate && Aggregates(q, c.command) != [] && Aggregates(q, c.command)[0] == 2)
    ensures Walked(q, c, 0).Total?
  {
    assert Allowed(Aggregates(q, c.command));
    if !c.aggregate || Aggregates(q, c.command) == [] { WalkNone(q, c, 0); } else { WalkOne(q, c); }
  }

  /** The step takes the entry at position i out of the queue, or sends it. */
  predicate Consumes(q: Queue, s: Step, i: nat)
    requires i < |q|
  {
    match s
    case Event(_, _) => false
    case FcgiTimer(j, how) => i == j && how.Sent?
    case ShellTimer(j, forked) => i == j && forked
    case EndRequest(j, success) => i == j && success
    case ReadTimeout(_) => false
  }

  /** A pending entry stays pending until it is sent or its own completion removes it: no
      other timer, event or answer loses it. */
  lemma PendingStays(q: Queue, s: Step, id: nat, i: nat)
    requires QueueInv(q) && Can(q, s) && i < |q| && WillSend(q[i], q[i].command) && !Consumes(q, s, i)
    ensures Pending(Do(q, s, id), q[i].command)
  {
    hide Walked;
    var q', c := Do(q, s, id), q[i].command;
    match s
    case Event(cmd, p) =>
      RanCases(q, cmd, p, id);
      if |q'| == |q| { assert WillSend(q'[i], c); } else { assert q'[i + 1] == q[i] && WillSend(q'[i + 1], c); }
    case FcgiTimer(j, how) => Survives(q, q', j, i);
    case ShellTimer(j, forked) => Survives(q, q', j, i);
    case EndRequest(j, success) => Survives(q, q', j, i);
    case ReadTimeout(j) => Survives(q, q', j, i);
  }

  lemma Survives(q: Queue, q': Queue, j: nat, i: nat)
    requires i < |q| && j < |q| && WillSend(q[i], q[i].command)
    requires q' == Removed(q, j) || (|q'| == |q| && q' == q[j := q'[j]])
    requires i == j ==> |q'| == |q| && WillSend(q'[j], q[i].command)
    ensures Pending(q', q[i].command)
  {
    if |q'| == |q| {
      assert WillSend(q'[i], q[i].command);
    } else if i < j {
      assert q'[i] == q[i];
    } else {
      assert q'[i - 1] == q[i];
    }
  }

  /** A command stops being pending exactly when the step consumes an entry of it that is the last
      one still to be sent. */
  lemma PendingEndsExactly(q: Queue, s: Step, id: nat, i: nat)
    requires QueueInv(q) && Can(q, s) && i < |q| && WillSend(q[i], q[i].command)
    ensures !Pending(Do(q, s, id), q[i].command) <==>
            Consumes(q, s, i) && forall j | 0 <= j < |q| && j != i :: !WillSend(q[j], q[i].command)
  {
    hide QueueInv;
    if !Consumes(q, s, i) {
      PendingStays(q, s, id, i);
    } else if j :| 0 <= j < |q| && j != i && WillSend(q[j], q[i].command) {
      PendingStays(q, s, id, j);
    } else {
      ConsumedLast(q, s, id, i);
    }
  }

  lemma ConsumedLast(q: Queue, s: Step, id: nat, i: nat)
    requires Can(q, s) && i < |q| && WillSend(q[i], q[i].command) && Consumes(q, s, i)
    requires forall j | 0 <= j < |q| && j != i :: !WillSend(q[j], q[i].command)
    ensures !Pending(Do(q, s, id), q[i].command)
  {
    hide WillSend, Removed;
    var q' := Do(q, s, id);
    RemovedEntries(q, i);
    forall j | 0 <= j < |q'| ensures !WillSend(q'[j], q[i].command) {
      if |q'| == |q| && j == i { SentEntry(q[i], q[i].command); }
    }
  }

  lemma RemovedEntries(q: Queue, i: nat)
    requires i < |q|
    ensures |Removed(q, i)| == |q| - 1
    ensures forall j | 0 <= j < |q| - 1 :: Removed(q, i)[j] == q[if j < i then j else j + 1]
  {}

  /** What is marked as sent, or is a FastCGI entry without a timer, is not to be sent. */
  lemma SentEntry(e: Entry, command: string)
    ensures !WillSend(e.(dontexec := true, armed := true), command)
    ensures e.fcgi ==> !WillSend(e.(armed := false), command)
  {}

  /** The step sends an entry of this command to the FastCGI server or to a shell. */
  predicate Sends(q: Queue, s: Step, command: string)
    requires Can(q, s)
  {
    match s
    case FcgiTimer(i, how) => how.Sent? && WillSend(q[i], command)
    case ShellTimer(i, forked) => forked && WillSend(q[i], command)
    case _ => false
  }

  /** The step takes the last entry of the command that was due, without sending it: a request
      completes whose entry is to be sent again, or the fork for a shell entry fails. */
  ghost predicate Loses(q: Queue, s: Step, command: string)
    requires Can(q, s)
  {
    match s
    case EndRequest(i, success) => success && LastDue(q, i, command)
    case ShellTimer(i, forked) => !forked && LastDue(q, i, command)
    case _ => false
  }

  ghost predicate LastDue(q: Queue, i: nat, command: string)
    requires i < |q|
  {
    Due(q[i], command) && forall j | 0 <= j < |q| && j != i :: !Due(q[j], command)
  }

  /** The entry the step works on; an event has none. */
  function Target(s: Step): Option<nat> {
    match s
    case Event(_, _) => None
    case FcgiTimer(i, _) => Some(i)
    case ShellTimer(i, _) => Some(i)
    case EndRequest(i, _) => Some(i)
    case ReadTimeout(i) => Some(i)
  }

  /** An entry that is due stays due under every step on another entry, and under every event. */
  lemma DueStays(q: Queue, s: Step, id: nat, i: nat, command: string)
    requires QueueInv(q) && Can(q, s) && i < |q| && Due(q[i], command) && Target(s) != Some(i)
    ensures Scheduled(Do(q, s, id), command)
  {
    if s.Event? { RanKeepsUnsent(q, s.cmd, s.params, id, q[i]); } else { OthersStay(q, s, id, i); }
    hide Do, Due, QueueInv, Can;
    var q' := Do(q, s, id);
    var j :| 0 <= j < |q'| && q'[j] == q[i];
    assert Due(q'[j], command);
  }

  /** What the step does to its own entry, when that is the only one due. */
  lemma OwnEntry(q: Queue, s: Step, id: nat, i: nat, command: string)
    requires Can(q, s) && Target(s) == Some(i) && LastDue(q, i, command) && !Sends(q, s, command)
    ensures Scheduled(Do(q, s, id), command) <==> !Loses(q, s, command)
  {
    var q' := Do(q, s, id);
    if Loses(q, s, command) {
      forall j | 0 <= j < |q'| ensures !Due(q'[j], command) {
        if |q'| < |q| { assert q'[j] == q[if j < i then j else j + 1]; }
      }
    } else {
      assert Due(q'[i], command);
    }
  }

  /** Without being sent, a command stops being scheduled in a step of these two kinds and in no
      other. */
  lemma LostExactly(q: Queue, s: Step, id: nat, command: string)
    requires QueueInv(q) && Can(q, s) && Scheduled(q, command) && !Sends(q, s, command)
    ensures !Scheduled(Do(q, s, id), command) <==> Loses(q, s, command)
  {
    hide QueueInv, Do, Due;
    if i :| 0 <= i < |q| && Due(q[i], command) && Target(s) != Some(i) {
      DueStays(q, s, id, i, command);
    } else {
      var i :| 0 <= i < |q| && Due(q[i], command);
      OwnEntry(q, s, id, i, command);
    }
  }

  /** Over any stretch of any run in which a command is not sent, it is scheduled throughout exactly
      when no such step happens. */
  lemma {:induction false} ScheduledOverRuns(queues: seq<Queue>, steps: seq<Step>, k: nat, m: nat, command: string)
    requires Run(queues, steps) && k <= m < |queues| && Scheduled(queues[k], command)
    requires forall n | k <= n < m :: Can(queues[n], steps[n]) && !Sends(queues[n], steps[n], command)
    ensures (forall n | k <= n <= m :: Scheduled(queues[n], command))
            <==> (forall n | k <= n < m :: !Loses(queues[n], steps[n], command))
    decreases m
  {
    hide Scheduled, Loses, Do, QueueInv, Sends;
    if k < m {
      ScheduledOverRuns(queues, steps, k, m - 1, command);
      if Scheduled(queues[m - 1], command) {
        ReachableQueues(queues, steps, m - 1);
        assert queues[m - 1 + 1] == Do(queues[m - 1], steps[m - 1], m - 1);
        LostExactly(queues[m - 1], steps[m - 1], m - 1, command);
      }
    }
  }

  // ----- what a failed fork leaves behind -----

  /** A second shell entry of its command, unsent and without a timer. */
  predicate Stuck(e: Entry) {
    !e.fcgi && e.aggregate == 2 && !e.dontexec && !e.armed
  }

  lemma {:induction false} AggregatesHas(q: Queue, i: nat)
    requires i < |q| && q[i].aggregate > 0
    ensures q[i].aggregate in Aggregates(q, q[i].command)
  {
    if i > 0 { AggregatesHas(q[1..], i - 1); }
  }

  lemma OnlyOneTwo(q: Queue, i: nat, j: nat)
    requires Coalesced(q) && i < |q| && j < |q| && q[i].command == q[j].command
    requires q[i].aggregate == 2 && q[j].aggregate == 2
    ensures i == j
  {
    hide Aggregates, Allowed, Twos;
    assert Allowed(Aggregates(q, q[i].command));
    AllowedTwos(Aggregates(q, q[i].command));
    if i < j { NoLaterTwo(q, i, j); } else if j < i { NoLaterTwo(q, j, i); }
  }

  /** How many of the values are two. */
  function Twos(s: seq<nat>): nat {
    if s == [] then 0 else (if s[0] == 2 then 1 else 0) + Twos(s[1..])
  }

  lemma AllowedTwos(s: seq<nat>)
    requires Allowed(s)
    ensures Twos(s) <= 1
  {
    assert |s| == 2 ==> s[1..] == [1] && [1][1..] == [];
  }

  lemma TwosCons(x: nat, s: seq<nat>)
    ensures Twos([x] + s) == (if x == 2 then 1 else 0) + Twos(s)
  {
    assert ([x] + s)[1..] == s;
  }

  lemma {:induction false} TwosHas(s: seq<nat>)
    requires 2 in s
    ensures Twos(s) >= 1
  {
    if s[0] != 2 { TwosHas(s[1..]); }
  }

  lemma {:induction false} NoLaterTwo(q: Queue, i: nat, j: nat)
    requires i < j < |q| && q[i].command == q[j].command && q[i].aggregate == 2 && q[j].aggregate == 2
    ensures Twos(Aggregates(q, q[i].command)) >= 2
  {
    hide Twos;
    var c, rest := q[i].command, q[1..];
    TwosCons(q[0].aggregate, Aggregates(rest, c));
    if i == 0 {
      assert rest[j - 1] == q[j];
      AggregatesHas(rest, j - 1);
      TwosHas(Aggregates(rest, c));
    } else {
      assert rest[i - 1] == q[i] && rest[j - 1] == q[j];
      NoLaterTwo(rest, i - 1, j - 1);
    }
  }

  /** No step moves such an entry. */
  lemma StuckStays(q: Queue, s: Step, id: nat, e: Entry)
    requires QueueInv(q) && Can(q, s) && e in q && Stuck(e)
    ensures e in Do(q, s, id)
  {
    var i :| 0 <= i < |q| && q[i] == e;
    assert Target(s) != Some(i);
    if s.Event? {
      RanKeepsUnsent(q, s.cmd, s.params, id, e);
    } else {
      OthersStay(q, s, id, i);
    }
  }

  lemma RanKeepsUnsent(q: Queue, c: Command, params: string, id: nat, e: Entry)
    requires Coalesced(q) && e in q && !e.dontexec
    ensures e in Ran(q, c, params, id)
  {
    RanCases(q, c, params, id);
    hide Ran, Walked, Aggregates, Coalesced;
    var q' := Ran(q, c, params, id);
    var i :| 0 <= i < |q| && q[i] == e;
    if |q'| == |q| { assert q'[i] == e; } else { assert q'[i + 1] == e; }
  }

  /** A step on one entry leaves the others in the queue. */
  lemma OthersStay(q: Queue, s: Step, id: nat, i: nat)
    requires Can(q, s) && i < |q| && Target(s).Some? && Target(s) != Some(i)
    ensures q[i] in Do(q, s, id)
  {
    hide Removed;
    var q', j := Do(q, s, id), Target(s).value;
    RemovedEntries(q, j);
    if |q'| == |q| { assert q'[i] == q[i]; } else { assert q'[if i < j then i else i - 1] == q[i]; }
  }

  /** While it is there, every further event of its command is swallowed. */
  lemma StuckSwallows(q: Queue, c: Command, params: string, id: nat, e: Entry)
    requires QueueInv(q) && e in q && Stuck(e) && c.aggregate && c.command == e.command
    ensures Ran(q, c, params, id) == q
  {
    var i :| 0 <= i < |q| && q[i] == e;
    RanCases(q, c, params, id);
    AggregatesHas(q, i);
    assert Allowed(Aggregates(q, c.command));
    hide Ran, Walked, QueueInv, Aggregates;
    OnlyOneTwo(q, i, Walked(q, c, 0).at);
  }

  /** So it is for the rest of any run. */
  lemma {:induction false} StuckForEver(queues: seq<Queue>, steps: seq<Step>, k: nat, m: nat, e: Entry)
    requires Run(queues, steps) && k <= m < |queues| && e in queues[k] && Stuck(e)
    ensures e in queues[m]
    ensures m < |steps| && steps[m].Event? && steps[m].cmd.aggregate && steps[m].cmd.command == e.command
            ==> queues[m + 1] == queues[m]
    decreases m
  {
    hide Stuck, Do, QueueInv, Ran;
    if k < m {
      StuckForEver(queues, steps, k, m - 1, e);
      ReachableQueues(queues, steps, m - 1);
      assert queues[m - 1 + 1] == Do(queues[m - 1], steps[m - 1], m - 1);
      StuckStays(queues[m - 1], steps[m - 1], m - 1, e);
    }
    if m < |steps| && steps[m].Event? && steps[m].cmd.aggregate && steps[m].cmd.command == e.command {
      ReachableQueues(queues, steps, m);
      StuckSwallows(queues[m], steps[m].cmd, steps[m].params, m, e);
      EventDoes(queues[m], steps[m], m);
    }
  }

  lemma EventDoes(q: Queue, s: Step, id: nat)
    requires s.Event?
    ensures Can(q, s) && Do(q, s, id) == Ran(q, s.cmd, s.params, id)
  {}

  const NTPD := Command(false, "/usr/bin/killall ntpd; /bin/sleep 3; /usr/local/sbin/ntpd", true, false)

  /** An event is not always followed by an execution, first case: the fork for the second of two
      entries fails, the first one runs and is dropped, and the next event changes nothing. The
      command is pending for ever and scheduled no more. */
  lemma ForkFailureLosesEvent()
    ensures var e1, e2 := Entry(0, NTPD.command, "", false, 1, false, true),
            Entry(1, NTPD.command, "", false, 2, false, true);
            var stuck := e2.(armed := false);
            var queues := [[], [e1], [e2, e1], [stuck, e1], [stuck, e1.(dontexec := true)], [stuck], [stuck]];
            var steps := [Event(NTPD, ""), Event(NTPD, ""), ShellTimer(0, false), ShellTimer(1, true),
                          ShellTimer(1, true), Event(NTPD, "")];
            && Run(queues, steps) && Stuck(stuck)
            && Pending([stuck], NTPD.command) && !Scheduled([stuck], NTPD.command)
  {
    var e1, e2 := Entry(0, NTPD.command, "", false, 1, false, true), Entry(1, NTPD.command, "", false, 2, false, true);
    var stuck := e2.(armed := false);
    assert [e1][1..] == [] && Walked([e1], NTPD, 0) == Total(1);
    assert Walked([stuck], NTPD, 0) == Hit(0, 2);
    assert WillSend([stuck][0], NTPD.command);
    var before := [stuck, e1.(dontexec := true)];
    assert Removed(before, 1) == [stuck];
    assert [e2, e1][0 := stuck] == [stuck, e1];
    assert [stuck, e1][1 := e1.(dontexec := true)] == before;
  }

  const RELOAD := Command(false, "/etc/rc.filter_configure_sync", true, true)

  /** Second case: coalesced into an entry that was sent before, an event is lost when that earlier
      request completes. */
  lemma CompletionLosesEvent()
    ensures var e1 := Entry(0, RELOAD.command, "", true, 1, false, true);
            var e2 := Entry(1, RELOAD.command, "", true, 2, false, true);
            && Ran([], RELOAD, "", 0) == [e1] && Ran([e1], RELOAD, "", 1) == [e2, e1]
            && var sent1 := FcgiFired([e2, e1], 1, Sent);
            && Ended(sent1, 1, true) == [e2]
            && var sent2 := FcgiFired([e2], 0, Sent);
            && sent2[0].dontexec && Ran(sent2, RELOAD, "", 5) == [e2]
            && Ended([e2], 0, true) == [] && !Pending([], RELOAD.command) && !Scheduled([], RELOAD.command)
  {
    var e1 := Entry(0, RELOAD.command, "", true, 1, false, true);
    var e2 := Entry(1, RELOAD.command, "", true, 2, false, true);
    assert [e1][1..] == [] && [e2][1..] == [];
    assert Walked([e1], RELOAD, 0) == Total(1);
    var sent2 := FcgiFired([e2], 0, Sent);
    assert sent2 == [e2.(dontexec := true)];
    assert Walked(sent2, RELOAD, 0) == Hit(0, 2);
  }

  // ----- the daemon -----

  /** The global queue. */
  class Daemon {
    var cmds: Queue
    var nextId: nat

    constructor ()
      ensures cmds == [] && QueueInv(cmds)
    {
      cmds, nextId := [], 0;
      EmptyInv();
    }

    /** run_command. */
    method RunCommand(cmd: Command, params: string)
      requires QueueInv(cmds)
      modifies this
      ensures cmds == Ran(old(cmds), cmd, params, old(nextId)) && nextId == old(nextId) + 1
      ensures QueueInv(cmds) && (!cmd.compound ==> Pending(cmds, cmd.command))
    {
      hide QueueInv, Pending, Walked;
      RanKeeps(cmds, cmd, params, nextId);
      if !cmd.compound { EventIsPending(cmds, cmd, params, nextId); }
      var id := nextId;
      nextId := nextId + 1;
      var w := SumAggregates(cmd);
      match w
      case Hit(i, aggregate) =>
        if cmds[i].dontexec && aggregate < 3 {
          cmds := cmds[i := cmds[i].(dontexec := false, armed := true)];
        }
      case Total(aggregate) =>
        if cmd.compound { return; }
        var command := Entry(id, cmd.command, params, cmd.fcgi, aggregate + 1, false, true);
        if !cmd.aggregate { command := command.(aggregate := 0); }
        cmds := [command] + cmds;
    }

    /** The loop of run_command: adds up the aggregate values of the command until they exceed one. */
    method SumAggregates(cmd: Command) returns (w: Walk)
      ensures w == Walked(cmds, cmd, 0) && (w.Hit? ==> w.at < |cmds|)
    {
      var aggregate: nat, i: nat := 0, 0;
      while i < |cmds|
        invariant 0 <= i <= |cmds|
        invariant Walked(cmds, cmd, 0) == Shifted(Walked(cmds[i..], cmd, aggregate), i)
      {
        assert cmds[i..][0] == cmds[i] && cmds[i..][1..] == cmds[i + 1..];
        if cmd.aggregate && cmds[i].command == cmd.command {
          aggregate := aggregate + cmds[i].aggregate;
          if aggregate > 1 { return Hit(i, aggregate); }
        }
        i := i + 1;
      }
      return Total(aggregate);
    }

    /** fcgi_send_command on a fired timer. */
    method FcgiSendCommand(i: nat, how: Sending)
      requires QueueInv(cmds) && i < |cmds| && cmds[i].fcgi && cmds[i].armed
      modifies this`cmds
      ensures cmds == FcgiFired(old(cmds), i, how) && QueueInv(cmds)
    {
      StepKeeps(cmds, FcgiTimer(i, how), nextId);
      hide QueueInv;
      cmds := cmds[i := cmds[i].(armed := false)];
      if cmds[i].dontexec {
        cmds := cmds[..i] + cmds[i + 1..];
        return;
      }
      match how
      case NoSocket => cmds := cmds[i := cmds[i].(armed := true)];
      case WriteFailed => cmds := cmds[i := cmds[i].(armed := true)];
      case Sent =>
        if cmds[i].aggregate > 0 {
          cmds := cmds[i := cmds[i].(dontexec := true, armed := true)];
        }
    }

    /** run_command_detailed on a fired timer. */
    method RunCommandDetailed(i: nat, forked: bool)
      requires QueueInv(cmds) && i < |cmds| && !cmds[i].fcgi && cmds[i].armed
      modifies this`cmds
      ensures cmds == ShellFired(old(cmds), i, forked) && QueueInv(cmds)
    {
      StepKeeps(cmds, ShellTimer(i, forked), nextId);
      hide QueueInv;
      cmds := cmds[i := cmds[i].(armed := false)];
      if cmds[i].dontexec {
        cmds := cmds[..i] + cmds[i + 1..];
      } else if forked {
        if cmds[i].aggregate > 0 {
          cmds := cmds[i := cmds[i].(dontexec := true, armed := true)];
        } else {
          cmds := cmds[..i] + cmds[i + 1..];
        }
      }
    }

    /** socket_read_fcgi on an end-of-request record. */
    method SocketReadFcgi(i: nat, success: bool)
      requires QueueInv(cmds) && i < |cmds| && cmds[i].fcgi
      modifies this`cmds
      ensures cmds == Ended(old(cmds), i, success) && QueueInv(cmds)
      ensures !success && old(cmds[i].aggregate) > 0 ==> Scheduled(cmds, old(cmds[i].command))
    {
      StepKeeps(cmds, EndRequest(i, success), nextId);
      if !success && cmds[i].aggregate > 0 { FailureReschedules(cmds, i, nextId); }
      hide QueueInv, Scheduled;
      if success {
        cmds := cmds[..i] + cmds[i + 1..];
      } else if cmds[i].dontexec {
        cmds := cmds[i := cmds[i].(dontexec := false)];
      }
    }
  }

  lemma EmptyInv()
    ensures QueueInv([])
  {}

  function Shifted(w: Walk, i: nat): Walk {
    match w
    case Hit(at, sum) => Hit(at + i, sum)
    case Total(sum) => Total(sum)
  }
}
