/** Pushing an address list into a firewall table: the calls issued, in order, and what
    the kernel's table holds between any two of them. */
module Tables {
  import opened AddrList

  datatype KernelOp = TableAdd(addr: SockAddr) | TableDel(addr: SockAddr)

  function EntryOps(e: Entry): seq<KernelOp> {
    (if e.isNew then [TableAdd(e.addr)] else []) + (if e.isOld then [TableDel(e.addr)] else [])
  }

  /** The calls that the sweep of table_update issues. */
  function Ops(s: seq<Entry>): seq<KernelOp> {
    if s == [] then [] else EntryOps(s[0]) + Ops(s[1..])
  }

  /** The table after a sequence of successful calls. */
  function Kernel(k: set<SockAddr>, ops: seq<KernelOp>): set<SockAddr>
    decreases |ops|
  {
    if ops == [] then k
    else match ops[0]
      case TableAdd(a) => Kernel(k + {a}, ops[1..])
      case TableDel(a) => Kernel(k - {a}, ops[1..])
  }

  ghost function Added(ops: seq<KernelOp>): set<SockAddr> {
    if ops == [] then {} else (if ops[0].TableAdd? then {ops[0].addr} else {}) + Added(ops[1..])
  }

  ghost function Deleted(ops: seq<KernelOp>): set<SockAddr> {
    if ops == [] then {} else (if ops[0].TableDel? then {ops[0].addr} else {}) + Deleted(ops[1..])
  }

  /** Each address is the subject of at most one call. */
  ghost predicate OnePerAddress(ops: seq<KernelOp>) {
    ops == [] || (ops[0].addr !in Added(ops[1..]) + Deleted(ops[1..]) && OnePerAddress(ops[1..]))
  }

  /** Every add precedes every delete. */
  ghost predicate AddsFirst(ops: seq<KernelOp>) {
    forall i, j | 0 <= i < |ops| && 0 <= j < |ops| && ops[i].TableAdd? && ops[j].TableDel? :: i < j
  }

  /** New entries sit in front of all others, because addr_add inserts at the head. */
  ghost predicate NewInFront(s: seq<Entry>) {
    s == [] || ((s[0].isNew || Fresh(s[1..]) == {}) && NewInFront(s[1..]))
  }

  lemma {:induction false} UnmarkNewInFront(s: seq<Entry>, a: SockAddr)
    requires NoDup(s) && Exclusive(s) && a in Addrs(s) && NewInFront(s)
    ensures NewInFront(Unmark(s, a))
  {
    if s[0].addr != a {
      UnmarkSets(s[1..], a);
      UnmarkNewInFront(s[1..], a);
    }
  }

  lemma {:induction false} AddAllNewInFront(s: seq<Entry>, src: seq<Item>)
    requires NoDup(s) && Exclusive(s) && NewInFront(s)
    ensures NewInFront(AddAll(s, src))
    decreases |src|
  {
    if src != [] {
      AddSets(s, src[0]);
      HasIff(s, src[0].addr);
      if src[0].addr in Addrs(s) {
        UnmarkNewInFront(s, src[0].addr);
      } else {
        assert Add(s, src[0])[1..] == s;
      }
      AddAllNewInFront(Add(s, src[0]), src[1..]);
    }
  }

  lemma OpsCons(s: seq<Entry>)
    requires s != [] && Exclusive(s)
    ensures Added(Ops(s)) == (if s[0].isNew then {s[0].addr} else {}) + Added(Ops(s[1..]))
    ensures Deleted(Ops(s)) == (if s[0].isOld then {s[0].addr} else {}) + Deleted(Ops(s[1..]))
    ensures Ops(s) == Ops(s[1..]) || (Ops(s) != [] && Ops(s)[0].addr == s[0].addr && Ops(s)[1..] == Ops(s[1..]))
  {
    if !s[0].isNew && !s[0].isOld { assert Ops(s) == Ops(s[1..]); }
  }

  /** The calls of a sweep, read off the list: new entries are added, old ones deleted. */
  lemma {:induction false} OpsSets(s: seq<Entry>)
    requires NoDup(s) && Exclusive(s)
    ensures Added(Ops(s)) == Fresh(s) && Deleted(Ops(s)) == Addrs(s) - Kept(s)
  {
    if s != [] {
      var t := s[1..];
      OpsSets(t);
      OpsCons(s);
      Views(t);
      ConsDifference(s[0].addr, Addrs(t), Kept(t), Fresh(t));
    }
  }

  lemma {:induction false} OpsOnce(s: seq<Entry>)
    requires NoDup(s) && Exclusive(s)
    ensures OnePerAddress(Ops(s))
  {
    if s != [] {
      OpsOnce(s[1..]);
      OpsSets(s[1..]);
      Views(s[1..]);
      OpsCons(s);
    }
  }

  lemma {:induction false} OpsAddsFirst(s: seq<Entry>)
    requires Exclusive(s) && NewInFront(s)
    ensures AddsFirst(Ops(s))
    ensures Fresh(s) == {} ==> forall i | 0 <= i < |Ops(s)| :: Ops(s)[i].TableDel?
  {
    if s != [] {
      OpsAddsFirst(s[1..]);
    }
  }

  /** With at most one call per address the order of calls does not matter in the end. */
  lemma {:induction false} KernelNet(k: set<SockAddr>, ops: seq<KernelOp>)
    requires OnePerAddress(ops)
    ensures Kernel(k, ops) == (k + Added(ops)) - Deleted(ops)
    decreases |ops|
  {
    if ops != [] {
      KernelNet(if ops[0].TableAdd? then k + {ops[0].addr} else k - {ops[0].addr}, ops[1..]);
    }
  }

  /** The calls that bring a table list to the action's list: one add for each address that
      is missing, one delete for each that is neither wanted nor static, adds first. */
  lemma UpdateCalls(tbl: seq<Entry>, src: seq<Item>)
    requires NoDup(tbl) && Settled(tbl)
    ensures var ops := Ops(AddAll(Mark(tbl), src));
            && OnePerAddress(ops) && AddsFirst(ops)
            && Added(ops) == ItemAddrs(src) - Addrs(tbl)
            && Deleted(ops) == Addrs(tbl) - (Statics(tbl) + ItemAddrs(src))
  {
    var m := AddAll(Mark(tbl), src);
    RoundMarks(tbl, src);
    MarkSettled(tbl);
    MarkNewInFront(tbl);
    AddAllNewInFront(Mark(tbl), src);
    OpsSets(m);
    OpsOnce(m);
    OpsAddsFirst(m);
  }

  lemma {:induction false} MarkNewInFront(s: seq<Entry>)
    requires NoDup(s) && Settled(s)
    ensures NewInFront(Mark(s))
  {
    if s != [] {
      MarkSettled(s[1..]);
      MarkNewInFront(s[1..]);
    }
  }

  /** Make before break: from a table that mirrors the old list, every point of the update
      still holds all addresses that stay, holds nothing but old and new addresses, holds
      all of the new set before anything is taken out, and ends as the new list. */
  lemma UpdateNeverDropsKept(tbl: seq<Entry>, src: seq<Item>, n: nat)
    requires NoDup(tbl) && Settled(tbl)
    requires n <= |Ops(AddAll(Mark(tbl), src))|
    ensures var ops := Ops(AddAll(Mark(tbl), src));
            var was, now, k := Addrs(tbl), Statics(tbl) + ItemAddrs(src), Kernel(Addrs(tbl), ops[..n]);
            && was * now <= k <= was + now
            && (was <= k || now <= k)
            && (n == |ops| ==> k == now)
  {
    var ops := Ops(AddAll(Mark(tbl), src));
    UpdateCalls(tbl, src);
    assert Statics(tbl) <= Addrs(tbl) by { Views(tbl); }
    PrefixOnce(ops, n);
    PrefixAddsFirst(ops, n);
    KernelNet(Addrs(tbl), ops[..n]);
    assert ops[..|ops|] == ops;
    MakeBeforeBreak(Addrs(tbl), Statics(tbl) + ItemAddrs(src), Added(ops[..n]), Deleted(ops[..n]));
  }

  lemma MakeBeforeBreak<T>(was: set<T>, now: set<T>, add: set<T>, del: set<T>)
    requires add <= now - was && del <= was - now && (del == {} || add == now - was)
    ensures was * now <= (was + add) - del <= was + now
    ensures was <= (was + add) - del || now <= (was + add) - del
    ensures add == now - was && del == was - now ==> (was + add) - del == now
  {}

  lemma {:induction false} PrefixOnce(ops: seq<KernelOp>, n: nat)
    requires n <= |ops| && OnePerAddress(ops)
    ensures Added(ops[..n]) <= Added(ops) && Deleted(ops[..n]) <= Deleted(ops) && OnePerAddress(ops[..n])
  {
    if n > 0 {
      assert ops[..n][1..] == ops[1..][..n - 1];
      PrefixOnce(ops[1..], n - 1);
    }
  }

  lemma {:induction false} OnlyDeletes(ops: seq<KernelOp>)
    requires forall i | 0 <= i < |ops| :: ops[i].TableDel?
    ensures Added(ops) == {}
  {
    if ops != [] { OnlyDeletes(ops[1..]); }
  }

  lemma {:induction false} PrefixAddsFirst(ops: seq<KernelOp>, n: nat)
    requires n <= |ops| && AddsFirst(ops)
    ensures Deleted(ops[..n]) == {} || Added(ops[..n]) == Added(ops)
  {
    if n > 0 {
      var t := ops[1..];
      assert ops[..n][1..] == t[..n - 1];
      forall i, j | 0 <= i < |t| && 0 <= j < |t| && t[i].TableAdd? && t[j].TableDel? ensures i < j {
        assert ops[i + 1].TableAdd? && ops[j + 1].TableDel?;
      }
      PrefixAddsFirst(t, n - 1);
      if ops[0].TableDel? {
        OnlyDeletes(ops);
        OnlyDeletes(ops[..n]);
      }
    }
  }

  /** table_update: synchronise the table list with the action's list and issue the calls. */
  method TableUpdate(tbl: AddrQueue, src: seq<Item>) returns (ops: seq<KernelOp>)
    requires NoDup(tbl.entries) && Settled(tbl.entries)
    modifies tbl
    ensures tbl.entries == Round(old(tbl.entries), src)
    ensures NoDup(tbl.entries) && Settled(tbl.entries)
    ensures Addrs(tbl.entries) == Statics(old(tbl.entries)) + ItemAddrs(src)
    ensures ops == Ops(AddAll(Mark(old(tbl.entries)), src))
    ensures OnePerAddress(ops) && AddsFirst(ops)
    ensures Added(ops) == Addrs(tbl.entries) - Addrs(old(tbl.entries))
    ensures Deleted(ops) == Addrs(old(tbl.entries)) - Addrs(tbl.entries)
    ensures Kernel(Addrs(old(tbl.entries)), ops) == Addrs(tbl.entries)
  {
    RoundSync(tbl.entries, src);
    UpdateCalls(tbl.entries, src);
    assert Statics(tbl.entries) <= Addrs(tbl.entries) by { Views(tbl.entries); }
    tbl.MarkAll();
    tbl.CopyFrom(src);
    ops := SweepTable(tbl);
    KernelNet(Addrs(old(tbl.entries)), ops);
  }

  /** One entry of the sweep of table_update: the kernel call comes before the deletion. */
  method SweepEntry(tbl: AddrQueue, i: nat) returns (ops: seq<KernelOp>, del: bool)
    requires i < |tbl.entries|
    modifies tbl
    ensures var e := old(tbl.entries)[i];
            && ops == EntryOps(e) && del == e.isOld
            && tbl.entries == if del then old(tbl.entries)[..i] + old(tbl.entries)[i + 1..]
                else old(tbl.entries)[i := e.(isNew := false)]
  {
    ops, del := [], false;
    if tbl.entries[i].isNew {
      ops := ops + [TableAdd(tbl.entries[i].addr)];
      tbl.entries := tbl.entries[i := tbl.entries[i].(isNew := false)];
    }
    if tbl.entries[i].isOld {
      ops := ops + [TableDel(tbl.entries[i].addr)];
      del := true;
    }
    if del {
      tbl.entries := tbl.entries[..i] + tbl.entries[i + 1..];
    }
  }

  /** The sweep of table_update. */
  method SweepTable(tbl: AddrQueue) returns (ops: seq<KernelOp>)
    modifies tbl
    ensures tbl.entries == Sweep(old(tbl.entries)) && ops == Ops(old(tbl.entries))
  {
    hide EntryOps;
    var i := 0;
    ops := [];
    ghost var done, rest := [], tbl.entries;
    while i < |tbl.entries|
      invariant i == |done| && tbl.entries == done + rest
      invariant done + Sweep(rest) == Sweep(old(tbl.entries))
      invariant ops + Ops(rest) == Ops(old(tbl.entries))
      decreases |rest|
    {
      ghost var e, tail := rest[0], rest[1..];
      assert rest == [e] + tail;
      AtCursor(done, e, tail, e.(isNew := false));
      var calls, del := SweepEntry(tbl, i);
      assert ops + (calls + Ops(tail)) == (ops + calls) + Ops(tail);
      ops := ops + calls;
      if !del {
        done := done + [e.(isNew := false)];
        i := i + 1;
      }
      rest := tail;
    }
  }

  /** table_cleanup: delete every entry, from the kernel and from the list. */
  method TableCleanup(tbl: AddrQueue) returns (ops: seq<KernelOp>)
    modifies tbl
    ensures tbl.entries == []
    ensures |ops| == |old(tbl.entries)|
    ensures forall i | 0 <= i < |ops| :: ops[i] == TableDel(old(tbl.entries)[i].addr)
    ensures forall k :: Kernel(k, ops) == k - Addrs(old(tbl.entries))
  {
    ops := [];
    while tbl.entries != []
      invariant |ops| <= |old(tbl.entries)| && tbl.entries == old(tbl.entries)[|ops|..]
      invariant forall i | 0 <= i < |ops| :: ops[i] == TableDel(old(tbl.entries)[i].addr)
      decreases |tbl.entries|
    {
      ops := ops + [TableDel(tbl.entries[0].addr)];
      tbl.entries := tbl.entries[1..];
    }
    forall k ensures Kernel(k, ops) == k - Addrs(old(tbl.entries)) {
      DeleteEach(k, old(tbl.entries), ops);
    }
  }

  lemma {:induction false} DeleteEach(k: set<SockAddr>, s: seq<Entry>, ops: seq<KernelOp>)
    requires |ops| == |s| && forall i | 0 <= i < |ops| :: ops[i] == TableDel(s[i].addr)
    ensures Kernel(k, ops) == k - Addrs(s)
    decreases |s|
  {
    if s != [] {
      DeleteEach(k - {s[0].addr}, s[1..], ops[1..]);
    }
  }

  /** A table list that follows its action's list ends with the same addresses, and so does
      the kernel's table. */
  lemma TableFollows(tbl: seq<Entry>, list: seq<Entry>)
    requires NoDup(tbl) && Settled(tbl) && Statics(tbl) <= Statics(list)
    ensures var r := Round(tbl, Items(list));
            && NoDup(r) && Settled(r) && Addrs(r) == Addrs(list) && Statics(r) <= Statics(list)
            && Kernel(Addrs(tbl), Ops(AddAll(Mark(tbl), Items(list)))) == Addrs(r)
  {
    var ops := Ops(AddAll(Mark(tbl), Items(list)));
    ItemsSets(list);
    Views(list);
    RoundSync(tbl, Items(list));
    UpdateNeverDropsKept(tbl, Items(list), |ops|);
    assert ops[..|ops|] == ops;
  }

  /** A round of check_action: bring the action's list to the host's, and the table to the
      list if anything changed. */
  method ActionRound(rnh: AddrQueue, tbl: AddrQueue, host: seq<Item>, hasTable: bool) returns (ops: seq<KernelOp>)
    requires rnh != tbl && NoDup(rnh.entries) && Settled(rnh.entries) && NoDup(tbl.entries) && Settled(tbl.entries)
    requires Statics(tbl.entries) <= Statics(rnh.entries)
    requires hasTable ==> Addrs(tbl.entries) == Addrs(rnh.entries)
    modifies rnh, tbl
    ensures NoDup(rnh.entries) && Settled(rnh.entries) && NoDup(tbl.entries) && Settled(tbl.entries)
    ensures Statics(tbl.entries) <= Statics(rnh.entries)
    ensures Addrs(rnh.entries) == Statics(old(rnh.entries)) + ItemAddrs(host)
    ensures hasTable ==> Addrs(tbl.entries) == Addrs(rnh.entries) == Kernel(Addrs(old(tbl.entries)), ops)
    ensures !hasTable ==> ops == [] && tbl.entries == old(tbl.entries)
  {
    ops := [];
    var update := rnh.Synchronise(host);
    if update > 0 && hasTable {
      TableFollows(tbl.entries, rnh.entries);
      ops := TableUpdate(tbl, Items(rnh.entries));
    }
  }
}
