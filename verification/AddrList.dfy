/** Address lists of filterdns: a set of addresses kept as a tail queue, synchronised by
    marking every entry old, re-adding the wanted addresses and sweeping what is still old. */
module AddrList {

  /** A socket address: `sa_family` and the bytes after it (`sa_len` is their number). */
  datatype SockAddr = SockAddr(family: int, data: seq<bv8>)

  /** One queue entry; the flag word ADDR_NEW | ADDR_OLD | ADDR_STATIC as three booleans. */
  datatype Entry = Entry(addr: SockAddr, isNew: bool, isOld: bool, isStatic: bool)

  /** What a copy loop reads of a source entry. */
  datatype Item = Item(addr: SockAddr, isStatic: bool)

  // ----- views of a queue -----

  ghost function Addrs(s: seq<Entry>): set<SockAddr> {
    if s == [] then {} else {s[0].addr} + Addrs(s[1..])
  }

  ghost function Statics(s: seq<Entry>): set<SockAddr> {
    if s == [] then {} else (if s[0].isStatic then {s[0].addr} else {}) + Statics(s[1..])
  }

  /** The addresses that a sweep keeps. */
  ghost function Kept(s: seq<Entry>): set<SockAddr> {
    if s == [] then {} else (if s[0].isOld then {} else {s[0].addr}) + Kept(s[1..])
  }

  ghost function Fresh(s: seq<Entry>): set<SockAddr> {
    if s == [] then {} else (if s[0].isNew then {s[0].addr} else {}) + Fresh(s[1..])
  }

  ghost predicate NoDup(s: seq<Entry>) {
    s == [] || (s[0].addr !in Addrs(s[1..]) && NoDup(s[1..]))
  }

  /** No entry is marked new or old: the state between two rounds. */
  ghost predicate Settled(s: seq<Entry>) {
    s == [] || (!s[0].isNew && !s[0].isOld && Settled(s[1..]))
  }

  /** Between rounds only a static entry may still wait for its first sweep. */
  ghost predicate Calm(s: seq<Entry>) {
    s == [] || (!s[0].isOld && (s[0].isNew ==> s[0].isStatic) && Calm(s[1..]))
  }

  /** Only entries that are neither new nor static are ever marked old. */
  ghost predicate Exclusive(s: seq<Entry>) {
    s == [] || ((s[0].isOld ==> !s[0].isNew && !s[0].isStatic) && Exclusive(s[1..]))
  }

  ghost function ItemAddrs(src: seq<Item>): set<SockAddr> {
    if src == [] then {} else {src[0].addr} + ItemAddrs(src[1..])
  }

  ghost function StaticItems(src: seq<Item>): set<SockAddr> {
    if src == [] then {} else (if src[0].isStatic then {src[0].addr} else {}) + StaticItems(src[1..])
  }

  function Items(s: seq<Entry>): seq<Item> {
    if s == [] then [] else [Item(s[0].addr, s[0].isStatic)] + Items(s[1..])
  }

  lemma ItemsSets(s: seq<Entry>)
    ensures ItemAddrs(Items(s)) == Addrs(s) && StaticItems(Items(s)) == Statics(s) && |Items(s)| == |s|
  {}

  lemma {:induction false} Views(s: seq<Entry>)
    ensures Statics(s) <= Addrs(s) && Kept(s) <= Addrs(s) && Fresh(s) <= Addrs(s)
    ensures Exclusive(s) ==> Statics(s) <= Kept(s) && Fresh(s) <= Kept(s)
    ensures Settled(s) ==> Fresh(s) == {} && Calm(s)
    ensures Calm(s) ==> Kept(s) == Addrs(s) && Exclusive(s)
  {
    if s != [] { Views(s[1..]); }
  }

  lemma {:induction false} IndexIn(s: seq<Entry>, i: nat)
    requires i < |s|
    ensures s[i].addr in Addrs(s) && (s[i].isNew ==> s[i].addr in Fresh(s))
    ensures s[i].isStatic ==> s[i].addr in Statics(s)
  {
    if i > 0 { IndexIn(s[1..], i - 1); }
  }

  lemma {:induction false} Append(x: seq<Entry>, y: seq<Entry>)
    ensures Addrs(x + y) == Addrs(x) + Addrs(y) && Statics(x + y) == Statics(x) + Statics(y)
    ensures Kept(x + y) == Kept(x) + Kept(y) && Fresh(x + y) == Fresh(x) + Fresh(y)
  {
    if x == [] {
      assert x + y == y;
    } else {
      assert (x + y)[1..] == x[1..] + y;
      Append(x[1..], y);
    }
  }

  lemma {:induction false} AppendNoDup(x: seq<Entry>, y: seq<Entry>)
    ensures NoDup(x + y) <==> NoDup(x) && NoDup(y) && Addrs(x) !! Addrs(y)
  {
    if x == [] {
      assert x + y == y;
    } else {
      assert (x + y)[1..] == x[1..] + y;
      assert Addrs(x[1..] + y) == Addrs(x[1..]) + Addrs(y) by { Append(x[1..], y); }
      AppendNoDup(x[1..], y);
    }
  }

  lemma AppendMarks(x: seq<Entry>, y: seq<Entry>)
    ensures Exclusive(x + y) <==> Exclusive(x) && Exclusive(y)
    ensures Settled(x + y) <==> Settled(x) && Settled(y)
    ensures Items(x + y) == Items(x) + Items(y)
  {
    AppendExclusive(x, y);
    AppendItems(x, y);
  }

  lemma {:induction false} AppendExclusive(x: seq<Entry>, y: seq<Entry>)
    ensures Exclusive(x + y) <==> Exclusive(x) && Exclusive(y)
    ensures Settled(x + y) <==> Settled(x) && Settled(y)
  {
    if x == [] {
      assert x + y == y;
    } else {
      assert (x + y)[0] == x[0] && (x + y)[1..] == x[1..] + y;
      AppendExclusive(x[1..], y);
    }
  }

  lemma {:induction false} AppendItems(x: seq<Entry>, y: seq<Entry>)
    ensures Items(x + y) == Items(x) + Items(y)
  {
    if x == [] {
      assert x + y == y;
    } else {
      assert (x + y)[0] == x[0] && (x + y)[1..] == x[1..] + y;
      AppendItems(x[1..], y);
    }
  }

  // ----- the three phases as functions -----

  function Unmark(s: seq<Entry>, a: SockAddr): seq<Entry> {
    if s == [] then []
    else if s[0].addr == a then [s[0].(isOld := false)] + s[1..]
    else [s[0]] + Unmark(s[1..], a)
  }

  predicate Has(s: seq<Entry>, a: SockAddr) {
    s != [] && (s[0].addr == a || Has(s[1..], a))
  }

  /** addr_add: un-mark an entry that is there, or put a new one at the head. */
  function Add(s: seq<Entry>, x: Item): seq<Entry> {
    if Has(s, x.addr) then Unmark(s, x.addr) else [Entry(x.addr, true, false, x.isStatic)] + s
  }

  function AddAll(s: seq<Entry>, src: seq<Item>): seq<Entry>
    decreases |src|
  {
    if src == [] then s else AddAll(Add(s, src[0]), src[1..])
  }

  function Mark(s: seq<Entry>): seq<Entry> {
    if s == [] then []
    else [if s[0].isStatic then s[0] else s[0].(isOld := true)] + Mark(s[1..])
  }

  /** The entries left by a sweep. */
  function Sweep(s: seq<Entry>): seq<Entry> {
    if s == [] then []
    else if s[0].isOld then Sweep(s[1..])
    else [s[0].(isNew := false)] + Sweep(s[1..])
  }

  /** The `update` counter of a sweep. */
  function Updates(s: seq<Entry>): nat {
    if s == [] then 0
    else (if s[0].isNew then 1 else 0) + (if s[0].isOld then 1 else 0) + Updates(s[1..])
  }

  function Round(s: seq<Entry>, src: seq<Item>): seq<Entry> {
    Sweep(AddAll(Mark(s), src))
  }

  // ----- what each phase does to the sets -----

  lemma {:induction false} MarkSets(s: seq<Entry>)
    requires NoDup(s) && Calm(s)
    ensures NoDup(Mark(s)) && Exclusive(Mark(s)) && Addrs(Mark(s)) == Addrs(s)
    ensures Statics(Mark(s)) == Statics(s) && Kept(Mark(s)) == Statics(s) && Fresh(Mark(s)) == Fresh(s)
  {
    if s != [] { MarkSets(s[1..]); }
  }

  lemma MarkSettled(s: seq<Entry>)
    requires NoDup(s) && Settled(s)
    ensures NoDup(Mark(s)) && Exclusive(Mark(s)) && Addrs(Mark(s)) == Addrs(s)
    ensures Statics(Mark(s)) == Statics(s) && Kept(Mark(s)) == Statics(s) && Fresh(Mark(s)) == {}
  {
    Views(s);
    MarkSets(s);
  }

  /** Flag changes leave what a copy loop reads alone. */
  lemma {:induction false} ItemsKept(s: seq<Entry>, a: SockAddr)
    ensures Items(Mark(s)) == Items(s) && Items(Unmark(s, a)) == Items(s)
  {
    if s != [] { ItemsKept(s[1..], a); }
  }

  lemma {:induction false} HasIff(s: seq<Entry>, a: SockAddr)
    ensures Has(s, a) <==> a in Addrs(s)
  {
    if s != [] { HasIff(s[1..], a); }
  }

  lemma {:induction false} UnmarkSets(s: seq<Entry>, a: SockAddr)
    requires NoDup(s) && Exclusive(s) && a in Addrs(s)
    ensures NoDup(Unmark(s, a)) && Exclusive(Unmark(s, a)) && Addrs(Unmark(s, a)) == Addrs(s)
    ensures Statics(Unmark(s, a)) == Statics(s) && Fresh(Unmark(s, a)) == Fresh(s)
    ensures Kept(Unmark(s, a)) == Kept(s) + {a}
  {
    if s[0].addr != a { UnmarkSets(s[1..], a); }
  }

  /** Adding an address keeps the list free of duplicates and un-marks just that address. */
  lemma AddSets(s: seq<Entry>, x: Item)
    requires NoDup(s) && Exclusive(s)
    ensures NoDup(Add(s, x)) && Exclusive(Add(s, x))
    ensures Addrs(Add(s, x)) == Addrs(s) + {x.addr} && Kept(Add(s, x)) == Kept(s) + {x.addr}
    ensures x.addr in Addrs(s) ==> Fresh(Add(s, x)) == Fresh(s) && Statics(Add(s, x)) == Statics(s)
    ensures x.addr !in Addrs(s) ==> Fresh(Add(s, x)) == Fresh(s) + {x.addr}
    ensures x.addr !in Addrs(s) ==> Statics(Add(s, x)) == Statics(s) + (if x.isStatic then {x.addr} else {})
  {
    HasIff(s, x.addr);
    if x.addr in Addrs(s) {
      UnmarkSets(s, x.addr);
    } else {
      assert Add(s, x)[1..] == s;
    }
  }

  lemma {:induction false} AddAllSets(s: seq<Entry>, src: seq<Item>)
    requires NoDup(s) && Exclusive(s)
    ensures NoDup(AddAll(s, src)) && Exclusive(AddAll(s, src))
    ensures Addrs(AddAll(s, src)) == Addrs(s) + ItemAddrs(src)
    ensures Kept(AddAll(s, src)) == Kept(s) + ItemAddrs(src)
    decreases |src|
  {
    if src != [] {
      AddSets(s, src[0]);
      AddAllSets(Add(s, src[0]), src[1..]);
    }
  }

  lemma {:induction false} AddAllFresh(s: seq<Entry>, src: seq<Item>)
    requires NoDup(s) && Exclusive(s)
    ensures Fresh(AddAll(s, src)) == Fresh(s) + (ItemAddrs(src) - Addrs(s))
    decreases |src|
  {
    if src != [] {
      AddSets(s, src[0]);
      AddAllFresh(Add(s, src[0]), src[1..]);
    }
  }

  lemma {:induction false} AddAllStatics(s: seq<Entry>, src: seq<Item>)
    requires NoDup(s) && Exclusive(s)
    ensures Statics(s) <= Statics(AddAll(s, src)) <= Statics(s) + StaticItems(src)
    decreases |src|
  {
    if src != [] {
      AddSets(s, src[0]);
      AddAllStatics(Add(s, src[0]), src[1..]);
    }
  }

  /** A sweep keeps exactly the unmarked addresses, all settled. */
  lemma {:induction false} SweepSets(s: seq<Entry>)
    requires NoDup(s) && Exclusive(s)
    ensures NoDup(Sweep(s)) && Settled(Sweep(s))
    ensures Addrs(Sweep(s)) == Kept(s) && Statics(Sweep(s)) == Statics(s)
  {
    if s != [] {
      Views(s[1..]);
      SweepSets(s[1..]);
    }
  }

  /** The update counter of a sweep: entries that came plus entries that go. */
  lemma {:induction false} SweepCount(s: seq<Entry>)
    requires NoDup(s) && Exclusive(s)
    ensures Updates(s) == |Fresh(s)| + |Addrs(s) - Kept(s)|
  {
    if s != [] {
      var t := s[1..];
      Views(t);
      SweepCount(t);
      ConsDifference(s[0].addr, Addrs(t), Kept(t), Fresh(t));
    }
  }

  lemma ConsDifference<T>(x: T, a: set<T>, k: set<T>, f: set<T>)
    requires x !in a && k <= a && f <= a
    ensures ({x} + a) - k == {x} + (a - k) && ({x} + a) - ({x} + k) == a - k
    ensures |({x} + a) - k| == 1 + |a - k| && |{x} + f| == 1 + |f|
  {}

  /** One mark-copy-sweep round turns the list into the wanted set plus its own static
      addresses, whatever the order and the repetitions of the source. */
  lemma RoundSync(s: seq<Entry>, src: seq<Item>)
    requires NoDup(s) && Settled(s)
    ensures NoDup(Round(s, src)) && Settled(Round(s, src))
    ensures Addrs(Round(s, src)) == Statics(s) + ItemAddrs(src)
    ensures Statics(s) <= Statics(Round(s, src)) <= Statics(s) + StaticItems(src)
  {
    MarkSettled(s);
    RoundMarks(s, src);
    AddAllStatics(Mark(s), src);
    SweepSets(AddAll(Mark(s), src));
  }

  /** The update counter of a round is the size of the symmetric difference: it is zero
      exactly when the set did not change. */
  lemma RoundUpdates(s: seq<Entry>, src: seq<Item>)
    requires NoDup(s) && Settled(s)
    ensures Updates(AddAll(Mark(s), src)) == |Addrs(Round(s, src)) - Addrs(s)| + |Addrs(s) - Addrs(Round(s, src))|
    ensures Updates(AddAll(Mark(s), src)) == 0 <==> Addrs(Round(s, src)) == Addrs(s)
  {
    RoundMarks(s, src);
    RoundSync(s, src);
    RoundCount(AddAll(Mark(s), src), Addrs(s), ItemAddrs(src), Statics(s));
  }

  /** The list between the copying and the sweeping of a round. */
  lemma RoundMarks(s: seq<Entry>, src: seq<Item>)
    requires NoDup(s) && Settled(s)
    ensures NoDup(AddAll(Mark(s), src)) && Exclusive(AddAll(Mark(s), src)) && Statics(s) <= Addrs(s)
    ensures Addrs(AddAll(Mark(s), src)) == Addrs(s) + ItemAddrs(src)
    ensures Kept(AddAll(Mark(s), src)) == Statics(s) + ItemAddrs(src)
    ensures Fresh(AddAll(Mark(s), src)) == ItemAddrs(src) - Addrs(s)
  {
    MarkSettled(s);
    AddAllSets(Mark(s), src);
    AddAllFresh(Mark(s), src);
    Views(s);
  }

  lemma RoundCount(m: seq<Entry>, a: set<SockAddr>, w: set<SockAddr>, st: set<SockAddr>)
    requires NoDup(m) && Exclusive(m)
    requires Addrs(m) == a + w && Fresh(m) == w - a && Kept(m) == st + w && st <= a
    ensures Updates(m) == |(st + w) - a| + |a - (st + w)|
    ensures Updates(m) == 0 <==> st + w == a
  {
    SweepCount(m);
    Difference(a, w, st, Addrs(m) - Kept(m), Fresh(m));
  }

  lemma Difference<T>(a: set<T>, w: set<T>, s: set<T>, gone: set<T>, came: set<T>)
    requires s <= a && gone == (a + w) - (s + w) && came == w - a
    ensures came == (s + w) - a && gone == a - (s + w)
    ensures |came| + |gone| == 0 <==> s + w == a
  {
    if |came| + |gone| == 0 {
      assert came == {} && gone == {};
      assert forall x | x in s + w :: x in a;
    }
  }

  // ----- the loops -----

  /** Reading, replacing and unlinking the entry under a cursor. */
  lemma AtCursor<T>(done: seq<T>, x: T, rest: seq<T>, y: T)
    ensures var s := done + ([x] + rest);
            && s[|done|] == x && s[|done| := y] == done + ([y] + rest)
            && s[..|done|] + s[|done| + 1..] == done + rest
    ensures forall tail: seq<T> :: done + ([y] + tail) == (done + [y]) + tail
  {
    forall tail: seq<T> ensures done + ([y] + tail) == (done + [y]) + tail {}
  }

  lemma {:induction false} UnmarkAt(s: seq<Entry>, i: nat, a: SockAddr)
    requires i < |s| && s[i].addr == a && forall k | 0 <= k < i :: s[k].addr != a
    ensures Has(s, a) && Unmark(s, a) == s[i := s[i].(isOld := false)]
  {
    if i > 0 {
      var rest := s[1..];
      assert forall k | 0 <= k < i - 1 :: rest[k] == s[k + 1];
      UnmarkAt(rest, i - 1, a);
      UpdateTail(s, i, s[i].(isOld := false));
    } else {
      UpdateHead(s, s[0].(isOld := false));
    }
  }

  lemma UpdateTail<T>(s: seq<T>, i: nat, y: T)
    requires 0 < i < |s|
    ensures s[i := y] == [s[0]] + s[1..][i - 1 := y]
  {}

  lemma UpdateHead<T>(s: seq<T>, y: T)
    requires s != []
    ensures s[0 := y] == [y] + s[1..]
  {}

  lemma {:induction false} HasNot(s: seq<Entry>, a: SockAddr)
    requires forall k | 0 <= k < |s| :: s[k].addr != a
    ensures !Has(s, a)
  {
    if s != [] { HasNot(s[1..], a); }
  }

  /** addr_list: the queue an entity owns. */
  class AddrQueue {
    var entries: seq<Entry>

    constructor ()
      ensures entries == []
    {
      entries := [];
    }

    /** addr_add: walk the queue, un-mark the entry found or insert a new head. */
    method AddrAdd(x: Item)
      modifies this
      ensures entries == Add(old(entries), x)
    {
      var i := 0;
      while i < |entries|
        invariant 0 <= i <= |entries|
        invariant entries == old(entries)
        invariant forall k | 0 <= k < i :: entries[k].addr != x.addr
      {
        if entries[i].addr.family == x.addr.family &&
           |entries[i].addr.data| == |x.addr.data| && entries[i].addr.data == x.addr.data {
          UnmarkAt(entries, i, x.addr);
          entries := entries[i := entries[i].(isOld := false)];
          return;
        }
        i := i + 1;
      }
      HasNot(entries, x.addr);
      entries := [Entry(x.addr, true, false, x.isStatic)] + entries;
    }

    /** The marking loop that opens a round. */
    method MarkAll()
      modifies this
      ensures entries == Mark(old(entries))
    {
      var i := 0;
      ghost var done, rest := [], entries;
      while i < |entries|
        invariant i == |done| && entries == done + rest
        invariant done + Mark(rest) == Mark(old(entries))
        decreases |rest|
      {
        ghost var e, tail := rest[0], rest[1..];
        ghost var e' := if e.isStatic then e else e.(isOld := true);
        assert rest == [e] + tail;
        AtCursor(done, e, tail, e');
        if !entries[i].isStatic {
          entries := entries[i := entries[i].(isOld := true)];
        }
        done, rest := done + [e'], tail;
        i := i + 1;
      }
    }

    /** The copying loop of a round. */
    method CopyFrom(src: seq<Item>)
      modifies this
      ensures entries == AddAll(old(entries), src)
    {
      for k := 0 to |src|
        invariant AddAll(entries, src[k..]) == AddAll(old(entries), src)
      {
        assert src[k..][1..] == src[k + 1..];
        AddrAdd(src[k]);
      }
    }

    /** The sweeping loop of check_hostname and check_action: clear the new marks, delete
        what is still old, count both. */
    method SweepOld() returns (update: nat)
      modifies this
      ensures entries == Sweep(old(entries)) && update == Updates(old(entries))
    {
      var i := 0;
      update := 0;
      ghost var done, rest := [], entries;
      while i < |entries|
        invariant i == |done| && entries == done + rest
        invariant done + Sweep(rest) == Sweep(old(entries))
        invariant update + Updates(rest) == Updates(old(entries))
        decreases |rest|
      {
        ghost var e, tail := rest[0], rest[1..];
        ghost var e' := e.(isNew := false);
        assert rest == [e] + tail;
        AtCursor(done, e, tail, e');
        AtCursor(done, e', tail, e');
        if entries[i].isNew {
          entries := entries[i := entries[i].(isNew := false)];
          update := update + 1;
        }
        if entries[i].isOld {
          entries := entries[..i] + entries[i + 1..];
          update := update + 1;
        } else {
          done := done + [e'];
          i := i + 1;
        }
        rest := tail;
      }
    }

    /** A whole round: check_hostname's with the resolver's answer, check_action's with the
        host's list. */
    method Synchronise(src: seq<Item>) returns (update: nat)
      requires NoDup(entries) && Settled(entries)
      modifies this
      ensures NoDup(entries) && Settled(entries)
      ensures Addrs(entries) == Statics(old(entries)) + ItemAddrs(src)
      ensures Statics(old(entries)) <= Statics(entries) <= Statics(old(entries)) + StaticItems(src)
      ensures entries == Round(old(entries), src)
      ensures update == 0 <==> Addrs(entries) == Addrs(old(entries))
    {
      RoundSync(entries, src);
      RoundUpdates(entries, src);
      MarkAll();
      CopyFrom(src);
      update := SweepOld();
    }
  }
}
