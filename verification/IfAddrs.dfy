/** Interface addresses: the in-place merge sort by interface name, and the scan that relies
    on it to find the addresses of one interface side by side. */
module IfAddrs {

  /** One element of the list getifaddrs returns. */
  class IfAddr {
    const name: string
    var next: IfAddr?

    constructor (name: string, next: IfAddr?)
      ensures this.name == name && this.next == next
    {
      this.name := name;
      this.next := next;
    }
  }

  // ----- strcmp -----

  function StrCmp(a: string, b: string): int {
    if a == "" && b == "" then 0
    else if a == "" then -1
    else if b == "" then 1
    else if a[0] != b[0] then a[0] as int - b[0] as int
    else StrCmp(a[1..], b[1..])
  }

  lemma {:induction false} StrCmpZero(a: string, b: string)
    ensures StrCmp(a, b) == 0 <==> a == b
  {
    if a != "" && b != "" {
      StrCmpZero(a[1..], b[1..]);
      assert a == [a[0]] + a[1..] && b == [b[0]] + b[1..];
    }
  }

  lemma {:induction false} StrCmpFlip(a: string, b: string)
    ensures StrCmp(a, b) <= 0 || StrCmp(b, a) <= 0
  {
    if a != "" && b != "" && a[0] == b[0] { StrCmpFlip(a[1..], b[1..]); }
  }

  lemma {:induction false} StrCmpTrans(a: string, b: string, c: string)
    requires StrCmp(a, b) <= 0 && StrCmp(b, c) <= 0
    ensures StrCmp(a, c) <= 0
    decreases |a|
  {
    if a != "" && b != "" && c != "" && a[0] == b[0] && b[0] == c[0] { StrCmpTrans(a[1..], b[1..], c[1..]); }
  }

  /** The names agree up to position k, and there the first one ends or has the smaller character. */
  predicate LessAt(a: string, b: string, k: nat) {
    k <= |a| && k <= |b| && a[..k] == b[..k] && (k == |a| || (k < |b| && a[k] < b[k]))
  }

  /** The dictionary order. */
  ghost predicate NotAfter(a: string, b: string) {
    exists k: nat :: LessAt(a, b, k)
  }

  lemma LessAtTail(a: string, b: string, k: nat)
    requires a != "" && b != "" && a[0] == b[0]
    ensures LessAt(a, b, k + 1) <==> LessAt(a[1..], b[1..], k)
    ensures !LessAt(a, b, 0)
  {
    var s, t := a[1..], b[1..];
    if k <= |s| && k <= |t| {
      assert a[..k + 1] == [a[0]] + s[..k] && b[..k + 1] == [b[0]] + t[..k];
      assert s[..k] == a[..k + 1][1..] && t[..k] == b[..k + 1][1..];
    }
  }

  lemma NotAfterTail(a: string, b: string)
    requires a != "" && b != "" && a[0] == b[0]
    ensures NotAfter(a, b) <==> NotAfter(a[1..], b[1..])
  {
    hide LessAt;
    var s, t := a[1..], b[1..];
    if NotAfter(s, t) {
      var k: nat :| LessAt(s, t, k);
      LessAtTail(a, b, k);
    }
    if NotAfter(a, b) {
      var k: nat :| LessAt(a, b, k);
      LessAtTail(a, b, 0);
      LessAtTail(a, b, k - 1);
    }
  }

  lemma NotAfterHead(a: string, b: string)
    requires a != "" && (b == "" || a[0] != b[0])
    ensures NotAfter(a, b) <==> b != "" && a[0] < b[0]
  {
    forall k: nat | 0 < k ensures !LessAt(a, b, k) {
      if k <= |a| && k <= |b| { assert a[..k][0] == a[0] && b[..k][0] == b[0]; }
    }
    assert LessAt(a, b, 0) <==> b != "" && a[0] < b[0];
  }

  lemma {:induction false} StrCmpIsOrder(a: string, b: string)
    ensures StrCmp(a, b) <= 0 <==> NotAfter(a, b)
  {
    if a == "" {
      assert LessAt(a, b, 0);
    } else if b != "" && a[0] == b[0] {
      hide NotAfter;
      StrCmpIsOrder(a[1..], b[1..]);
      NotAfterTail(a, b);
    } else {
      hide NotAfter;
      NotAfterHead(a, b);
    }
  }

  // ----- the sort on sequences -----

  type Nodes = seq<IfAddr>

  /** cmpifaddrs decides; the left list wins ties. */
  function Merged(a: Nodes, b: Nodes): Nodes
    decreases |a| + |b|
  {
    if a == [] then b
    else if b == [] then a
    else if StrCmp(a[0].name, b[0].name) < 1 then [a[0]] + Merged(a[1..], b)
    else [b[0]] + Merged(a, b[1..])
  }

  function Sort(s: Nodes): Nodes
    decreases |s|
  {
    if |s| < 2 then s else Merged(Sort(s[..|s| / 2]), Sort(s[|s| / 2..]))
  }

  /** Every element is at most the later ones. */
  ghost predicate Sorted(s: Nodes) {
    s == [] || ((forall x | x in s[1..] :: StrCmp(s[0].name, x.name) <= 0) && Sorted(s[1..]))
  }

  /** The elements of one name, in order. */
  function Only(s: Nodes, name: string): Nodes {
    if s == [] then [] else if s[0].name == name then [s[0]] + Only(s[1..], name) else Only(s[1..], name)
  }

  lemma {:induction false} MergedIn(a: Nodes, b: Nodes)
    ensures forall x :: x in Merged(a, b) <==> x in a || x in b
    ensures |Merged(a, b)| == |a| + |b|
    decreases |a| + |b|
  {
    if a != [] && b != [] {
      if StrCmp(a[0].name, b[0].name) < 1 {
        MergedIn(a[1..], b);
        assert forall x :: x in a <==> x == a[0] || x in a[1..];
      } else {
        MergedIn(a, b[1..]);
        assert forall x :: x in b <==> x == b[0] || x in b[1..];
      }
    }
  }

  lemma {:induction false} MergedSorted(a: Nodes, b: Nodes)
    requires Sorted(a) && Sorted(b)
    ensures Sorted(Merged(a, b))
    decreases |a| + |b|
  {
    hide StrCmp, Sorted;
    if a != [] && b != [] {
      SortedTails(a, b);
      StrCmpFlip(a[0].name, b[0].name);
      if StrCmp(a[0].name, b[0].name) < 1 {
        MergedSorted(a[1..], b);
        LeastHead(a[0], b);
        BelowMerged(a[0], a[1..], b);
        SortedCons(a[0], Merged(a[1..], b));
      } else {
        MergedSorted(a, b[1..]);
        LeastHead(b[0], a);
        BelowMerged(b[0], a, b[1..]);
        SortedCons(b[0], Merged(a, b[1..]));
      }
    }
  }

  lemma BelowMerged(x: IfAddr, a: Nodes, b: Nodes)
    requires forall y | y in a :: StrCmp(x.name, y.name) <= 0
    requires forall y | y in b :: StrCmp(x.name, y.name) <= 0
    ensures forall y | y in Merged(a, b) :: StrCmp(x.name, y.name) <= 0
  {
    MergedIn(a, b);
  }

  lemma SortedCons(x: IfAddr, s: Nodes)
    requires Sorted(s) && forall y | y in s :: StrCmp(x.name, y.name) <= 0
    ensures Sorted([x] + s)
  {
    assert ([x] + s)[1..] == s;
  }

  lemma LeastHead(x: IfAddr, s: Nodes)
    requires s != [] && Sorted(s) && StrCmp(x.name, s[0].name) <= 0
    ensures forall y | y in s :: StrCmp(x.name, y.name) <= 0
  {
    forall y | y in s ensures StrCmp(x.name, y.name) <= 0 {
      if y != s[0] { StrCmpTrans(x.name, s[0].name, y.name); }
    }
  }

  lemma {:induction false} OnlyAppend(a: Nodes, b: Nodes, name: string)
    ensures Only(a + b, name) == Only(a, name) + Only(b, name)
  {
    if a == [] {
      assert a + b == b;
    } else {
      assert (a + b)[1..] == a[1..] + b;
      OnlyAppend(a[1..], b, name);
    }
  }

  lemma {:induction false} OnlyNone(s: Nodes, name: string)
    requires forall x | x in s :: x.name != name
    ensures Only(s, name) == []
  {
    if s != [] { OnlyNone(s[1..], name); }
  }

  lemma OnlyCons(x: IfAddr, s: Nodes, name: string)
    ensures Only([x] + s, name) == (if x.name == name then [x] else []) + Only(s, name)
  {
    assert ([x] + s)[1..] == s;
  }

  /** Merging keeps the order of equal names: all of the left list first. */
  lemma {:induction false} MergedStable(a: Nodes, b: Nodes, name: string)
    requires Sorted(a) && Sorted(b)
    ensures Only(Merged(a, b), name) == Only(a, name) + Only(b, name)
    decreases |a| + |b|
  {
    hide StrCmp, Sorted, Only;
    SortedTails(a, b);
    if a == [] {
      assert Only([], name) == [] by { OnlyNone([], name); }
    } else if b == [] {
      assert Only([], name) == [] by { OnlyNone([], name); }
    } else if StrCmp(a[0].name, b[0].name) < 1 {
      MergedStable(a[1..], b, name);
      OnlyCons(a[0], Merged(a[1..], b), name);
      OnlyHead(a, name);
    } else {
      MergedStable(a, b[1..], name);
      OnlyCons(b[0], Merged(a, b[1..]), name);
      OnlyHead(b, name);
      if b[0].name == name {
        AllAbove(a, b[0].name);
        assert Only(a, name) == [];
      }
    }
  }

  lemma OnlyHead(s: Nodes, name: string)
    requires s != []
    ensures Only(s, name) == (if s[0].name == name then [s[0]] else []) + Only(s[1..], name)
  {}

  lemma SortedTails(a: Nodes, b: Nodes)
    requires Sorted(a) && Sorted(b)
    ensures a != [] ==> Sorted(a[1..]) && forall x | x in a[1..] :: StrCmp(a[0].name, x.name) <= 0
    ensures b != [] ==> Sorted(b[1..]) && forall x | x in b[1..] :: StrCmp(b[0].name, x.name) <= 0
  {}

  lemma AllAbove(a: Nodes, name: string)
    requires a != [] && Sorted(a) && StrCmp(a[0].name, name) > 0
    ensures Only(a, name) == []
  {
    StrCmpZero(a[0].name, a[0].name);
    LeastHead(a[0], a);
    OnlyNone(a, name);
  }

  /** The sort: an ordered rearrangement that keeps equal names in their original order. */
  lemma {:induction false} SortCorrect(s: Nodes)
    ensures Sorted(Sort(s)) && |Sort(s)| == |s|
    ensures forall name :: Only(Sort(s), name) == Only(s, name)
    decreases |s|
  {
    if |s| >= 2 {
      var l, r := s[..|s| / 2], s[|s| / 2..];
      assert s == l + r;
      SortCorrect(l);
      SortCorrect(r);
      MergedSorted(Sort(l), Sort(r));
      MergedIn(Sort(l), Sort(r));
      forall name ensures Only(Sort(s), name) == Only(s, name) {
        MergedStable(Sort(l), Sort(r), name);
        OnlyAppend(l, r, name);
      }
    }
  }

  lemma {:induction false} SortedAt(s: Nodes, i: nat, j: nat)
    requires Sorted(s) && i < j < |s|
    ensures StrCmp(s[i].name, s[j].name) <= 0
  {
    if i > 0 { SortedAt(s[1..], i - 1, j - 1); } else { assert s[j] == s[1..][j - 1]; }
  }

  /** Any two entries of the sorted list stand in dictionary order. */
  lemma SortIsAlphabetical(s: Nodes, i: nat, j: nat)
    requires i < j < |Sort(s)|
    ensures NotAfter(Sort(s)[i].name, Sort(s)[j].name)
  {
    hide Sort, Sorted, StrCmp;
    SortCorrect(s);
    SortedAt(Sort(s), i, j);
    StrCmpIsOrder(Sort(s)[i].name, Sort(s)[j].name);
  }

  lemma {:induction false} SortIn(s: Nodes)
    ensures forall x :: x in Sort(s) <==> x in s
    decreases |s|
  {
    if |s| >= 2 {
      var l, r := s[..|s| / 2], s[|s| / 2..];
      assert s == l + r;
      SortIn(l);
      SortIn(r);
      MergedIn(Sort(l), Sort(r));
    }
  }

  // ----- linked lists -----

  /** The nodes met on the way from head to end, along the links. */
  ghost predicate Chain(head: IfAddr?, nodes: Nodes, end: IfAddr?)
    reads nodes
  {
    if nodes == [] then head == end else head == nodes[0] && Chain(nodes[0].next, nodes[1..], end)
  }

  ghost predicate Distinct(nodes: Nodes) {
    nodes == [] || (nodes[0] !in nodes[1..] && Distinct(nodes[1..]))
  }

  ghost predicate Disjoint(a: Nodes, b: Nodes) {
    forall x | x in a :: x !in b
  }

  /** The list that starts at head is exactly these nodes. */
  ghost predicate IsList(head: IfAddr?, nodes: Nodes)
    reads nodes
  {
    Chain(head, nodes, null) && Distinct(nodes)
  }

  lemma {:induction false} ChainSplit(head: IfAddr?, nodes: Nodes, end: IfAddr?, k: nat)
    requires Chain(head, nodes, end) && k < |nodes|
    ensures Chain(head, nodes[..k], nodes[k]) && Chain(nodes[k], nodes[k..], end)
  {
    if k > 0 {
      ChainSplit(nodes[0].next, nodes[1..], end, k - 1);
      assert nodes[..k][1..] == nodes[1..][..k - 1];
      assert nodes[k..] == nodes[1..][k - 1..];
    } else {
      assert nodes[0..] == nodes;
    }
  }

  lemma {:induction false} ChainPush(head: IfAddr?, nodes: Nodes, last: IfAddr)
    requires Chain(head, nodes, last)
    ensures Chain(head, nodes + [last], last.next)
  {
    if nodes != [] {
      ChainPush(nodes[0].next, nodes[1..], last);
      assert (nodes + [last])[1..] == nodes[1..] + [last];
    }
  }

  lemma {:induction false} DistinctSplit(a: Nodes, b: Nodes)
    requires Distinct(a + b)
    ensures Distinct(a) && Distinct(b) && Disjoint(a, b)
  {
    if a == [] {
      assert a + b == b;
    } else {
      assert (a + b)[1..] == a[1..] + b;
      DistinctSplit(a[1..], b);
      assert forall x :: x in a <==> x == a[0] || x in a[1..];
    }
  }

  lemma {:induction false} MergedDistinct(a: Nodes, b: Nodes)
    requires Distinct(a) && Distinct(b) && Disjoint(a, b)
    ensures Distinct(Merged(a, b))
    decreases |a| + |b|
  {
    hide StrCmp;
    if a != [] && b != [] {
      if StrCmp(a[0].name, b[0].name) < 1 {
        MergedDistinct(a[1..], b);
        MergedIn(a[1..], b);
        DistinctCons(a[0], Merged(a[1..], b));
      } else {
        MergedDistinct(a, b[1..]);
        MergedIn(a, b[1..]);
        DistinctCons(b[0], Merged(a, b[1..]));
      }
    }
  }

  lemma DistinctCons(x: IfAddr, s: Nodes)
    requires Distinct(s) && x !in s
    ensures Distinct([x] + s)
  {
    assert ([x] + s)[1..] == s;
  }

  /** Walks at single and at double speed to find the node in the middle and the one before it. */
  method FindMiddle(list: IfAddr, ghost nodes: Nodes) returns (last: IfAddr, right: IfAddr?)
    requires Chain(list, nodes, null) && |nodes| >= 2
    ensures last == nodes[|nodes| / 2 - 1] && right == nodes[|nodes| / 2]
  {
    var temp: IfAddr? := list;
    last := list;
    right := list;
    ghost var k: nat := 0;
    while temp != null && temp.next != null
      invariant 2 * k <= |nodes|
      invariant Chain(right, nodes[k..], null) && Chain(temp, nodes[2 * k..], null)
      invariant last == nodes[if k == 0 then 0 else k - 1]
      decreases |nodes| - 2 * k
    {
      last := right;
      right := right.next;
      temp := temp.next.next;
      assert nodes[k..][1..] == nodes[k + 1..];
      assert nodes[2 * k..][1..] == nodes[2 * k + 1..] && nodes[2 * k + 1..][1..] == nodes[2 * (k + 1)..];
      k := k + 1;
    }
  }

  /** Cuts the list in the middle. */
  method Split(list: IfAddr, ghost nodes: Nodes) returns (right: IfAddr?)
    requires IsList(list, nodes) && |nodes| >= 2
    modifies nodes
    ensures IsList(list, nodes[..|nodes| / 2])
    ensures IsList(right, nodes[|nodes| / 2..])
  {
    var last;
    last, right := FindMiddle(list, nodes);
    ghost var k := |nodes| / 2;
    assert Chain(list, nodes[..k - 1], last) by { ChainSplit(list, nodes, null, k - 1); }
    assert Chain(right, nodes[k..], null) by { ChainSplit(list, nodes, null, k); }
    Apart(nodes, k);
    last.next := null;
    ChainPush(list, nodes[..k - 1], last);
    assert nodes[..k] == nodes[..k - 1] + [last];
  }

  /** Around the cut, the two halves share nothing and the last node on the left occurs once. */
  lemma Apart(nodes: Nodes, k: nat)
    requires Distinct(nodes) && 0 < k <= |nodes|
    ensures Distinct(nodes[..k]) && Distinct(nodes[k..]) && Disjoint(nodes[..k], nodes[k..])
    ensures nodes[k - 1] !in nodes[..k - 1] && nodes[k - 1] !in nodes[k..]
  {
    var a, x, b := nodes[..k - 1], nodes[k - 1], nodes[k..];
    assert nodes[..k] == a + [x];
    assert nodes == nodes[..k] + b;
    DistinctSplit(nodes[..k], b);
    DistinctSplit(a, [x]);
    assert x in [x] && x in nodes[..k];
  }

  /** Everything linked so far. */
  ghost function WithTail(done: Nodes, result: IfAddr?, tail: IfAddr?): Nodes {
    if result == null || tail == null then done else done + [tail]
  }

  /** Appends one node: the links of everything else are kept. */
  method Append(result: IfAddr?, tail: IfAddr?, next: IfAddr, ghost done: Nodes, ghost x: Nodes, ghost y: Nodes,
                l: IfAddr?, r: IfAddr?)
    returns (result': IfAddr, tail': IfAddr)
    requires result != null ==> tail != null && Chain(result, done, tail) && tail !in done && tail !in x && tail !in y
    requires result == null ==> done == []
    requires Chain(l, x, null) && Chain(r, y, null) && (next.next == l || next.next == r)
    requires result != null ==> next != tail
    modifies if result == null then {} else {tail}
    ensures tail' == next && (next.next == l || next.next == r)
    ensures Chain(result', WithTail(done, result, tail), next)
    ensures Chain(l, x, null) && Chain(r, y, null)
  {
    result' := next;
    if result != null {
      tail.next := next;
      result' := result;
      ChainPush(result, done, tail);
    }
    tail' := next;
  }

  /** The next node to append is new, and the tail occurs nowhere else. */
  lemma Unused(done: Nodes, result: IfAddr?, tail: IfAddr?, x: Nodes, y: Nodes)
    requires Distinct(WithTail(done, result, tail) + Merged(x, y))
    ensures result != null && tail != null ==> tail !in done && tail !in x && tail !in y
  {
    MergedIn(x, y);
    var all := WithTail(done, result, tail);
    DistinctSplit(all, Merged(x, y));
    if result != null && tail != null {
      assert tail in all;
      DistinctSplit(done, [tail]);
    }
  }

  /** Takes the smaller head, the left one on a tie. */
  method TakeSmaller(l: IfAddr?, r: IfAddr?, ghost x: Nodes, ghost y: Nodes)
    returns (next: IfAddr, l': IfAddr?, r': IfAddr?, ghost x': Nodes, ghost y': Nodes)
    requires (l != null || r != null) && Chain(l, x, null) && Chain(r, y, null)
    ensures Chain(l', x', null) && Chain(r', y', null) && (next.next == l' || next.next == r')
    ensures Merged(x, y) == [next] + Merged(x', y')
    ensures (x' == x && y != [] && y' == y[1..] && next in y) || (y' == y && x != [] && x' == x[1..] && next in x)
  {
    l', r', x', y' := l, r, x, y;
    if r == null {
      next, l', x' := l, l.next, x[1..];
    } else if l == null {
      next, r', y' := r, r.next, y[1..];
    } else if StrCmp(l.name, r.name) < 1 {
      next, l', x' := l, l.next, x[1..];
    } else {
      next, r', y' := r, r.next, y[1..];
    }
  }

  /** Links the smaller of the two heads behind the result until both lists are used up. */
  method Merge(left: IfAddr?, right: IfAddr?, ghost a: Nodes, ghost b: Nodes) returns (result: IfAddr?)
    requires IsList(left, a) && IsList(right, b) && Disjoint(a, b)
    modifies a, b
    ensures IsList(result, Merged(a, b))
  {
    hide StrCmp, Distinct, Merged;
    ghost var m := Merged(a, b);
    MergedDistinct(a, b);
    MergedIn(a, b);
    var l, r := left, right;
    var tail: IfAddr? := null;
    result := null;
    ghost var done, x, y := [], a, b;
    while l != null || r != null
      invariant Chain(l, x, null) && Chain(r, y, null)
      invariant result == null ==> done == []
      invariant result != null ==> tail != null && Chain(result, done, tail) && (tail.next == l || tail.next == r)
      invariant m == WithTail(done, result, tail) + Merged(x, y)
      decreases |x| + |y|
    {
      Unused(done, result, tail, x, y);
      ghost var all := WithTail(done, result, tail);
      var next;
      next, l, r, x, y := TakeSmaller(l, r, x, y);
      assert m == all + [next] + Merged(x, y);
      assert result != null ==> tail in m;
      result, tail := Append(result, tail, next, done, x, y, l, r);
      done := all;
    }
    MergedIn(x, y);
    if result != null {
      ChainPush(result, done, tail);
      assert m == done + [tail];
    }
  }

  /** The recursive merge sort relinks the list into Sort of its nodes. */
  method SortIfaddrs(list: IfAddr?, ghost nodes: Nodes) returns (result: IfAddr?)
    requires IsList(list, nodes)
    modifies nodes
    ensures IsList(result, Sort(nodes))
    decreases |nodes|, 0
  {
    hide StrCmp, Merged, Distinct, Disjoint, Chain, IsList, Sort;
    ChainLength(list, nodes);
    SortHalves(nodes);
    if list == null || list.next == null {
      return list;
    }
    if list.next.next == null {
      result := SortPair(list, nodes);
      return;
    }
    ghost var k := |nodes| / 2;
    ghost var a', b' :| a' == Sort(nodes[..k]) && b' == Sort(nodes[k..]);
    HalvesApart(nodes, nodes[..k], nodes[k..], a', b');
    ghost var a, b := nodes[..k], nodes[k..];
    var right := Split(list, nodes);
    var l := SortBeside(list, a, right, b);
    var r := SortBeside(right, b, l, a');
    assert forall i | 0 <= i < |a'| :: a'[i] in nodes;
    assert forall i | 0 <= i < |b'| :: b'[i] in nodes;
    result := Merge(l, r, a', b');
  }

  /** Sorting one list leaves a list with other nodes as it is. */
  method SortBeside(list: IfAddr?, ghost nodes: Nodes, ghost other: IfAddr?, ghost others: Nodes)
    returns (result: IfAddr?)
    requires IsList(list, nodes) && IsList(other, others) && forall x | x in others :: x !in nodes
    modifies nodes
    ensures IsList(result, Sort(nodes)) && IsList(other, others)
    decreases |nodes|, 1
  {
    assert forall i | 0 <= i < |others| :: others[i] !in nodes;
    result := SortIfaddrs(list, nodes);
  }

  lemma SortHalves(s: Nodes)
    ensures |s| < 2 ==> Sort(s) == s
    ensures |s| >= 2 ==> Sort(s) == Merged(Sort(s[..|s| / 2]), Sort(s[|s| / 2..]))
  {}

  /** Both halves, sorted or not, use nodes of the list and share none. */
  lemma HalvesApart(nodes: Nodes, a: Nodes, b: Nodes, a': Nodes, b': Nodes)
    requires Distinct(nodes) && nodes == a + b && a' == Sort(a) && b' == Sort(b)
    ensures Disjoint(a', b')
    ensures forall x | x in a || x in a' :: x in nodes && x !in b && x !in b'
    ensures forall x | x in b || x in b' :: x in nodes && x !in a && x !in a'
  {
    DistinctSplit(a, b);
    SortIn(a);
    SortIn(b);
  }

  lemma ChainLength(list: IfAddr?, nodes: Nodes)
    requires IsList(list, nodes)
    ensures Distinct(nodes)
    ensures |nodes| == 0 <==> list == null
    ensures |nodes| == 1 <==> list != null && list.next == null
    ensures |nodes| == 2 <==> list != null && list.next != null && list.next.next == null
  {
    assert Chain(list, nodes, null);
    if nodes != [] {
      assert Chain(list.next, nodes[1..], null);
      if nodes[1..] != [] {
        assert Chain(list.next.next, nodes[1..][1..], null);
      }
    }
  }

  /** The case of two nodes: swapped when the first is the greater. */
  method SortPair(list: IfAddr, ghost nodes: Nodes) returns (result: IfAddr)
    requires IsList(list, nodes) && list.next != null && list.next.next == null
    modifies nodes
    ensures IsList(result, Sort(nodes))
  {
    hide StrCmp;
    var other := list.next;
    PairSorted(nodes, list, other);
    result := list;
    if StrCmp(list.name, other.name) > 0 {
      result := other;
      list.next := null;
      result.next := list;
      PairList(result, list);
    }
  }

  lemma PairList(a: IfAddr, b: IfAddr)
    requires a != b && a.next == b && b.next == null
    ensures IsList(a, [a, b])
  {
    assert [a, b][1..] == [b] && [b][1..] == [];
    assert Chain(b, [b], null) && Distinct([b]);
  }

  lemma PairSorted(nodes: Nodes, a: IfAddr, b: IfAddr)
    requires IsList(a, nodes) && a.next == b && b.next == null
    ensures nodes == [a, b] && a != b
    ensures Sort(nodes) == if StrCmp(a.name, b.name) > 0 then [b, a] else [a, b]
  {
    hide StrCmp;
    ChainLength(a, nodes);
    assert Chain(b, nodes[1..], null);
    assert nodes == [a, b];
    assert nodes[1..] == [b];
    assert nodes[..1] == [a];
    assert Merged([a], [b]) == if StrCmp(a.name, b.name) > 0 then [b] + Merged([a], []) else [a] + Merged([], [b]);
  }

  // ----- the scan for one interface -----

  function Run(s: Nodes, name: string): Nodes {
    if s == [] || s[0].name != name then [] else [s[0]] + Run(s[1..], name)
  }

  /** What stopping at the first change of name collects. */
  function FirstRun(s: Nodes, name: string): Nodes {
    if s == [] || s[0].name == name then Run(s, name) else FirstRun(s[1..], name)
  }

  lemma {:induction false} StrCmpAnti(a: string, b: string)
    requires StrCmp(a, b) <= 0 && StrCmp(b, a) <= 0
    ensures a == b
  {
    if a != "" && b != "" {
      StrCmpAnti(a[1..], b[1..]);
      assert a == [a[0]] + a[1..] && b == [b[0]] + b[1..];
    }
  }

  lemma {:induction false} RunIsAll(s: Nodes, name: string)
    requires Sorted(s) && forall x | x in s :: StrCmp(name, x.name) <= 0
    ensures Run(s, name) == Only(s, name)
  {
    hide StrCmp;
    if s != [] {
      if s[0].name == name {
        RunIsAll(s[1..], name);
      } else {
        forall x | x in s ensures x.name != name {
          if x.name == name && x != s[0] { StrCmpAnti(name, s[0].name); }
        }
        OnlyNone(s, name);
      }
    }
  }

  /** On a sorted list the scan misses nothing. */
  lemma {:induction false} FirstRunIsAll(s: Nodes, name: string)
    requires Sorted(s)
    ensures FirstRun(s, name) == Only(s, name)
  {
    hide StrCmp;
    if s != [] {
      if s[0].name == name { RunIsAll(s, name) by { StrCmpZero(name, name); } } else { FirstRunIsAll(s[1..], name); }
    }
  }

  /** Skips to the first entry of the interface. */
  method FindFirst(list: IfAddr?, ifname: string, ghost nodes: Nodes) returns (mb: IfAddr?, ghost rest: Nodes)
    requires Chain(list, nodes, null)
    ensures Chain(mb, rest, null)
    ensures Run(rest, ifname) == FirstRun(nodes, ifname)
  {
    mb := list;
    rest := nodes;
    while mb != null
      invariant Chain(mb, rest, null)
      invariant FirstRun(rest, ifname) == FirstRun(nodes, ifname)
      decreases |rest|
    {
      if |ifname| == |mb.name| && ifname == mb.name { return; }
      mb, rest := mb.next, rest[1..];
    }
  }

  /** Goes on from there until the name changes. */
  method Scan(list: IfAddr?, ifname: string, ghost nodes: Nodes) returns (visited: Nodes)
    requires Chain(list, nodes, null)
    ensures visited == FirstRun(nodes, ifname)
  {
    hide FirstRun;
    var mb;
    ghost var rest;
    mb, rest := FindFirst(list, ifname, nodes);
    visited := [];
    while mb != null
      invariant Chain(mb, rest, null)
      invariant visited + Run(rest, ifname) == FirstRun(nodes, ifname)
      decreases |rest|
    {
      if ifname != mb.name { break; }
      assert visited + Run(rest, ifname) == visited + [mb] + Run(rest[1..], ifname);
      visited := visited + [mb];
      mb, rest := mb.next, rest[1..];
    }
  }

  /** Sorting and scanning visits exactly the entries of the interface, in their original order. */
  method InterfaceAddresses(ifdata: IfAddr?, ifname: string, ghost nodes: Nodes) returns (visited: Nodes)
    requires IsList(ifdata, nodes)
    modifies nodes
    ensures visited == Only(nodes, ifname)
  {
    SortCorrect(nodes);
    var sifdata := SortIfaddrs(ifdata, nodes);
    visited := Scan(sifdata, ifname, Sort(nodes));
    FirstRunIsAll(Sort(nodes), ifname);
  }
}
