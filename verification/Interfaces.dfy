/** Which network device plays which role: cloud metadata names devices, the operator may
    pin roles, and the rest is filled up in order. */
module Interfaces {
  import opened Ascii
  import opened Wrappers

  /** wan, lan, opt1, opt2, ... */
  datatype Role = Wan | Lan | Opt(index: nat)

  datatype Device = Device(name: string, mac: string)

  datatype Address = Address(text: string, v6: bool)

  datatype Settings = Settings(dhcp4: bool, addresses: seq<Address>, gateway4: Option<string>,
                               gateway6: Option<string>, dns: seq<string>)

  /** An interface as the metadata describes it; a missing key is None. */
  datatype Meta = Meta(name: Option<string>, mac: Option<string>, defaultRoute: bool, settings: Settings)

  /** A metadata interface tied to a device. */
  datatype Item = Item(device: string, meta: Meta)

  /** A pinned role; None when the text is not a role name. */
  datatype Mapping = Mapping(pattern: string, role: Option<Role>)

  datatype Error =
    | DifferentDevices | NotPresent | SameDevice
    | InvalidRole | AmbiguousMapping | DuplicateMapping | ManyDefaultRoutes

  datatype Assigned = Assigned(role: Role, item: Item)

  // ----- metadata interfaces and devices -----

  predicate HasName(detected: seq<Device>, name: string) {
    detected != [] && (detected[0].name == name || HasName(detected[1..], name))
  }

  /** A dictionary keyed by MAC keeps the last device of each key. */
  function NameByMac(detected: seq<Device>, mac: string): Option<string> {
    if detected == [] then None
    else match NameByMac(detected[1..], mac)
      case Some(n) => Some(n)
      case None => if Folded(detected[0].mac) == mac then Some(detected[0].name) else None
  }

  function DeviceOf(m: Meta, detected: seq<Device>): Result<string, Error> {
    var byName := if m.name.Some? && HasName(detected, m.name.value) then m.name else None;
    var byMac := if m.mac.Some? then NameByMac(detected, m.mac.value) else None;
    if byName.Some? && byMac.Some? && byName != byMac then Err(DifferentDevices)
    else if byName.Some? then Ok(byName.value)
    else if byMac.Some? then Ok(byMac.value)
    else Err(NotPresent)
  }

  function Tied(metas: seq<Meta>, detected: seq<Device>, used: set<string>): Result<seq<Item>, Error>
    decreases |metas|
  {
    if metas == [] then Ok([])
    else match DeviceOf(metas[0], detected)
      case Err(e) => Err(e)
      case Ok(d) =>
        if d in used then Err(SameDevice)
        else match Tied(metas[1..], detected, used + {d})
          case Err(e) => Err(e)
          case Ok(rest) => Ok([Item(d, metas[0])] + rest)
  }

  /** Without metadata every detected device is used; the first one by DHCP. */
  function Default(detected: seq<Device>, first: bool): seq<Item> {
    if detected == [] then []
    else
      var d := detected[0];
      var mac := if d.mac == "" then None else Some(Folded(d.mac));
      [Item(d.name, Meta(Some(d.name), mac, false, Settings(first, [], None, None, [])))]
          + Default(detected[1..], false)
  }

  function Resolved(metas: seq<Meta>, detected: seq<Device>): Result<seq<Item>, Error> {
    if metas == [] then Ok(Default(detected, true)) else Tied(metas, detected, {})
  }

  // ----- pinned roles -----

  /** A missing name or MAC reads as the text of Python's None. */
  function TextOf(o: Option<string>): string {
    match o
    case Some(s) => Folded(s)
    case None => "none"
  }

  predicate Fits(item: Item, pattern: string) {
    Folded(pattern) == Folded(item.device) || Folded(pattern) == TextOf(item.meta.name)
        || Folded(pattern) == TextOf(item.meta.mac)
  }

  function Fitting(items: seq<Item>, pattern: string): seq<Item> {
    if items == [] then []
    else if Fits(items[0], pattern) then [items[0]] + Fitting(items[1..], pattern)
    else Fitting(items[1..], pattern)
  }

  type Roles = map<string, Role>

  function Pinned(mappings: seq<Mapping>, items: seq<Item>, roles: Roles): Result<Roles, Error>
    decreases |mappings|
  {
    if mappings == [] then Ok(roles)
    else if mappings[0].role.None? then Err(InvalidRole)
    else
      var fits := Fitting(items, mappings[0].pattern);
      if |fits| != 1 then Err(AmbiguousMapping)
      else if mappings[0].role.value in roles.Values || fits[0].device in roles then Err(DuplicateMapping)
      else Pinned(mappings[1..], items, roles[fits[0].device := mappings[0].role.value])
  }

  // ----- filling up -----

  function Unpinned(items: seq<Item>, roles: Roles): seq<Item> {
    if items == [] then []
    else if items[0].device in roles then Unpinned(items[1..], roles)
    else [items[0]] + Unpinned(items[1..], roles)
  }

  function Routed(items: seq<Item>): seq<Item> {
    if items == [] then []
    else if items[0].meta.defaultRoute then [items[0]] + Routed(items[1..])
    else Routed(items[1..])
  }

  function Remove(items: seq<Item>, x: Item): seq<Item> {
    if items == [] then [] else if items[0] == x then items[1..] else [items[0]] + Remove(items[1..], x)
  }

  ghost function OptsFrom(taken: set<Role>, i: nat): set<Role> {
    set r | r in taken && r.Opt? && r.index >= i
  }

  /** The least index from `i` on that is free; the search ends because the set is finite. */
  function LeastFree(taken: set<Role>, i: nat): (n: nat)
    ensures n >= i && Opt(n) !in taken && forall j | i <= j < n :: Opt(j) in taken
    decreases OptsFrom(taken, i)
  {
    if Opt(i) in taken then
      assert Opt(i) in OptsFrom(taken, i) && Opt(i) !in OptsFrom(taken, i + 1);
      LeastFree(taken, i + 1)
    else i
  }

  function NextRole(taken: set<Role>): (r: Role)
    ensures r !in taken
  {
    if Lan !in taken then Lan else Opt(LeastFree(taken, 1))
  }

  datatype Filling = Filling(roles: Roles, taken: set<Role>)

  function Filled(items: seq<Item>, f: Filling): Filling
    decreases |items|
  {
    if items == [] then f
    else
      var r := NextRole(f.taken);
      Filled(items[1..], Filling(f.roles[items[0].device := r], f.taken + {r}))
  }

  /** The device that becomes WAN when none is pinned to it. */
  function WanChoice(rest: seq<Item>): Result<Item, Error>
    requires rest != []
  {
    var d := Routed(rest);
    if |d| > 1 then Err(ManyDefaultRoutes) else if |d| == 1 then Ok(d[0]) else Ok(rest[0])
  }

  function AllRoles(items: seq<Item>, pinned: Roles): Result<Roles, Error> {
    var rest := Unpinned(items, pinned);
    if Wan in pinned.Values || rest == [] then Ok(Filled(rest, Filling(pinned, pinned.Values)).roles)
    else match WanChoice(rest)
      case Err(e) => Err(e)
      case Ok(w) => Ok(Filled(Remove(rest, w), Filling(pinned[w.device := Wan], pinned.Values + {Wan})).roles)
  }

  function Answer(items: seq<Item>, roles: Roles): seq<Assigned> {
    if items == [] then []
    else
      [Assigned(if items[0].device in roles then roles[items[0].device] else Wan, items[0])]
      + Answer(items[1..], roles)
  }

  /** resolve_interfaces. */
  function Resolve(metas: seq<Meta>, detected: seq<Device>, mappings: seq<Mapping>): Result<seq<Assigned>, Error> {
    match Resolved(metas, detected)
    case Err(e) => Err(e)
    case Ok(items) =>
      match Pinned(mappings, items, map[])
      case Err(e) => Err(e)
      case Ok(pinned) =>
        match AllRoles(items, pinned)
        case Err(e) => Err(e)
        case Ok(roles) => Ok(Answer(items, roles))
  }

  // ----- what an assignment guarantees -----

  ghost predicate Injective(roles: Roles) {
    forall d, e | d in roles && e in roles && d != e :: roles[d] != roles[e]
  }

  ghost function Devices(items: seq<Item>): set<string> {
    if items == [] then {} else {items[0].device} + Devices(items[1..])
  }

  ghost predicate UniqueDevices(items: seq<Item>) {
    items == [] || (items[0].device !in Devices(items[1..]) && UniqueDevices(items[1..]))
  }

  ghost predicate Extends(m: Roles, m': Roles) {
    forall d | d in m :: d in m' && m'[d] == m[d]
  }

  lemma FreshPin(roles: Roles, d: string, r: Role)
    requires Injective(roles) && r !in roles.Values
    ensures Injective(roles[d := r]) && (d !in roles ==> roles[d := r].Values == roles.Values + {r})
    ensures roles[d := r].Values <= roles.Values + {r}
  {
    var m := roles[d := r];
    assert m[d] == r;
    forall x | x in roles && x != d ensures m[x] == roles[x] && roles[x] in roles.Values {}
    if d !in roles {
      forall v | v in roles.Values ensures v in m.Values {
        var x :| x in roles && roles[x] == v;
        assert m[x] == v;
      }
    }
  }

  lemma {:induction false} PinnedInjective(mappings: seq<Mapping>, items: seq<Item>, roles: Roles)
    requires Injective(roles) && roles.Keys <= Devices(items) && Pinned(mappings, items, roles).Ok?
    ensures var r := Pinned(mappings, items, roles).value;
            Injective(r) && Extends(roles, r) && r.Keys <= Devices(items)
    decreases |mappings|
  {
    if mappings != [] {
      var fits := Fitting(items, mappings[0].pattern);
      FittingInside(items, mappings[0].pattern);
      FreshPin(roles, fits[0].device, mappings[0].role.value);
      PinnedInjective(mappings[1..], items, roles[fits[0].device := mappings[0].role.value]);
    }
  }

  lemma {:induction false} FittingInside(items: seq<Item>, pattern: string)
    ensures forall x | x in Fitting(items, pattern) :: x.device in Devices(items) && Fits(x, pattern)
  {
    if items != [] { FittingInside(items[1..], pattern); }
  }

  /** Every pinned role reaches the one interface its pattern names. */
  lemma {:induction false} PinHonoured(mappings: seq<Mapping>, items: seq<Item>, roles: Roles, k: nat)
    requires Injective(roles) && roles.Keys <= Devices(items) && Pinned(mappings, items, roles).Ok? && k < |mappings|
    ensures var r, fits := Pinned(mappings, items, roles).value, Fitting(items, mappings[k].pattern);
            |fits| == 1 && fits[0].device in r && mappings[k].role == Some(r[fits[0].device])
    decreases |mappings|
  {
    var fits := Fitting(items, mappings[0].pattern);
    var next := roles[fits[0].device := mappings[0].role.value];
    FittingInside(items, mappings[0].pattern);
    FreshPin(roles, fits[0].device, mappings[0].role.value);
    if k == 0 {
      PinnedInjective(mappings[1..], items, next);
    } else {
      PinHonoured(mappings[1..], items, next, k - 1);
    }
  }

  lemma {:induction false} FilledInjective(items: seq<Item>, f: Filling)
    requires Injective(f.roles) && f.roles.Values <= f.taken
    ensures var g := Filled(items, f);
            && Injective(g.roles) && g.roles.Keys == f.roles.Keys + Devices(items)
            && forall d | d in f.roles && d !in Devices(items) :: g.roles[d] == f.roles[d]
    decreases |items|
  {
    if items != [] {
      var r := NextRole(f.taken);
      FreshPin(f.roles, items[0].device, r);
      FilledInjective(items[1..], Filling(f.roles[items[0].device := r], f.taken + {r}));
    }
  }

  lemma {:induction false} UnpinnedInside(items: seq<Item>, roles: Roles)
    ensures Devices(Unpinned(items, roles)) == Devices(items) - roles.Keys
    ensures UniqueDevices(items) ==> UniqueDevices(Unpinned(items, roles))
  {
    if items != [] { UnpinnedInside(items[1..], roles); }
  }

  lemma {:induction false} RoutedInside(items: seq<Item>)
    ensures forall x | x in Routed(items) :: x in items
  {
    if items != [] { RoutedInside(items[1..]); }
  }

  lemma WanChoiceInside(rest: seq<Item>)
    requires rest != [] && WanChoice(rest).Ok?
    ensures WanChoice(rest).value in rest
  {
    RoutedInside(rest);
    if |Routed(rest)| == 1 { assert Routed(rest)[0] in Routed(rest); }
  }

  lemma {:induction false} ItemInDevices(items: seq<Item>, x: Item)
    requires x in items
    ensures x.device in Devices(items)
  {
    if items[0] != x { ItemInDevices(items[1..], x); }
  }

  lemma {:induction false} RemoveDevices(items: seq<Item>, x: Item)
    requires x in items
    ensures Devices(items) == Devices(Remove(items, x)) + {x.device} && |Remove(items, x)| == |items| - 1
    ensures UniqueDevices(items) ==> UniqueDevices(Remove(items, x)) && x.device !in Devices(Remove(items, x))
    decreases items
  {
    if items[0] != x {
      RemoveDevices(items[1..], x);
    }
  }

  /** Roles of different devices differ, pins stand, and every interface has a role. */
  lemma AllRolesInjective(items: seq<Item>, pinned: Roles)
    requires Injective(pinned) && pinned.Keys <= Devices(items) && AllRoles(items, pinned).Ok?
    ensures var roles := AllRoles(items, pinned).value;
            Injective(roles) && Extends(pinned, roles) && roles.Keys == Devices(items)
  {
    hide Devices, Unpinned, Remove, WanChoice, Filled;
    var rest := Unpinned(items, pinned);
    UnpinnedInside(items, pinned);
    if Wan in pinned.Values || rest == [] {
      FilledInjective(rest, Filling(pinned, pinned.Values));
    } else {
      var w := WanChoice(rest).value;
      WanChoiceInside(rest);
      RemoveDevices(rest, w);
      FreshPin(pinned, w.device, Wan);
      FilledInjective(Remove(rest, w), Filling(pinned[w.device := Wan], pinned.Values + {Wan}));
      CoversAll(pinned.Keys, Devices(items), Devices(Remove(rest, w)), w.device);
    }
  }

  lemma CoversAll<T>(p: set<T>, all: set<T>, rest: set<T>, w: T)
    requires p <= all && all - p == rest + {w}
    ensures (p + {w}) + rest == all
  {
    forall x | x in all ensures x in (p + {w}) + rest {
      if x !in p { assert x in all - p; }
    }
    forall x | x in rest + {w} ensures x in all { assert x in all - p; }
  }

  lemma {:induction false} FilledTaken(items: seq<Item>, f: Filling)
    requires Injective(f.roles) && f.roles.Values == f.taken
    requires UniqueDevices(items) && f.roles.Keys !! Devices(items)
    ensures Filled(items, f).roles.Values == Filled(items, f).taken
    decreases |items|
  {
    if items != [] {
      var r := NextRole(f.taken);
      FreshPin(f.roles, items[0].device, r);
      FilledTaken(items[1..], Filling(f.roles[items[0].device := r], f.taken + {r}));
    }
  }

  /** A role that leaves nothing unused below it: lan, or opt n with lan and opt 1..n-1 taken. */
  ghost predicate NoGapBelow(r: Role, taken: set<Role>) {
    r == Lan || (r.Opt? && r.index >= 1 && Lan in taken && forall j | 1 <= j < r.index :: Opt(j) in taken)
  }

  lemma {:induction false} FilledGapless(items: seq<Item>, f: Filling)
    ensures var g := Filled(items, f);
            f.taken <= g.taken && forall r | r in g.taken - f.taken :: NoGapBelow(r, g.taken)
    decreases |items|
  {
    if items != [] {
      var r := NextRole(f.taken);
      FilledGapless(items[1..], Filling(f.roles[items[0].device := r], f.taken + {r}));
    }
  }

  lemma {:induction false} FilledFresh(items: seq<Item>, f: Filling, d: string)
    requires d in Devices(items)
    ensures var g := Filled(items, f);
            d in g.roles && g.roles[d] in g.taken - f.taken
    decreases |items|
  {
    var r := NextRole(f.taken);
    var f' := Filling(f.roles[items[0].device := r], f.taken + {r});
    if d in Devices(items[1..]) {
      FilledFresh(items[1..], f', d);
    } else {
      FilledOthers(items[1..], f', d);
      FilledGapless(items[1..], f');
    }
  }

  lemma {:induction false} FilledOthers(items: seq<Item>, f: Filling, d: string)
    requires d in f.roles && d !in Devices(items)
    ensures d in Filled(items, f).roles && Filled(items, f).roles[d] == f.roles[d]
    decreases |items|
  {
    if items != [] {
      FilledOthers(items[1..], Filling(f.roles[items[0].device := NextRole(f.taken)],
          f.taken + {NextRole(f.taken)}), d);
    }
  }

  /** With one interface per device: WAN is given out unless every interface was pinned to
      something else, and what is filled up leaves no gap. */
  lemma AllRolesFilled(items: seq<Item>, pinned: Roles)
    requires Injective(pinned) && pinned.Keys <= Devices(items) && UniqueDevices(items) && AllRoles(items, pinned).Ok?
    ensures var roles := AllRoles(items, pinned).value;
            && (Wan in roles.Values <==> Wan in pinned.Values || Unpinned(items, pinned) != [])
            && forall d | d in roles && d !in pinned && roles[d] != Wan :: NoGapBelow(roles[d], roles.Values)
  {
    hide Devices, UniqueDevices, Remove, WanChoice, Filled, NextRole, Injective;
    var rest := Unpinned(items, pinned);
    UnpinnedInside(items, pinned);
    AllRolesInjective(items, pinned);
    if Wan in pinned.Values || rest == [] {
      FilledRoles(rest, Filling(pinned, pinned.Values));
    } else {
      var w := WanChoice(rest).value;
      WanChoiceInside(rest);
      RemoveDevices(rest, w);
      FreshPin(pinned, w.device, Wan);
      ItemInDevices(rest, w);
      FilledRoles(Remove(rest, w), Filling(pinned[w.device := Wan], pinned.Values + {Wan}));
    }
  }

  lemma FilledRoles(items: seq<Item>, f: Filling)
    requires Injective(f.roles) && f.roles.Values == f.taken
    requires UniqueDevices(items) && f.roles.Keys !! Devices(items)
    ensures var g := Filled(items, f).roles;
            && f.roles.Values <= g.Values && g.Keys == f.roles.Keys + Devices(items)
            && (forall r | r in g.Values && r !in f.roles.Values :: NoGapBelow(r, g.Values))
            && (forall d | d in f.roles :: g[d] == f.roles[d])
            && (forall d | d in Devices(items) :: NoGapBelow(g[d], g.Values))
  {
    hide NextRole, Filled, NoGapBelow, UniqueDevices, Injective;
    FilledTaken(items, f);
    FilledGapless(items, f);
    FilledInjective(items, f);
    forall d | d in Devices(items) ensures NoGapBelow(Filled(items, f).roles[d], Filled(items, f).roles.Values) {
      FilledFresh(items, f, d);
    }
  }

  // ----- the order in which roles are handed out -----

  /** lan comes first, then opt1, opt2 and so on. */
  function Rank(r: Role): nat {
    match r
    case Wan => 0
    case Lan => 0
    case Opt(i) => i
  }

  /** Once a role is handed out, later ones rank above it. */
  lemma NextAbove(taken: set<Role>, later: set<Role>)
    requires taken + {NextRole(taken)} <= later
    ensures Rank(NextRole(taken)) < Rank(NextRole(later))
  {
    assert Lan in later;
    var n := LeastFree(later, 1);
    assert Opt(n) !in later;
    if Lan in taken {
      assert forall j | 1 <= j <= LeastFree(taken, 1) :: Opt(j) in later;
    }
  }

  lemma {:induction false} FilledAbove(items: seq<Item>, f: Filling, base: set<Role>, d: string)
    requires base + {NextRole(base)} <= f.taken && d in Devices(items)
    ensures d in Filled(items, f).roles && Rank(NextRole(base)) < Rank(Filled(items, f).roles[d])
    decreases |items|
  {
    hide NextRole, Rank;
    var r := NextRole(f.taken);
    var f' := Filling(f.roles[items[0].device := r], f.taken + {r});
    if d in Devices(items[1..]) {
      FilledAbove(items[1..], f', base, d);
    } else {
      FilledOthers(items[1..], f', d);
      NextAbove(base, f.taken);
    }
  }

  /** Roles ascend along the list they are handed out to. */
  lemma {:induction false} FilledAscends(items: seq<Item>, f: Filling, i: nat, j: nat)
    requires UniqueDevices(items) && i < j < |items|
    ensures var g := Filled(items, f).roles;
            && items[i].device in g && items[j].device in g
            && Rank(g[items[i].device]) < Rank(g[items[j].device])
    decreases |items|
  {
    hide NextRole, Rank;
    var r := NextRole(f.taken);
    var f' := Filling(f.roles[items[0].device := r], f.taken + {r});
    if i == 0 {
      FilledOthers(items[1..], f', items[0].device);
      ItemInDevices(items[1..], items[j]);
      FilledAbove(items[1..], f', f.taken, items[j].device);
    } else {
      FilledAscends(items[1..], f', i - 1, j - 1);
    }
  }

  lemma {:induction false} UnpinnedOrder(items: seq<Item>, roles: Roles, i: nat, j: nat) returns (p: nat, q: nat)
    requires i < j < |items| && items[i].device !in roles && items[j].device !in roles
    ensures p < q < |Unpinned(items, roles)| && Unpinned(items, roles)[p] == items[i]
            && Unpinned(items, roles)[q] == items[j]
    decreases |items|
  {
    if i > 0 {
      p, q := UnpinnedOrder(items[1..], roles, i - 1, j - 1);
      if items[0].device !in roles { p, q := p + 1, q + 1; }
    } else {
      q := UnpinnedAt(items[1..], roles, j - 1);
      p, q := 0, q + 1;
    }
  }

  lemma {:induction false} UnpinnedAt(items: seq<Item>, roles: Roles, j: nat) returns (q: nat)
    requires j < |items| && items[j].device !in roles
    ensures q < |Unpinned(items, roles)| && Unpinned(items, roles)[q] == items[j]
    decreases |items|
  {
    q := 0;
    if j > 0 {
      q := UnpinnedAt(items[1..], roles, j - 1);
      if items[0].device !in roles { q := q + 1; }
    }
  }

  lemma {:induction false} RemoveOrder(items: seq<Item>, x: Item, i: nat, j: nat) returns (p: nat, q: nat)
    requires i < j < |items| && items[i] != x && items[j] != x
    ensures p < q < |Remove(items, x)| && Remove(items, x)[p] == items[i] && Remove(items, x)[q] == items[j]
    decreases |items|
  {
    if items[0] == x {
      p, q := i - 1, j - 1;
    } else if i > 0 {
      p, q := RemoveOrder(items[1..], x, i - 1, j - 1);
      p, q := p + 1, q + 1;
    } else {
      q := RemoveAt(items[1..], x, j - 1);
      p, q := 0, q + 1;
    }
  }

  lemma {:induction false} RemoveAt(items: seq<Item>, x: Item, j: nat) returns (q: nat)
    requires j < |items| && items[j] != x
    ensures q < |Remove(items, x)| && Remove(items, x)[q] == items[j]
    decreases |items|
  {
    q := j;
    if items[0] == x {
      q := j - 1;
    } else if j > 0 {
      q := RemoveAt(items[1..], x, j - 1);
      q := q + 1;
    }
  }

  /** Of two interfaces that are neither pinned nor WAN, the later one has the higher role. */
  lemma AllRolesAscend(items: seq<Item>, pinned: Roles, i: nat, j: nat)
    requires Injective(pinned) && pinned.Keys <= Devices(items) && UniqueDevices(items) && AllRoles(items, pinned).Ok?
    requires i < j < |items| && items[i].device !in pinned && items[j].device !in pinned
    ensures var roles, a, b := AllRoles(items, pinned).value, items[i].device, items[j].device;
            a in roles && b in roles && (roles[a] != Wan && roles[b] != Wan ==> Rank(roles[a]) < Rank(roles[b]))
  {
    AllRolesInjective(items, pinned);
    ItemInDevices(items, items[i]);
    ItemInDevices(items, items[j]);
    hide Devices, UniqueDevices, Remove, WanChoice, Filled, Injective, Unpinned, Rank;
    var rest := Unpinned(items, pinned);
    UnpinnedInside(items, pinned);
    var p, q := UnpinnedOrder(items, pinned, i, j);
    if Wan in pinned.Values || rest == [] {
      FilledAscends(rest, Filling(pinned, pinned.Values), p, q);
    } else {
      var w := WanChoice(rest).value;
      var f := Filling(pinned[w.device := Wan], pinned.Values + {Wan});
      WanChoiceInside(rest);
      RemoveDevices(rest, w);
      FilledOthers(Remove(rest, w), f, w.device);
      if rest[p] != w && rest[q] != w {
        var p', q' := RemoveOrder(rest, w, p, q);
        FilledAscends(Remove(rest, w), f, p', q');
      }
    }
  }

  // ----- with no pins: wan, lan, opt1, opt2, ... without holes -----

  /** The roles of a machine with n interfaces and no pins. */
  function Canonical(n: nat): set<Role> {
    (if n >= 1 then {Wan} else {}) + (if n >= 2 then {Lan} else {}) + set i | 1 <= i < n - 1 :: Opt(i)
  }

  lemma NextCanonical(n: nat)
    requires n >= 1
    ensures Canonical(n) + {NextRole(Canonical(n))} == Canonical(n + 1)
  {
    var c := Canonical(n);
    if n >= 2 {
      var k := LeastFree(c, 1);
      assert Opt(n - 1) !in c && forall j | 1 <= j < n - 1 :: Opt(j) in c;
      assert k == n - 1;
      assert Canonical(n + 1) == c + {Opt(n - 1)};
    }
  }

  lemma {:induction false} FilledCanonical(items: seq<Item>, f: Filling, n: nat)
    requires n >= 1 && f.taken == Canonical(n)
    ensures Filled(items, f).taken == Canonical(n + |items|)
    decreases |items|
  {
    if items != [] {
      NextCanonical(n);
      var r := NextRole(f.taken);
      FilledCanonical(items[1..], Filling(f.roles[items[0].device := r], f.taken + {r}), n + 1);
    }
  }

  lemma {:induction false} UnpinnedAll(items: seq<Item>)
    ensures Unpinned(items, map[]) == items
  {
    if items != [] { UnpinnedAll(items[1..]); }
  }

  lemma UnpinnedRoles(items: seq<Item>)
    requires UniqueDevices(items) && AllRoles(items, map[]).Ok?
    ensures AllRoles(items, map[]).value.Values == Canonical(|items|)
  {
    hide NextRole, LeastFree, WanChoice, Remove, UniqueDevices, Unpinned, Injective, Filled, Devices;
    var none: Roles := map[];
    UnpinnedAll(items);
    assert Injective(none) by { NoneInjective(); }
    if items != [] {
      var w := WanChoice(items).value;
      var f := Filling(none[w.device := Wan], {Wan});
      WanChoiceInside(items);
      RemoveDevices(items, w);
      FreshPin(none, w.device, Wan);
      assert none.Values + {Wan} == {Wan};
      assert f.taken == Canonical(1);
      FilledTaken(Remove(items, w), f);
      FilledCanonical(Remove(items, w), f, 1);
    } else {
      FilledNothing(Filling(none, none.Values));
      assert none.Values == Canonical(0);
    }
  }

  lemma NoneInjective()
    ensures Injective(map[])
  {}

  lemma FilledNothing(f: Filling)
    ensures Filled([], f) == f
  {}

  // ----- the whole of resolve_interfaces -----

  ghost function RoleSet(answer: seq<Assigned>): set<Role> {
    if answer == [] then {} else {answer[0].role} + RoleSet(answer[1..])
  }

  lemma {:induction false} AnswerAt(items: seq<Item>, roles: Roles, i: nat)
    requires i < |items| && Devices(items) <= roles.Keys
    ensures |Answer(items, roles)| == |items| && items[i].device in roles
    ensures Answer(items, roles)[i] == Assigned(roles[items[i].device], items[i])
  {
    AnswerLength(items, roles);
    if i > 0 { AnswerAt(items[1..], roles, i - 1); }
  }

  lemma {:induction false} AnswerLength(items: seq<Item>, roles: Roles)
    ensures |Answer(items, roles)| == |items|
  {
    if items != [] { AnswerLength(items[1..], roles); }
  }

  lemma {:induction false} AnswerRoles(items: seq<Item>, roles: Roles)
    requires Devices(items) <= roles.Keys
    ensures RoleSet(Answer(items, roles)) == set d | d in Devices(items) :: roles[d]
  {
    if items != [] { AnswerRoles(items[1..], roles); }
  }

  /** Metadata interfaces get one device each. */
  lemma {:induction false} TiedUnique(metas: seq<Meta>, detected: seq<Device>, used: set<string>)
    requires Tied(metas, detected, used).Ok?
    ensures UniqueDevices(Tied(metas, detected, used).value) && Devices(Tied(metas, detected, used).value) !! used
    decreases |metas|
  {
    if metas != [] {
      TiedUnique(metas[1..], detected, used + {DeviceOf(metas[0], detected).value});
    }
  }

  ghost predicate DistinctNames(detected: seq<Device>) {
    detected == [] || (!HasName(detected[1..], detected[0].name) && DistinctNames(detected[1..]))
  }

  lemma {:induction false} DefaultUnique(detected: seq<Device>, first: bool)
    ensures forall n :: n in Devices(Default(detected, first)) <==> HasName(detected, n)
    ensures UniqueDevices(Default(detected, first)) <==> DistinctNames(detected)
  {
    if detected != [] { DefaultUnique(detected[1..], false); }
  }

  /** Each interface has its own device, given metadata or distinct device names. */
  lemma ResolvedUnique(metas: seq<Meta>, detected: seq<Device>)
    requires Resolved(metas, detected).Ok? && (metas != [] || DistinctNames(detected))
    ensures UniqueDevices(Resolved(metas, detected).value)
  {
    if metas == [] { DefaultUnique(detected, true); } else { TiedUnique(metas, detected, {}); }
  }

  ghost predicate FitsSome(a: seq<Assigned>, pattern: string) {
    exists i :: 0 <= i < |a| && Fits(a[i].item, pattern)
  }

  /** Different devices never share a role, and every pin reaches the one interface it names. */
  lemma ResolveIsSound(metas: seq<Meta>, detected: seq<Device>, mappings: seq<Mapping>)
    requires Resolve(metas, detected, mappings).Ok?
    ensures var a := Resolve(metas, detected, mappings).value;
            forall i, j | 0 <= i < |a| && 0 <= j < |a| && a[i].item.device != a[j].item.device :: a[i].role != a[j].role
    ensures var a := Resolve(metas, detected, mappings).value;
            forall k, i | 0 <= k < |mappings| && 0 <= i < |a| && Fits(a[i].item, mappings[k].pattern) ::
              mappings[k].role == Some(a[i].role)
    ensures var a := Resolve(metas, detected, mappings).value;
            forall k | 0 <= k < |mappings| :: FitsSome(a, mappings[k].pattern)
  {
    hide Resolved, Pinned, AllRoles, Answer, Fits, Devices;
    var items := Resolved(metas, detected).value;
    var pinned := Pinned(mappings, items, map[]).value;
    var roles := AllRoles(items, pinned).value;
    var a := Resolve(metas, detected, mappings).value;
    assert a == Answer(items, roles);
    PinnedInjective(mappings, items, map[]);
    AllRolesInjective(items, pinned);
    AnswerLength(items, roles);
    forall i | 0 <= i < |a| ensures items[i].device in roles && a[i] == Assigned(roles[items[i].device], items[i]) {
      AnswerAt(items, roles, i);
    }
    forall k, i | 0 <= k < |mappings| && 0 <= i < |a| && Fits(a[i].item, mappings[k].pattern)
      ensures mappings[k].role == Some(a[i].role)
    {
      PinHonoured(mappings, items, map[], k);
      FittingHas(items, mappings[k].pattern, items[i]);
    }
    forall k | 0 <= k < |mappings| ensures FitsSome(a, mappings[k].pattern) {
      PinHonoured(mappings, items, map[], k);
      var x := Fitting(items, mappings[k].pattern)[0];
      FittingInside(items, mappings[k].pattern);
      FittingFrom(items, mappings[k].pattern, x);
      var i :| 0 <= i < |items| && items[i] == x;
      assert Fits(a[i].item, mappings[k].pattern);
    }
  }

  lemma {:induction false} FittingHas(items: seq<Item>, pattern: string, x: Item)
    requires x in items && Fits(x, pattern)
    ensures x in Fitting(items, pattern)
  {
    if items[0] != x { FittingHas(items[1..], pattern, x); }
  }

  /** No mapping names this interface. */
  ghost predicate Leftover(item: Item, mappings: seq<Mapping>) {
    forall k | 0 <= k < |mappings| :: !Fits(item, mappings[k].pattern)
  }

  /** With a device per interface: WAN is missing only when every interface is pinned elsewhere;
      the others that no mapping names get roles that leave no gap and ascend with their position,
      so that each has the least role free at its turn. */
  lemma ResolveIsComplete(metas: seq<Meta>, detected: seq<Device>, mappings: seq<Mapping>)
    requires Resolve(metas, detected, mappings).Ok? && (metas != [] || DistinctNames(detected))
    ensures var a := Resolve(metas, detected, mappings).value;
            Wan !in RoleSet(a) ==>
                forall i | 0 <= i < |a| :: exists k :: 0 <= k < |mappings| && Fits(a[i].item, mappings[k].pattern)
    ensures var a := Resolve(metas, detected, mappings).value;
            forall i | 0 <= i < |a| && a[i].role != Wan && Leftover(a[i].item, mappings) ::
                NoGapBelow(a[i].role, RoleSet(a))
    ensures var a := Resolve(metas, detected, mappings).value;
            forall i, j | 0 <= i < j < |a| && a[i].role != Wan && a[j].role != Wan
                          && Leftover(a[i].item, mappings) && Leftover(a[j].item, mappings) ::
              Rank(a[i].role) < Rank(a[j].role)
  {
    hide Resolved, AllRoles, Answer, Fits, Devices, RoleSet, NoGapBelow, Rank, Injective, UniqueDevices;
    var items := Resolved(metas, detected).value;
    var pinned := Pinned(mappings, items, map[]).value;
    var roles := AllRoles(items, pinned).value;
    var a := Answer(items, roles);
    ResolvedUnique(metas, detected);
    PinnedInjective(mappings, items, map[]);
    AllRolesInjective(items, pinned);
    AllRolesFilled(items, pinned);
    AnswerLength(items, roles);
    AnswerRoles(items, roles);
    assert RoleSet(a) == roles.Values;
    forall i | 0 <= i < |a|
      ensures items[i].device in roles && a[i] == Assigned(roles[items[i].device], items[i])
      ensures items[i].device in pinned ==> exists k :: 0 <= k < |mappings| && Fits(a[i].item, mappings[k].pattern)
      ensures Leftover(a[i].item, mappings) ==> items[i].device !in pinned
    {
      AnswerAt(items, roles, i);
      if items[i].device in pinned { PinnedBy(mappings, items, map[], items[i]); }
    }
    if Wan !in RoleSet(a) {
      NoneUnpinned(items, pinned);
    }
    forall i, j | 0 <= i < j < |a| && a[i].role != Wan && a[j].role != Wan
                  && Leftover(a[i].item, mappings) && Leftover(a[j].item, mappings)
      ensures Rank(a[i].role) < Rank(a[j].role)
    {
      AllRolesAscend(items, pinned, i, j);
    }
  }

  lemma {:induction false} NoneUnpinned(items: seq<Item>, roles: Roles)
    requires Unpinned(items, roles) == []
    ensures forall i | 0 <= i < |items| :: items[i].device in roles
  {
    if items != [] { NoneUnpinned(items[1..], roles); }
  }

  /** A device is pinned only by a mapping that fits its interface. */
  lemma {:induction false} PinnedBy(mappings: seq<Mapping>, items: seq<Item>, roles: Roles, x: Item)
    requires UniqueDevices(items) && x in items && Pinned(mappings, items, roles).Ok?
    requires x.device in Pinned(mappings, items, roles).value && x.device !in roles
    ensures exists k :: 0 <= k < |mappings| && Fits(x, mappings[k].pattern)
    decreases |mappings|
  {
    var y := Fitting(items, mappings[0].pattern)[0];
    var next := roles[y.device := mappings[0].role.value];
    FittingInside(items, mappings[0].pattern);
    assert y in Fitting(items, mappings[0].pattern);
    if x.device == y.device {
      FittingFrom(items, mappings[0].pattern, y);
      SameItem(items, x, y);
      assert Fits(x, mappings[0].pattern);
    } else {
      PinnedBy(mappings[1..], items, next, x);
      var k :| 0 <= k < |mappings[1..]| && Fits(x, mappings[1..][k].pattern);
      assert mappings[1..][k] == mappings[k + 1];
    }
  }

  lemma {:induction false} FittingFrom(items: seq<Item>, pattern: string, x: Item)
    requires x in Fitting(items, pattern)
    ensures x in items
  {
    if items[0] != x { FittingFrom(items[1..], pattern, x); }
  }

  lemma {:induction false} SameItem(items: seq<Item>, x: Item, y: Item)
    requires UniqueDevices(items) && x in items && y in items && x.device == y.device
    ensures x == y
  {
    if items[0] == x {
      if y != x { ItemInDevices(items[1..], y); }
    } else if items[0] == y {
      ItemInDevices(items[1..], x);
    } else {
      SameItem(items[1..], x, y);
    }
  }

  /** With no pins and n interfaces the roles are exactly wan, lan, opt1 .. opt(n-2). */
  lemma ResolveWithoutPins(metas: seq<Meta>, detected: seq<Device>)
    requires Resolve(metas, detected, []).Ok? && (metas != [] || DistinctNames(detected))
    ensures var a := Resolve(metas, detected, []).value;
            RoleSet(a) == Canonical(|a|)
  {
    hide Resolved, AllRoles, Answer, RoleSet, Canonical, Devices;
    var items := Resolved(metas, detected).value;
    ResolvedUnique(metas, detected);
    AllRolesInjective(items, map[]);
    UnpinnedRoles(items);
    AnswerLength(items, AllRoles(items, map[]).value);
    AnswerRoles(items, AllRoles(items, map[]).value);
  }

  // ----- the loops -----

  lemma {:induction false} NameByMacSnoc(s: seq<Device>, x: Device, mac: string)
    ensures NameByMac(s + [x], mac) == if Folded(x.mac) == mac then Some(x.name) else NameByMac(s, mac)
  {
    if s != [] {
      assert (s + [x])[1..] == s[1..] + [x];
      NameByMacSnoc(s[1..], x, mac);
    }
  }

  lemma {:induction false} HasNameSnoc(s: seq<Device>, x: Device, name: string)
    ensures HasName(s + [x], name) <==> x.name == name || HasName(s, name)
  {
    if s != [] {
      assert (s + [x])[1..] == s[1..] + [x];
      HasNameSnoc(s[1..], x, name);
    }
  }

  /** The two dictionaries over the detected devices. */
  method IndexDevices(detected: seq<Device>) returns (byName: set<string>, byMac: map<string, string>)
    ensures forall n :: n in byName <==> HasName(detected, n)
    ensures forall m :: NameByMac(detected, m) == if m in byMac then Some(byMac[m]) else None
  {
    byName, byMac := {}, map[];
    for i := 0 to |detected|
      invariant forall n :: n in byName <==> HasName(detected[..i], n)
      invariant forall m :: NameByMac(detected[..i], m) == if m in byMac then Some(byMac[m]) else None
    {
      assert detected[..i + 1] == detected[..i] + [detected[i]];
      forall n { HasNameSnoc(detected[..i], detected[i], n); }
      forall m { NameByMacSnoc(detected[..i], detected[i], m); }
      byName := byName + {detected[i].name};
      byMac := byMac[Folded(detected[i].mac) := detected[i].name];
    }
    assert detected[..|detected|] == detected;
  }

  /** The loop that ties metadata interfaces to devices. */
  method TieDevices(metas: seq<Meta>, detected: seq<Device>) returns (r: Result<seq<Item>, Error>)
    ensures r == Resolved(metas, detected)
  {
    var byName, byMac := IndexDevices(detected);
    var items: seq<Item>, used: set<string> := [], {};
    assert metas[0..] == metas && forall rest: seq<Item> :: [] + rest == rest;
    for i := 0 to |metas|
      invariant metas != [] ==>
                  Resolved(metas, detected) ==
                  match Tied(metas[i..], detected, used) case Err(e) => Err(e) case Ok(rest) => Ok(items + rest)
      invariant i == 0 ==> items == []
      invariant i > 0 ==> items != []
    {
      var m := metas[i];
      assert metas[i..][0] == m && metas[i..][1..] == metas[i + 1..];
      var named := m.name.Some? && m.name.value in byName;
      var known := m.mac.Some? && m.mac.value in byMac;
      if named && known && m.name.value != byMac[m.mac.value] { return Err(DifferentDevices); }
      if !named && !known { return Err(NotPresent); }
      var device := if named then m.name.value else byMac[m.mac.value];
      assert DeviceOf(m, detected) == Ok(device);
      if device in used { return Err(SameDevice); }
      used := used + {device};
      assert forall rest: seq<Item> :: items + ([Item(device, m)] + rest) == (items + [Item(device, m)]) + rest;
      items := items + [Item(device, m)];
    }
    if items == [] {
      return Ok(Default(detected, true));
    }
    assert items + [] == items;
    return Ok(items);
  }

  /** The interfaces a pattern fits. */
  method FindFitting(items: seq<Item>, pattern: string) returns (fits: seq<Item>)
    ensures fits == Fitting(items, pattern)
  {
    fits := [];
    for i := 0 to |items|
      invariant fits + Fitting(items[i..], pattern) == Fitting(items, pattern)
    {
      assert items[i..][1..] == items[i + 1..];
      if Fits(items[i], pattern) {
        assert fits + ([items[i]] + Fitting(items[i + 1..], pattern)) ==
            (fits + [items[i]]) + Fitting(items[i + 1..], pattern);
        fits := fits + [items[i]];
      }
    }
  }

  /** The loop over the operator's mappings. */
  method PinRoles(mappings: seq<Mapping>, items: seq<Item>) returns (r: Result<Roles, Error>)
    ensures r == Pinned(mappings, items, map[])
  {
    var roles: Roles := map[];
    for i := 0 to |mappings|
      invariant Pinned(mappings, items, map[]) == Pinned(mappings[i..], items, roles)
    {
      assert mappings[i..][0] == mappings[i] && mappings[i..][1..] == mappings[i + 1..];
      if mappings[i].role.None? { return Err(InvalidRole); }
      var fits := FindFitting(items, mappings[i].pattern);
      if |fits| != 1 { return Err(AmbiguousMapping); }
      if mappings[i].role.value in roles.Values || fits[0].device in roles { return Err(DuplicateMapping); }
      roles := roles[fits[0].device := mappings[i].role.value];
    }
    return Ok(roles);
  }

  /** The search for a free opt index. */
  method FreeRole(taken: set<Role>) returns (r: Role)
    ensures r == NextRole(taken)
  {
    if Lan !in taken { return Lan; }
    var index := 1;
    while Opt(index) in taken
      invariant index >= 1 && LeastFree(taken, 1) == LeastFree(taken, index)
      decreases OptsFrom(taken, index)
    {
      assert Opt(index) in OptsFrom(taken, index) && Opt(index) !in OptsFrom(taken, index + 1);
      index := index + 1;
    }
    return Opt(index);
  }

  /** The loop that hands out lan and the opt roles. */
  method FillRoles(rest: seq<Item>, pinned: Roles, used: set<Role>) returns (roles: Roles)
    ensures roles == Filled(rest, Filling(pinned, used)).roles
  {
    roles := pinned;
    var taken := used;
    for i := 0 to |rest|
      invariant Filled(rest, Filling(pinned, used)) == Filled(rest[i..], Filling(roles, taken))
    {
      assert rest[i..][0] == rest[i] && rest[i..][1..] == rest[i + 1..];
      var role := FreeRole(taken);
      roles, taken := roles[rest[i].device := role], taken + {role};
    }
  }

  /** resolve_interfaces. */
  method ResolveInterfaces(metas: seq<Meta>, detected: seq<Device>, mappings: seq<Mapping>)
    returns (r: Result<seq<Assigned>, Error>)
    ensures r == Resolve(metas, detected, mappings)
  {
    var tied := TieDevices(metas, detected);
    if tied.Err? { return Err(tied.error); }
    var items := tied.value;
    var pins := PinRoles(mappings, items);
    if pins.Err? { return Err(pins.error); }
    var pinned := pins.value;
    var rest := Unpinned(items, pinned);
    var start, used := pinned, pinned.Values;
    if Wan !in used && rest != [] {
      var choice := WanChoice(rest);
      if choice.Err? { return Err(choice.error); }
      start, used, rest := pinned[choice.value.device := Wan], used + {Wan}, Remove(rest, choice.value);
    }
    var roles := FillRoles(rest, start, used);
    return Ok(Answer(items, roles));
  }
}
