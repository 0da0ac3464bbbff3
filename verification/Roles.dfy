/** What the interface allocator answers, said in the metadata, the detected devices and the mappings:
    which device an interface gets, who becomes WAN, and when there is an answer at all. */
module Roles {
  import opened Ascii
  import opened Wrappers
  import opened Interfaces

  // ----- which device -----

  ghost predicate NameSeen(detected: seq<Device>, name: string) {
    exists j :: 0 <= j < |detected| && detected[j].name == name
  }

  ghost predicate MacSeen(detected: seq<Device>, mac: string) {
    exists j :: 0 <= j < |detected| && Folded(detected[j].mac) == mac
  }

  /** `d` is the last device with this MAC. */
  ghost predicate LastWithMac(detected: seq<Device>, mac: string, d: string) {
    exists j :: 0 <= j < |detected| && detected[j].name == d && Folded(detected[j].mac) == mac
                && forall l | j < l < |detected| :: Folded(detected[l].mac) != mac
  }

  /** The device that an interface of the metadata names: by its name or its MAC, and if by both then they
      name the same. */
  ghost predicate IsDeviceOf(m: Meta, detected: seq<Device>, d: string) {
    var byName := m.name.Some? && NameSeen(detected, m.name.value);
    var byMac := m.mac.Some? && MacSeen(detected, m.mac.value);
    (byName || byMac) && (byName ==> d == m.name.value) && (byMac ==> LastWithMac(detected, m.mac.value, d))
  }

  lemma {:induction false} HasNameIs(detected: seq<Device>, name: string)
    ensures HasName(detected, name) <==> NameSeen(detected, name)
  {
    if detected != [] {
      var rest := detected[1..];
      HasNameIs(rest, name);
      if j :| 0 <= j < |rest| && rest[j].name == name { assert detected[j + 1].name == name; }
      if j :| 0 < j < |detected| && detected[j].name == name { assert rest[j - 1].name == name; }
    }
  }

  lemma {:induction false} NameByMacIs(detected: seq<Device>, mac: string)
    ensures NameByMac(detected, mac).Some? <==> MacSeen(detected, mac)
    ensures forall d :: NameByMac(detected, mac) == Some(d) <==> LastWithMac(detected, mac, d)
  {
    hide Folded;
    if detected != [] {
      var rest := detected[1..];
      NameByMacIs(rest, mac);
      assert forall j | 0 <= j < |rest| :: rest[j] == detected[j + 1];
      MacStep(detected, mac);
      forall d ensures NameByMac(detected, mac) == Some(d) <==> LastWithMac(detected, mac, d) {
        LastStep(detected, mac, d);
      }
    }
  }

  lemma MacStep(detected: seq<Device>, mac: string)
    requires detected != []
    ensures MacSeen(detected, mac) <==> Folded(detected[0].mac) == mac || MacSeen(detected[1..], mac)
  {
    var rest := detected[1..];
    if j :| 0 <= j < |rest| && Folded(rest[j].mac) == mac { assert detected[j + 1] == rest[j]; }
    if j :| 0 < j < |detected| && Folded(detected[j].mac) == mac { assert rest[j - 1] == detected[j]; }
  }

  lemma LastStep(detected: seq<Device>, mac: string, d: string)
    requires detected != []
    ensures LastWithMac(detected, mac, d) <==>
            LastWithMac(detected[1..], mac, d)
            || (!MacSeen(detected[1..], mac) && Folded(detected[0].mac) == mac && detected[0].name == d)
  {
    var rest := detected[1..];
    assert forall j | 0 <= j < |rest| :: rest[j] == detected[j + 1];
    if LastWithMac(rest, mac, d) {
      var j :| 0 <= j < |rest| && rest[j].name == d && Folded(rest[j].mac) == mac
               && forall l | j < l < |rest| :: Folded(rest[l].mac) != mac;
      assert forall l | j + 1 < l < |detected| :: detected[l] == rest[l - 1];
      assert detected[j + 1] == rest[j];
    }
    if LastWithMac(detected, mac, d) {
      var j :| 0 <= j < |detected| && detected[j].name == d && Folded(detected[j].mac) == mac
               && forall l | j < l < |detected| :: Folded(detected[l].mac) != mac;
      if j > 0 { assert rest[j - 1] == detected[j]; }
    }
    if !MacSeen(rest, mac) {
      assert forall l | 0 < l < |detected| :: detected[l] == rest[l - 1];
    }
  }

  lemma DeviceOfIs(m: Meta, detected: seq<Device>, d: string)
    ensures DeviceOf(m, detected) == Ok(d) <==> IsDeviceOf(m, detected, d)
  {
    hide HasName, NameByMac, NameSeen, MacSeen, LastWithMac;
    if m.name.Some? { HasNameIs(detected, m.name.value); }
    if m.mac.Some? { NameByMacIs(detected, m.mac.value); }
  }

  lemma {:induction false} TiedAt(metas: seq<Meta>, detected: seq<Device>, used: set<string>, i: nat)
    requires Tied(metas, detected, used).Ok? && i < |metas|
    ensures var items := Tied(metas, detected, used).value;
            |items| == |metas| && DeviceOf(metas[i], detected) == Ok(items[i].device) && items[i].meta == metas[i]
    decreases |metas|
  {
    hide DeviceOf;
    TiedLength(metas, detected, used);
    if i > 0 { TiedAt(metas[1..], detected, used + {DeviceOf(metas[0], detected).value}, i - 1); }
  }

  lemma {:induction false} TiedLength(metas: seq<Meta>, detected: seq<Device>, used: set<string>)
    requires Tied(metas, detected, used).Ok?
    ensures |Tied(metas, detected, used).value| == |metas|
    decreases |metas|
  {
    hide DeviceOf;
    if metas != [] { TiedLength(metas[1..], detected, used + {DeviceOf(metas[0], detected).value}); }
  }

  /** Without metadata: the device as detected, the first one by DHCP. */
  function DetectedItem(d: Device, first: bool): Item {
    Item(d.name, Meta(Some(d.name), if d.mac == "" then None else Some(Folded(d.mac)), false,
                      Settings(first, [], None, None, [])))
  }

  lemma {:induction false} DefaultAt(detected: seq<Device>, first: bool, i: nat)
    requires i < |detected|
    ensures |Default(detected, first)| == |detected|
    ensures Default(detected, first)[i] == DetectedItem(detected[i], first && i == 0)
  {
    DefaultLength(detected, first);
    if i > 0 { DefaultAt(detected[1..], false, i - 1); }
  }

  lemma {:induction false} DefaultLength(detected: seq<Device>, first: bool)
    ensures |Default(detected, first)| == |detected|
  {
    if detected != [] { DefaultLength(detected[1..], false); }
  }

  lemma ResolvedAt(metas: seq<Meta>, detected: seq<Device>, i: nat)
    requires Resolved(metas, detected).Ok? && i < |Resolved(metas, detected).value|
    ensures var items := Resolved(metas, detected).value;
            if metas == [] then |items| == |detected| && items[i] == DetectedItem(detected[i], i == 0)
            else |items| == |metas| && items[i].meta == metas[i] && IsDeviceOf(metas[i], detected, items[i].device)
  {
    if metas == [] {
      DefaultLength(detected, true);
      DefaultAt(detected, true, i);
    } else {
      TiedLength(metas, detected, {});
      TiedAt(metas, detected, {}, i);
      DeviceOfIs(metas[i], detected, Resolved(metas, detected).value[i].device);
    }
  }

  lemma ResolveAt(metas: seq<Meta>, detected: seq<Device>, mappings: seq<Mapping>)
    requires Resolve(metas, detected, mappings).Ok?
    ensures Resolved(metas, detected).Ok?
    ensures var a, items := Resolve(metas, detected, mappings).value, Resolved(metas, detected).value;
            |a| == |items| && forall i | 0 <= i < |a| :: a[i].item == items[i]
  {
    hide Resolved, Pinned, AllRoles, Answer, Devices;
    var items := Resolved(metas, detected).value;
    var pinned := Pinned(mappings, items, map[]).value;
    var roles := AllRoles(items, pinned).value;
    PinnedInjective(mappings, items, map[]) by { NoDevices(items); }
    AllRolesInjective(items, pinned);
    AnswerLength(items, roles);
    forall i | 0 <= i < |items| ensures Answer(items, roles)[i].item == items[i] { AnswerAt(items, roles, i); }
  }

  lemma NoDevices(items: seq<Item>)
    ensures var none: Interfaces.Roles := map[]; Injective(none) && none.Keys <= Devices(items)
  {}

  /** The answer has the metadata's interfaces in their order, each with the device it names; without
      metadata it has every detected device, the first one by DHCP. */
  lemma ResolveTies(metas: seq<Meta>, detected: seq<Device>, mappings: seq<Mapping>, i: nat)
    requires Resolve(metas, detected, mappings).Ok? && i < |Resolve(metas, detected, mappings).value|
    ensures var a := Resolve(metas, detected, mappings).value;
            if metas == [] then |a| == |detected| && a[i].item == DetectedItem(detected[i], i == 0)
            else |a| == |metas| && a[i].item.meta == metas[i] && IsDeviceOf(metas[i], detected, a[i].item.device)
  {
    hide Resolve, Resolved, IsDeviceOf;
    ResolveAt(metas, detected, mappings);
    ResolvedAt(metas, detected, i);
  }

  // ----- who becomes WAN -----

  ghost predicate PinsWan(mappings: seq<Mapping>) {
    exists k :: 0 <= k < |mappings| && mappings[k].role == Some(Wan)
  }

  lemma ValuesPlus(roles: Interfaces.Roles, d: string, r: Role)
    requires d !in roles
    ensures roles[d := r].Values == roles.Values + {r}
  {
    var m := roles[d := r];
    assert m[d] == r;
    forall v | v in roles.Values ensures v in m.Values {
      var x :| x in roles && roles[x] == v;
      assert m[x] == v;
    }
  }

  lemma {:induction false} PinnedRoles(mappings: seq<Mapping>, items: seq<Item>, roles: Interfaces.Roles, r: Role)
    requires Pinned(mappings, items, roles).Ok?
    ensures r in Pinned(mappings, items, roles).value.Values <==>
            r in roles.Values || exists k :: 0 <= k < |mappings| && mappings[k].role == Some(r)
    decreases |mappings|
  {
    hide Fitting;
    if mappings != [] {
      var d, rest := Fitting(items, mappings[0].pattern)[0].device, mappings[1..];
      ValuesPlus(roles, d, mappings[0].role.value);
      PinnedRoles(rest, items, roles[d := mappings[0].role.value], r);
      if k :| 0 <= k < |rest| && rest[k].role == Some(r) { assert mappings[k + 1] == rest[k]; }
      if k :| 0 < k < |mappings| && mappings[k].role == Some(r) { assert rest[k - 1] == mappings[k]; }
    }
  }

  /** An interface is left over exactly when its device is not pinned. */
  lemma LeftoverIs(mappings: seq<Mapping>, items: seq<Item>, i: nat)
    requires UniqueDevices(items) && Pinned(mappings, items, map[]).Ok? && i < |items|
    ensures Leftover(items[i], mappings) <==> items[i].device !in Pinned(mappings, items, map[]).value
  {
    hide Fits, Devices, UniqueDevices, Pinned;
    var pinned := Pinned(mappings, items, map[]).value;
    NoDevices(items);
    if items[i].device in pinned {
      PinnedBy(mappings, items, map[], items[i]);
    } else {
      forall k | 0 <= k < |mappings| ensures !Fits(items[i], mappings[k].pattern) {
        PinHonoured(mappings, items, map[], k);
        if Fits(items[i], mappings[k].pattern) { FittingHas(items, mappings[k].pattern, items[i]); }
      }
    }
  }

  lemma {:induction false} RoutedHas(items: seq<Item>)
    ensures forall x :: x in Routed(items) <==> x in items && x.meta.defaultRoute
  {
    if items != [] {
      RoutedHas(items[1..]);
      assert forall x :: x in items <==> x == items[0] || x in items[1..];
    }
  }

  lemma {:induction false} UnpinnedHas(items: seq<Item>, roles: Interfaces.Roles)
    ensures forall x :: x in Unpinned(items, roles) <==> x in items && x.device !in roles
  {
    if items != [] {
      UnpinnedHas(items[1..], roles);
      assert forall x :: x in items <==> x == items[0] || x in items[1..];
    }
  }

  lemma {:induction false} UnpinnedFirst(items: seq<Item>, roles: Interfaces.Roles, i: nat)
    requires i < |items| && items[i].device !in roles && forall j | 0 <= j < i :: items[j].device in roles
    ensures Unpinned(items, roles) != [] && Unpinned(items, roles)[0] == items[i]
  {
    if i > 0 { UnpinnedFirst(items[1..], roles, i - 1); }
  }

  /** The device chosen for WAN gets that role. */
  lemma ChosenIsWan(items: seq<Item>, pinned: Interfaces.Roles)
    requires Injective(pinned) && pinned.Keys <= Devices(items) && UniqueDevices(items)
    requires AllRoles(items, pinned).Ok? && Wan !in pinned.Values && Unpinned(items, pinned) != []
    ensures WanChoice(Unpinned(items, pinned)).Ok?
    ensures var w, roles := WanChoice(Unpinned(items, pinned)).value, AllRoles(items, pinned).value;
            w.device in roles && roles[w.device] == Wan
  {
    hide Devices, Unpinned, Remove, WanChoice, Filled, UniqueDevices;
    var rest := Unpinned(items, pinned);
    var w := WanChoice(rest).value;
    UnpinnedInside(items, pinned);
    WanChoiceInside(rest);
    RemoveDevices(rest, w);
    FreshPin(pinned, w.device, Wan);
    FilledInjective(Remove(rest, w), Filling(pinned[w.device := Wan], pinned.Values + {Wan}));
  }

  ghost predicate NoneRouted(a: seq<Assigned>, mappings: seq<Mapping>) {
    forall j | 0 <= j < |a| && Leftover(a[j].item, mappings) :: !a[j].item.meta.defaultRoute
  }

  /** With no mapping for WAN and a device per interface: the interface left over that carries the
      metadata's default route becomes WAN; if none carries it, the first one left over does. */
  lemma WanGoesTo(metas: seq<Meta>, detected: seq<Device>, mappings: seq<Mapping>, i: nat)
    requires Resolve(metas, detected, mappings).Ok? && (metas != [] || DistinctNames(detected)) && !PinsWan(mappings)
    requires i < |Resolve(metas, detected, mappings).value|
    requires Leftover(Resolve(metas, detected, mappings).value[i].item, mappings)
    ensures var a := Resolve(metas, detected, mappings).value;
            a[i].item.meta.defaultRoute ==> a[i].role == Wan
    ensures var a := Resolve(metas, detected, mappings).value;
            NoneRouted(a, mappings) && (forall j | 0 <= j < i :: !Leftover(a[j].item, mappings)) ==> a[i].role == Wan
  {
    var items := Resolved(metas, detected).value;
    var pinned := Pinned(mappings, items, map[]).value;
    var roles := AllRoles(items, pinned).value;
    var a := Resolve(metas, detected, mappings).value;
    ResolveAt(metas, detected, mappings);
    ResolvedUnique(metas, detected);
    hide Resolve, Resolved, Pinned, AllRoles, Answer, Leftover, Devices, UniqueDevices, Injective;
    PinnedRoles(mappings, items, map[], Wan);
    NoDevices(items);
    PinnedInjective(mappings, items, map[]);
    AllRolesInjective(items, pinned);
    assert a == Answer(items, roles) by { AnswerOf(metas, detected, mappings); }
    AnswerAt(items, roles, i);
    forall j | 0 <= j < |a| ensures Leftover(a[j].item, mappings) <==> items[j].device !in pinned {
      LeftoverIs(mappings, items, j);
    }
    WanAmong(items, pinned, i);
  }

  lemma AnswerOf(metas: seq<Meta>, detected: seq<Device>, mappings: seq<Mapping>)
    requires Resolve(metas, detected, mappings).Ok?
    ensures Resolved(metas, detected).Ok? && Pinned(mappings, Resolved(metas, detected).value, map[]).Ok?
    ensures var items := Resolved(metas, detected).value;
            var pinned := Pinned(mappings, items, map[]).value;
            AllRoles(items, pinned).Ok?
            && Resolve(metas, detected, mappings).value == Answer(items, AllRoles(items, pinned).value)
  {
    hide Resolved, Pinned, AllRoles, Answer;
  }

  lemma WanAmong(items: seq<Item>, pinned: Interfaces.Roles, i: nat)
    requires Injective(pinned) && pinned.Keys <= Devices(items) && UniqueDevices(items)
    requires AllRoles(items, pinned).Ok? && Wan !in pinned.Values && i < |items| && items[i].device !in pinned
    ensures var roles := AllRoles(items, pinned).value;
            var first := forall j | 0 <= j < i :: items[j].device in pinned;
            var none := forall j | 0 <= j < |items| && items[j].device !in pinned :: !items[j].meta.defaultRoute;
            && (items[i].meta.defaultRoute ==> items[i].device in roles && roles[items[i].device] == Wan)
            && (none && first ==> items[i].device in roles && roles[items[i].device] == Wan)
  {
    hide AllRoles, Devices, UniqueDevices, Unpinned, Routed, Injective, WanChoice;
    var rest := Unpinned(items, pinned);
    UnpinnedHas(items, pinned);
    RoutedHas(rest);
    assert items[i] in rest;
    ChosenIsWan(items, pinned);
    WanIsFound(rest, items[i]);
    if forall j | 0 <= j < i :: items[j].device in pinned { UnpinnedFirst(items, pinned, i); }
  }

  lemma WanIsFound(rest: seq<Item>, x: Item)
    requires x in rest && WanChoice(rest).Ok? && forall y :: y in Routed(rest) <==> y in rest && y.meta.defaultRoute
    ensures x.meta.defaultRoute ==> WanChoice(rest).value == x
    ensures (forall y | y in rest :: !y.meta.defaultRoute) ==> WanChoice(rest).value == rest[0]
  {
    var d := Routed(rest);
    hide Routed;
    if x.meta.defaultRoute { assert x in d; }
    if forall y | y in rest :: !y.meta.defaultRoute {
      if d != [] { assert d[0] in d; }
    }
  }

  // ----- when there is an answer -----

  ghost predicate NamesDevice(m: Meta, detected: seq<Device>) {
    exists d :: IsDeviceOf(m, detected, d)
  }

  ghost predicate SameDevice(m: Meta, n: Meta, detected: seq<Device>) {
    exists d :: IsDeviceOf(m, detected, d) && IsDeviceOf(n, detected, d)
  }

  /** Every interface of the metadata names a device, and no two name the same. */
  ghost predicate TiesFit(metas: seq<Meta>, detected: seq<Device>) {
    && (forall i | 0 <= i < |metas| :: NamesDevice(metas[i], detected))
    && (forall i, j | 0 <= i < j < |metas| :: !SameDevice(metas[i], metas[j], detected))
  }

  ghost predicate DevicesApart(metas: seq<Meta>, detected: seq<Device>, used: set<string>) {
    && (forall i | 0 <= i < |metas| ::
          DeviceOf(metas[i], detected).Ok? && DeviceOf(metas[i], detected).value !in used)
    && (forall i, j | 0 <= i < j < |metas| :: DeviceOf(metas[i], detected) != DeviceOf(metas[j], detected))
  }

  lemma {:induction false} TiedOk(metas: seq<Meta>, detected: seq<Device>, used: set<string>)
    ensures Tied(metas, detected, used).Ok? <==> DevicesApart(metas, detected, used)
    decreases |metas|
  {
    hide DeviceOf;
    if metas != [] {
      var d, rest := DeviceOf(metas[0], detected), metas[1..];
      assert forall i | 0 <= i < |rest| :: rest[i] == metas[i + 1];
      assert forall i | 0 < i < |metas| :: metas[i] == rest[i - 1];
      if d.Ok? { TiedOk(rest, detected, used + {d.value}); }
    }
  }

  lemma TiesFitIs(metas: seq<Meta>, detected: seq<Device>)
    ensures TiesFit(metas, detected) <==> DevicesApart(metas, detected, {})
  {
    hide DeviceOf, IsDeviceOf;
    if DevicesApart(metas, detected, {}) {
      forall i | 0 <= i < |metas| ensures NamesDevice(metas[i], detected) {
        DeviceOfIs(metas[i], detected, DeviceOf(metas[i], detected).value);
      }
      forall i, j | 0 <= i < j < |metas| ensures !SameDevice(metas[i], metas[j], detected) {
        forall d { DeviceOfIs(metas[i], detected, d); }
        forall d { DeviceOfIs(metas[j], detected, d); }
      }
    }
    if TiesFit(metas, detected) {
      forall i | 0 <= i < |metas| ensures DeviceOf(metas[i], detected).Ok? {
        assert NamesDevice(metas[i], detected);
        var d :| IsDeviceOf(metas[i], detected, d);
        DeviceOfIs(metas[i], detected, d);
      }
      forall i, j | 0 <= i < j < |metas| ensures DeviceOf(metas[i], detected) != DeviceOf(metas[j], detected) {
        assert NamesDevice(metas[i], detected);
        var d :| IsDeviceOf(metas[i], detected, d);
        assert !SameDevice(metas[i], metas[j], detected);
        DeviceOfIs(metas[i], detected, d);
        DeviceOfIs(metas[j], detected, d);
      }
    }
  }

  /** The same text but for the case of letters. */
  ghost predicate SameText(a: string, b: string) {
    |a| == |b| && forall i | 0 <= i < |a| :: Lower(a[i]) == Lower(b[i])
  }

  /** A pattern names an interface by its device, its name or its MAC; one without a name or MAC answers to
      "none" instead. */
  lemma FitsIs(item: Item, pattern: string)
    ensures Fits(item, pattern) <==>
            || SameText(pattern, item.device)
            || SameText(pattern, if item.meta.name.Some? then item.meta.name.value else "none")
            || SameText(pattern, if item.meta.mac.Some? then item.meta.mac.value else "none")
  {
    FoldedIs(pattern, item.device);
    FoldedIs(pattern, if item.meta.name.Some? then item.meta.name.value else "none");
    FoldedIs(pattern, if item.meta.mac.Some? then item.meta.mac.value else "none");
    NoneIsLower();
    hide Folded;
  }

  lemma FoldedIs(a: string, b: string)
    ensures Folded(a) == Folded(b) <==> SameText(a, b)
  {
    var x, y := Folded(a), Folded(b);
    if SameText(a, b) { assert x == y; } else if |a| == |b| { assert exists i :: 0 <= i < |a| && x[i] != y[i]; }
  }

  lemma NoneIsLower()
    ensures Folded("none") == "none"
  {
    assert forall i | 0 <= i < 4 :: Lower("none"[i]) == "none"[i];
  }

  /** The pattern is, but for case, the device, the name or the MAC of interface i, and of no other. */
  ghost predicate OnlyFit(items: seq<Item>, pattern: string, i: nat) {
    i < |items| && Fits(items[i], pattern) && forall j | 0 <= j < |items| && j != i :: !Fits(items[j], pattern)
  }

  ghost predicate FitsOne(items: seq<Item>, pattern: string) {
    exists i: nat :: OnlyFit(items, pattern, i)
  }

  /** The patterns fit interfaces on one device. */
  ghost predicate Clash(items: seq<Item>, p: string, q: string) {
    exists i, j :: 0 <= i < |items| && 0 <= j < |items| && Fits(items[i], p) && Fits(items[j], q)
                   && items[i].device == items[j].device
  }

  /** Every mapping has a role and fits exactly one interface, no two have one role, and no two fit
      interfaces on one device. */
  ghost predicate PinsFit(items: seq<Item>, mappings: seq<Mapping>) {
    && (forall k | 0 <= k < |mappings| :: mappings[k].role.Some? && FitsOne(items, mappings[k].pattern))
    && (forall k, l | 0 <= k < l < |mappings| :: mappings[k].role != mappings[l].role)
    && (forall k, l | 0 <= k < l < |mappings| :: !Clash(items, mappings[k].pattern, mappings[l].pattern))
  }

  lemma {:induction false} NoneFitting(items: seq<Item>, pattern: string)
    ensures Fitting(items, pattern) == [] <==> forall j | 0 <= j < |items| :: !Fits(items[j], pattern)
  {
    hide Fits;
    if items != [] {
      NoneFitting(items[1..], pattern);
      assert forall j | 0 < j < |items| :: items[j] == items[1..][j - 1];
    }
  }

  lemma {:induction false} OneFitting(items: seq<Item>, pattern: string)
    ensures |Fitting(items, pattern)| == 1 <==> exists i: nat :: OnlyFit(items, pattern, i)
    ensures forall i: nat | OnlyFit(items, pattern, i) :: Fitting(items, pattern) == [items[i]]
  {
    hide Fits;
    if items != [] {
      var rest := items[1..];
      OneFitting(rest, pattern);
      NoneFitting(rest, pattern);
      assert forall j | 0 < j < |items| :: items[j] == rest[j - 1];
      forall i: nat ensures OnlyFit(items, pattern, i) <==>
                            if i == 0 then Fits(items[0], pattern) && Fitting(rest, pattern) == []
                            else OnlyFit(rest, pattern, i - 1) && !Fits(items[0], pattern) {
        FitStep(items, pattern, i);
      }
      if i: nat :| OnlyFit(rest, pattern, i) { assert OnlyFit(items, pattern, i + 1) <==> !Fits(items[0], pattern); }
      assert OnlyFit(items, pattern, 0) <==> Fits(items[0], pattern) && Fitting(rest, pattern) == [];
    }
  }

  lemma FitStep(items: seq<Item>, pattern: string, i: nat)
    requires items != []
    ensures OnlyFit(items, pattern, i) <==>
            if i == 0 then Fits(items[0], pattern) && Fitting(items[1..], pattern) == []
            else OnlyFit(items[1..], pattern, i - 1) && !Fits(items[0], pattern)
  {
    hide Fits, Fitting;
    var rest := items[1..];
    NoneFitting(rest, pattern);
    assert forall j | 0 < j < |items| :: items[j] == rest[j - 1];
    assert forall j | 0 <= j < |rest| :: rest[j] == items[j + 1];
  }

  /** The same over the devices that the fitting interfaces have. */
  ghost predicate PinsApart(items: seq<Item>, mappings: seq<Mapping>, roles: Interfaces.Roles) {
    && (forall k | 0 <= k < |mappings| ::
          && mappings[k].role.Some? && |Fitting(items, mappings[k].pattern)| == 1
          && mappings[k].role.value !in roles.Values && Fitting(items, mappings[k].pattern)[0].device !in roles)
    && (forall k, l | 0 <= k < l < |mappings| :: mappings[k].role != mappings[l].role)
    && (forall k, l | 0 <= k < l < |mappings| ::
          Fitting(items, mappings[k].pattern)[0].device != Fitting(items, mappings[l].pattern)[0].device)
  }

  lemma {:induction false} PinnedOk(mappings: seq<Mapping>, items: seq<Item>, roles: Interfaces.Roles)
    ensures Pinned(mappings, items, roles).Ok? <==> PinsApart(items, mappings, roles)
    decreases |mappings|
  {
    hide Fitting;
    if mappings != [] {
      var m, rest := mappings[0], mappings[1..];
      var fits := Fitting(items, m.pattern);
      if m.role.Some? && |fits| == 1 && m.role.value !in roles.Values && fits[0].device !in roles {
        var roles' := roles[fits[0].device := m.role.value];
        ValuesPlus(roles, fits[0].device, m.role.value);
        PinnedOk(rest, items, roles');
        PinsStep(items, mappings, roles);
      }
    }
  }

  lemma PinsStep(items: seq<Item>, mappings: seq<Mapping>, roles: Interfaces.Roles)
    requires mappings != [] && mappings[0].role.Some? && |Fitting(items, mappings[0].pattern)| == 1
    requires mappings[0].role.value !in roles.Values && Fitting(items, mappings[0].pattern)[0].device !in roles
    ensures var d := Fitting(items, mappings[0].pattern)[0].device;
            PinsApart(items, mappings, roles) <==> PinsApart(items, mappings[1..], roles[d := mappings[0].role.value])
  {
    hide Fitting;
    var d, rest := Fitting(items, mappings[0].pattern)[0].device, mappings[1..];
    ValuesPlus(roles, d, mappings[0].role.value);
    assert forall k | 0 <= k < |rest| :: rest[k] == mappings[k + 1];
    assert forall k | 0 < k < |mappings| :: mappings[k] == rest[k - 1];
  }

  lemma FittingOne(items: seq<Item>, pattern: string, i: nat)
    requires |Fitting(items, pattern)| == 1 && i < |items| && Fits(items[i], pattern)
    ensures Fitting(items, pattern)[0] == items[i]
  {
    hide Fits;
    FittingHas(items, pattern, items[i]);
  }

  lemma FittingSome(items: seq<Item>, pattern: string) returns (i: nat)
    requires |Fitting(items, pattern)| == 1
    ensures i < |items| && items[i] == Fitting(items, pattern)[0] && Fits(items[i], pattern)
  {
    hide Fits;
    var x := Fitting(items, pattern)[0];
    FittingInside(items, pattern);
    FittingFrom(items, pattern, x);
    i :| i < |items| && items[i] == x;
  }

  lemma PinsFitIs(items: seq<Item>, mappings: seq<Mapping>)
    ensures PinsFit(items, mappings) <==> PinsApart(items, mappings, map[])
  {
    hide Fits, Fitting, OnlyFit;
    forall k | 0 <= k < |mappings|
      ensures |Fitting(items, mappings[k].pattern)| == 1 <==> FitsOne(items, mappings[k].pattern)
    {
      OneFitting(items, mappings[k].pattern);
    }
    if PinsApart(items, mappings, map[]) {
      forall k, l | 0 <= k < l < |mappings| ensures !Clash(items, mappings[k].pattern, mappings[l].pattern) {
        ClashIs(items, mappings[k].pattern, mappings[l].pattern);
      }
    }
    if PinsFit(items, mappings) {
      forall k, l | 0 <= k < l < |mappings|
        ensures Fitting(items, mappings[k].pattern)[0].device != Fitting(items, mappings[l].pattern)[0].device
      {
        ClashIs(items, mappings[k].pattern, mappings[l].pattern);
      }
    }
  }

  lemma ClashIs(items: seq<Item>, p: string, q: string)
    requires |Fitting(items, p)| == 1 && |Fitting(items, q)| == 1
    ensures Clash(items, p, q) <==> Fitting(items, p)[0].device == Fitting(items, q)[0].device
  {
    hide Fits, Fitting;
    var i := FittingSome(items, p);
    var j := FittingSome(items, q);
    if Clash(items, p, q) {
      var k, l :| 0 <= k < |items| && 0 <= l < |items| && Fits(items[k], p) && Fits(items[l], q)
                  && items[k].device == items[l].device;
      FittingOne(items, p, k);
      FittingOne(items, q, l);
    }
  }

  /** At most one of the interfaces left over carries the default route. */
  ghost predicate OneRoute(items: seq<Item>, mappings: seq<Mapping>) {
    forall i, j | 0 <= i < j < |items| && Leftover(items[i], mappings) && Leftover(items[j], mappings) ::
      !(items[i].meta.defaultRoute && items[j].meta.defaultRoute)
  }

  ghost predicate OneRouted(items: seq<Item>) {
    forall i, j | 0 <= i < j < |items| :: !(items[i].meta.defaultRoute && items[j].meta.defaultRoute)
  }

  lemma {:induction false} NoneRoutedIs(items: seq<Item>)
    ensures Routed(items) == [] <==> forall j | 0 <= j < |items| :: !items[j].meta.defaultRoute
  {
    if items != [] {
      NoneRoutedIs(items[1..]);
      assert forall j | 0 < j < |items| :: items[j] == items[1..][j - 1];
    }
  }

  lemma {:induction false} OneRoutedIs(items: seq<Item>)
    ensures |Routed(items)| <= 1 <==> OneRouted(items)
  {
    if items != [] {
      var rest := items[1..];
      OneRoutedIs(rest);
      NoneRoutedIs(rest);
      assert forall j | 0 < j < |items| :: items[j] == rest[j - 1];
      assert forall j | 0 <= j < |rest| :: rest[j] == items[j + 1];
    }
  }

  lemma {:induction false} UnpinnedFrom(items: seq<Item>, roles: Interfaces.Roles, p: nat, q: nat)
    returns (i: nat, j: nat)
    requires p < q < |Unpinned(items, roles)|
    ensures i < j < |items| && items[i] == Unpinned(items, roles)[p] && items[j] == Unpinned(items, roles)[q]
    ensures items[i].device !in roles && items[j].device !in roles
    decreases |items|
  {
    var rest := items[1..];
    if items[0].device in roles {
      i, j := UnpinnedFrom(rest, roles, p, q);
      i, j := i + 1, j + 1;
    } else if p > 0 {
      i, j := UnpinnedFrom(rest, roles, p - 1, q - 1);
      i, j := i + 1, j + 1;
    } else {
      UnpinnedHas(rest, roles);
      var x := Unpinned(rest, roles)[q - 1];
      assert x in rest;
      j :| j < |rest| && rest[j] == x;
      i, j := 0, j + 1;
    }
  }

  lemma OneRouteIs(items: seq<Item>, pinned: Interfaces.Roles, mappings: seq<Mapping>)
    requires forall i | 0 <= i < |items| :: Leftover(items[i], mappings) <==> items[i].device !in pinned
    ensures OneRoute(items, mappings) <==> OneRouted(Unpinned(items, pinned))
  {
    hide Leftover, Unpinned;
    var rest := Unpinned(items, pinned);
    if !OneRouted(rest) {
      var p: nat, q: nat :| p < q < |rest| && rest[p].meta.defaultRoute && rest[q].meta.defaultRoute;
      var i, j := UnpinnedFrom(items, pinned, p, q);
    }
    if !OneRoute(items, mappings) {
      var i: nat, j: nat :| i < j < |items| && Leftover(items[i], mappings) && Leftover(items[j], mappings)
                            && items[i].meta.defaultRoute && items[j].meta.defaultRoute;
      var p, q := UnpinnedOrder(items, pinned, i, j);
    }
  }

  /** The allocator answers exactly when the interfaces name different devices, every mapping fits one
      interface and no two clash, and WAN is pinned or at most one interface left over carries the
      default route. Otherwise it reports an error. */
  lemma ResolvesExactly(metas: seq<Meta>, detected: seq<Device>, mappings: seq<Mapping>)
    requires metas != [] || DistinctNames(detected)
    ensures Resolved(metas, detected).Ok? <==> metas == [] || TiesFit(metas, detected)
    ensures Resolve(metas, detected, mappings).Ok? <==>
            && Resolved(metas, detected).Ok?
            && var items := Resolved(metas, detected).value;
            PinsFit(items, mappings) && (PinsWan(mappings) || OneRoute(items, mappings))
  {
    if metas != [] {
      TiedOk(metas, detected, {});
      TiesFitIs(metas, detected);
    }
    hide TiesFit, PinsFit, PinsWan, OneRoute, Tied;
    if Resolved(metas, detected).Ok? {
      var items := Resolved(metas, detected).value;
      ResolvedUnique(metas, detected);
      PinnedOk(mappings, items, map[]);
      PinsFitIs(items, mappings);
      if PinsFit(items, mappings) { RoutesExactly(items, mappings); }
    }
  }

  lemma RoutesExactly(items: seq<Item>, mappings: seq<Mapping>)
    requires UniqueDevices(items) && Pinned(mappings, items, map[]).Ok?
    ensures AllRoles(items, Pinned(mappings, items, map[]).value).Ok? <==>
            PinsWan(mappings) || OneRoute(items, mappings)
  {
    hide Pinned, Leftover, UniqueDevices, OneRoute, OneRouted, Unpinned, Routed;
    var pinned := Pinned(mappings, items, map[]).value;
    PinnedRoles(mappings, items, map[], Wan);
    forall i | 0 <= i < |items| ensures Leftover(items[i], mappings) <==> items[i].device !in pinned {
      LeftoverIs(mappings, items, i);
    }
    OneRouteIs(items, pinned, mappings);
    OneRoutedIs(Unpinned(items, pinned));
    NoRoute();
  }

  lemma NoRoute()
    ensures Routed([]) == []
  {}
}
