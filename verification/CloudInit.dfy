/** The cloud-init adapter: metadata in, four files out, in this order: the configuration,
    root's authorized keys, the Fleet join seed, and the record of what was applied. A run
    may be skipped, may fail before it writes, and may be cut after any of the four. */
module CloudInit {
  import opened Wrappers
  import opened Interfaces

  datatype Cidr = Cidr(text: string, v6: bool)

  /** Metadata after normalisation; `declaresKeys` is set when raw user-data mentions keys. */
  datatype Metadata = Metadata(instanceId: string, keys: seq<string>, declaresKeys: bool,
                               network: seq<Meta>, mappings: seq<Mapping>, fleet: Option<string>,
                               cidrs: seq<Cidr>, hostname: string, timezone: string)

  datatype Admin = Admin(bcrypt: Option<string>, sha512: Option<string>, md5: Option<string>,
                         password: Option<string>, authorizedKeys: Option<seq<string>>)

  datatype Gateway = Gateway(role: Role, address: string, v6: bool, cloud: bool)

  datatype FilterRule = FilterRule(source: Option<string>, v6: bool, temporary: bool)

  /** config.xml; `admin` is None when there is no such account. */
  datatype Config = Config(hostname: Option<string>, domain: Option<string>, timezone: Option<string>,
                           admin: Option<Admin>, sshKeyOnly: bool, noAntiLockout: bool,
                           interfaces: seq<Assigned>, gateways: seq<Gateway>, dns: seq<string>,
                           rules: seq<FilterRule>, instanceId: Option<string>, nodeId: string)

  datatype Record = Record(instanceId: string, keyCount: nat, cidrs: seq<Cidr>)

  /** The four files; None is missing, and for the configuration and the record unreadable. */
  datatype Disk = Disk(config: Option<Config>, keys: Option<seq<string>>, seed: Option<string>, record: Option<Record>)

  datatype Failure = BlankInstanceId | KeysNotImported | BadInterfaces(error: Error) | Unreadable | BadHostname
      | BadTimezone | NoAdmin

  // ----- decisions -----

  predicate AppliedBefore(d: Disk, id: string) {
    d.record.Some? && d.record.value.instanceId == id
  }

  predicate Configured(d: Disk, id: string) {
    d.config.Some? && d.config.value.instanceId == Some(id)
  }

  /** The record already covers this metadata: no keys or CIDRs arrived late. */
  predicate RecordCovers(r: Record, md: Metadata) {
    && r.instanceId == md.instanceId
    && !(md.keys != [] && r.keyCount == 0)
    && !(md.cidrs != [] && r.cidrs == [] && md.keys != [])
  }

  /** should_skip_apply. */
  predicate ShouldSkip(d: Disk, md: Metadata) {
    d.record.Some? && RecordCovers(d.record.value, md) && Configured(d, md.instanceId)
  }

  /** The image's password is locked unless this instance is recorded on both sides. */
  predicate MustLock(d: Disk, md: Metadata) {
    !(AppliedBefore(d, md.instanceId) && Configured(d, md.instanceId))
  }

  // ----- the configuration -----

  /** What str.strip removes. */
  predicate IsSpace(c: char) {
    || '\U{9}' <= c <= '\U{d}' || '\U{1c}' <= c <= ' ' || c == '\U{85}' || c == '\U{a0}' || c == '\U{1680}'
    || '\U{2000}' <= c <= '\U{200a}' || c == '\U{2028}' || c == '\U{2029}' || c == '\U{202f}' || c == '\U{205f}'
    || c == '\U{3000}'
  }

  predicate IsBlank(s: string) {
    s == "" || (IsSpace(s[0]) && IsBlank(s[1..]))
  }

  predicate HasDotDot(s: string) {
    |s| >= 2 && ((s[0] == '.' && s[1] == '.') || HasDotDot(s[1..]))
  }

  function StripDots(s: string): string {
    if s != "" && s[|s| - 1] == '.' then StripDots(s[..|s| - 1]) else s
  }

  function FirstDot(s: string): (r: Option<nat>)
    ensures r.Some? ==> r.value < |s| && s[r.value] == '.'
  {
    if s == "" then None
    else if s[0] == '.' then Some(0)
    else match FirstDot(s[1..]) case None => None case Some(i) => Some(i + 1)
  }

  function Named(c: Config, hostname: string): Config {
    var h := StripDots(hostname);
    match FirstDot(h)
    case None => c.(hostname := Some(h))
    case Some(i) => c.(hostname := Some(h[..i]), domain := Some(h[i + 1..]))
  }

  function Locked(a: Admin): Admin {
    a.(bcrypt := None, sha512 := None, md5 := None, password := Some("*LOCKED*"))
  }

  function OnlyV6(s: seq<Address>): seq<Address> {
    if s == [] then [] else if s[0].v6 then [s[0]] + OnlyV6(s[1..]) else OnlyV6(s[1..])
  }

  /** A single interface is always WAN, by DHCP, without an IPv4 gateway. */
  function Adjusted(asg: seq<Assigned>): seq<Assigned> {
    if |asg| != 1 then asg
    else
      var m := asg[0].item.meta;
      var s := m.settings.(dhcp4 := true, addresses := OnlyV6(m.settings.addresses), gateway4 := None);
      [Assigned(Wan, asg[0].item.(meta := m.(settings := s)))]
  }

  function OwnGateways(g: seq<Gateway>): seq<Gateway> {
    if g == [] then [] else if g[0].cloud then OwnGateways(g[1..]) else [g[0]] + OwnGateways(g[1..])
  }

  function CloudGateways(asg: seq<Assigned>): seq<Gateway> {
    if asg == [] then []
    else
      var s := asg[0].item.meta.settings;
      (if s.gateway4.Some? then [Gateway(asg[0].role, s.gateway4.value, false, true)] else [])
      + (if s.gateway6.Some? then [Gateway(asg[0].role, s.gateway6.value, true, true)] else [])
      + CloudGateways(asg[1..])
  }

  function OwnRules(r: seq<FilterRule>): seq<FilterRule> {
    if r == [] then [] else if r[0].temporary then OwnRules(r[1..]) else [r[0]] + OwnRules(r[1..])
  }

  function RulesFor(cidrs: seq<Cidr>): seq<FilterRule> {
    if cidrs == [] then [] else [FilterRule(Some(cidrs[0].text), cidrs[0].v6, true)] + RulesFor(cidrs[1..])
  }

  /** The temporary SSH rules; with no CIDRs, from anywhere over both protocols. */
  function TemporaryRules(md: Metadata, single: bool): seq<FilterRule> {
    if !single || md.keys == [] then []
    else if md.cidrs == [] then [FilterRule(None, false, true), FilterRule(None, true, true)]
    else RulesFor(md.cidrs)
  }

  function AllDns(asg: seq<Assigned>): seq<string> {
    if asg == [] then [] else asg[0].item.meta.settings.dns + AllDns(asg[1..])
  }

  function Once(s: seq<string>, seen: set<string>): seq<string>
    decreases |s|
  {
    if s == [] then [] else if s[0] in seen then Once(s[1..], seen) else [s[0]] + Once(s[1..], seen + {s[0]})
  }

  /** The edits to the tree, for an account that exists. */
  function Rewritten(c: Config, a: Admin, md: Metadata, asg: seq<Assigned>, lock: bool): Config {
    var a1 := if lock then Locked(a) else a;
    var a2 := if md.keys != [] then a1.(authorizedKeys := Some(md.keys)) else a1;
    var c1 := if md.hostname != "" then Named(c, md.hostname) else c;
    c1.(noAntiLockout := c.noAntiLockout || |asg| == 1,
        timezone := if md.timezone != "" then Some(md.timezone) else c.timezone,
        admin := Some(a2),
        sshKeyOnly := c.sshKeyOnly || md.keys != [],
        interfaces := asg,
        gateways := OwnGateways(c.gateways) + CloudGateways(asg),
        dns := Once(AllDns(asg), {}),
        rules := OwnRules(c.rules) + TemporaryRules(md, |asg| == 1),
        instanceId := Some(md.instanceId))
  }

  /** The four files after an uncut run that is not skipped. */
  function Plan(d: Disk, md: Metadata, detected: seq<Device>): Result<Disk, Failure> {
    match Resolve(md.network, detected, md.mappings)
    case Err(e) => Err(BadInterfaces(e))
    case Ok(found) =>
      if d.config.None? then Err(Unreadable)
      else if |md.hostname| > 253 then Err(BadHostname)
      else if HasDotDot(md.timezone) || (md.timezone != "" && md.timezone[0] == '/') then Err(BadTimezone)
      else if d.config.value.admin.None? then Err(NoAdmin)
      else
        var c := d.config.value;
        var c' := Rewritten(c, c.admin.value, md, Adjusted(found), MustLock(d, md));
        Ok(Disk(Some(c'),
                if md.keys != [] then Some(md.keys) else None,
                if md.fleet.Some? && c'.nodeId == "" then md.fleet else d.seed,
                Some(Record(md.instanceId, |md.keys|, md.cidrs))))
  }

  // ----- runs -----

  datatype Outcome = Done | Skipped | Interrupted | Failed(failure: Failure)

  /** The disk when a run towards `t` is cut after `n` of its four replacements. */
  function Upto(d: Disk, t: Disk, n: nat): Disk {
    Disk(if n >= 1 then t.config else d.config, if n >= 2 then t.keys else d.keys,
         if n >= 3 then t.seed else d.seed, if n >= 4 then t.record else d.record)
  }

  datatype Step = Step(disk: Disk, outcome: Outcome)

  /** apply, cut after `n` replacements (4 or more: not cut). */
  function Run(d: Disk, md: Metadata, detected: seq<Device>, n: nat): Step {
    if IsBlank(md.instanceId) then Step(d, Failed(BlankInstanceId))
    else if md.declaresKeys && md.keys == [] then Step(d, Failed(KeysNotImported))
    else if ShouldSkip(d, md) then Step(d, Skipped)
    else match Plan(d, md, detected)
      case Err(e) => Step(d, Failed(e))
      case Ok(t) => Step(Upto(d, t, n), if n >= 4 then Done else Interrupted)
  }

  // ----- rewriting twice is rewriting once -----

  lemma {:induction false} OwnGatewaysAppend(x: seq<Gateway>, y: seq<Gateway>)
    ensures OwnGateways(x + y) == OwnGateways(x) + OwnGateways(y)
  {
    if x == [] {
      assert x + y == y;
    } else {
      assert (x + y)[1..] == x[1..] + y;
      OwnGatewaysAppend(x[1..], y);
    }
  }

  lemma {:induction false} OwnGatewaysTwice(x: seq<Gateway>)
    ensures OwnGateways(OwnGateways(x)) == OwnGateways(x)
  {
    if x != [] {
      OwnGatewaysTwice(x[1..]);
      assert !x[0].cloud ==> OwnGateways(x)[1..] == OwnGateways(x[1..]);
    }
  }

  lemma {:induction false} CloudGatewaysNotOwn(asg: seq<Assigned>)
    ensures OwnGateways(CloudGateways(asg)) == []
  {
    if asg != [] {
      var s := asg[0].item.meta.settings;
      var x := if s.gateway4.Some? then [Gateway(asg[0].role, s.gateway4.value, false, true)] else [];
      var y := if s.gateway6.Some? then [Gateway(asg[0].role, s.gateway6.value, true, true)] else [];
      CloudGatewaysNotOwn(asg[1..]);
      OwnGatewaysAppend(x + y, CloudGateways(asg[1..]));
      OwnGatewaysAppend(x, y);
    }
  }

  lemma {:induction false} OwnRulesAppend(x: seq<FilterRule>, y: seq<FilterRule>)
    ensures OwnRules(x + y) == OwnRules(x) + OwnRules(y)
  {
    if x == [] {
      assert x + y == y;
    } else {
      assert (x + y)[1..] == x[1..] + y;
      OwnRulesAppend(x[1..], y);
    }
  }

  lemma {:induction false} OwnRulesTwice(x: seq<FilterRule>)
    ensures OwnRules(OwnRules(x)) == OwnRules(x)
  {
    if x != [] {
      OwnRulesTwice(x[1..]);
      assert !x[0].temporary ==> OwnRules(x)[1..] == OwnRules(x[1..]);
    }
  }

  lemma {:induction false} RulesForNotOwn(cidrs: seq<Cidr>)
    ensures OwnRules(RulesFor(cidrs)) == []
  {
    if cidrs != [] { RulesForNotOwn(cidrs[1..]); }
  }

  lemma TemporaryNotOwn(md: Metadata, single: bool)
    ensures OwnRules(TemporaryRules(md, single)) == []
  {
    RulesForNotOwn(md.cidrs);
    var x, y := FilterRule(None, false, true), FilterRule(None, true, true);
    assert [x, y] == [x] + [y];
    OwnRulesAppend([x], [y]);
  }

  lemma GatewaysTwice(g: seq<Gateway>, asg: seq<Assigned>)
    ensures OwnGateways(OwnGateways(g) + CloudGateways(asg)) == OwnGateways(g)
  {
    OwnGatewaysAppend(OwnGateways(g), CloudGateways(asg));
    OwnGatewaysTwice(g);
    CloudGatewaysNotOwn(asg);
  }

  lemma RulesTwice(r: seq<FilterRule>, md: Metadata, single: bool)
    ensures OwnRules(OwnRules(r) + TemporaryRules(md, single)) == OwnRules(r)
  {
    OwnRulesAppend(OwnRules(r), TemporaryRules(md, single));
    OwnRulesTwice(r);
    TemporaryNotOwn(md, single);
  }

  lemma RewrittenTwice(c: Config, a: Admin, md: Metadata, asg: seq<Assigned>, lock: bool, again: bool)
    requires again ==> lock
    ensures var c' := Rewritten(c, a, md, asg, lock);
            Rewritten(c', c'.admin.value, md, asg, again) == c'
  {
    hide OwnGateways, CloudGateways, OwnRules, TemporaryRules, Once, AllDns, StripDots, FirstDot;
    GatewaysTwice(c.gateways, asg);
    RulesTwice(c.rules, md, |asg| == 1);
  }

  // ----- a cut run and its repetition -----

  /** After a run that writes, one more run with the same metadata is skipped. */
  lemma RepeatedRunIsSkipped(d: Disk, md: Metadata, detected: seq<Device>, again: seq<Device>, n: nat)
    requires Run(d, md, detected, 4).outcome == Done
    ensures var full := Run(d, md, detected, 4).disk;
            Run(full, md, again, n) == Step(full, Skipped)
  {
    hide Plan;
    PlanWrites(d, md, detected);
  }

  /** The plan made on a half-written disk is the plan made before. */
  lemma PlanAfterCut(d: Disk, md: Metadata, detected: seq<Device>, n: nat)
    requires Plan(d, md, detected).Ok? && 1 <= n < 4
    ensures Plan(Upto(d, Plan(d, md, detected).value, n), md, detected) == Plan(d, md, detected)
  {
    hide Rewritten, Resolve, Adjusted;
    var found := Resolve(md.network, detected, md.mappings).value;
    var t := Plan(d, md, detected).value;
    var c, cut := d.config.value, Upto(d, t, n);
    RewrittenShape(c, c.admin.value, md, Adjusted(found), MustLock(d, md));
    RewrittenTwice(c, c.admin.value, md, Adjusted(found), MustLock(d, md), MustLock(cut, md));
  }

  lemma RewrittenShape(c: Config, a: Admin, md: Metadata, asg: seq<Assigned>, lock: bool)
    ensures var c' := Rewritten(c, a, md, asg, lock);
            c'.instanceId == Some(md.instanceId) && c'.nodeId == c.nodeId && c'.admin.Some?
  {}

  /** A run replaces one file after the other: the configuration, the keys, the seed, and the record last. */
  lemma OneFileAtATime(d: Disk, t: Disk)
    ensures Upto(d, t, 0) == d && Upto(d, t, 4) == t
    ensures Upto(d, t, 1) == Upto(d, t, 0).(config := t.config) && Upto(d, t, 2) == Upto(d, t, 1).(keys := t.keys)
    ensures Upto(d, t, 3) == Upto(d, t, 2).(seed := t.seed) && Upto(d, t, 4) == Upto(d, t, 3).(record := t.record)
  {}

  /** The three files after the configuration already are what this metadata asks for. */
  predicate OtherFilesCurrent(d: Disk, md: Metadata)
    requires d.config.Some?
  {
    && d.keys == (if md.keys != [] then Some(md.keys) else None)
    && (md.fleet.Some? && d.config.value.nodeId == "" ==> d.seed == md.fleet)
    && d.record == Some(Record(md.instanceId, |md.keys|, md.cidrs))
  }

  /** Cutting a run after any replacement and repeating it ends as the uncut run does, for
      every cut, exactly when the record of the disk does not already cover the metadata, or
      the other three files are current before the run. On a first provisioning the record names
      another instance or none, so the condition holds. */
  lemma CutRunConverges(d: Disk, md: Metadata, detected: seq<Device>)
    requires Run(d, md, detected, 4).outcome == Done
    ensures var full := Run(d, md, detected, 4).disk;
            d.config.Some?
            && ((forall n | 1 <= n < 4 :: Run(Run(d, md, detected, n).disk, md, detected, 4).disk == full)
                <==> d.record.None? || !RecordCovers(d.record.value, md) || OtherFilesCurrent(d, md))
    ensures !AppliedBefore(d, md.instanceId) ==>
              forall n | 1 <= n < 4 :: Run(Run(d, md, detected, n).disk, md, detected, 4) == Run(d, md, detected, 4)
  {
    hide Plan, RecordCovers;
    var full := Run(d, md, detected, 4).disk;
    var covered := d.record.Some? && RecordCovers(d.record.value, md);
    PlanWrites(d, md, detected);
    forall n | 1 <= n < 4
      ensures covered ==> Run(Run(d, md, detected, n).disk, md, detected, 4).disk == Upto(d, full, n)
      ensures !covered ==> Run(Run(d, md, detected, n).disk, md, detected, 4) == Run(d, md, detected, 4)
    {
      PlanAfterCut(d, md, detected, n);
    }
    if covered {
      assert Run(Run(d, md, detected, 1).disk, md, detected, 4).disk == Upto(d, full, 1);
      assert Upto(d, full, 1).config == full.config;
    }
    if !AppliedBefore(d, md.instanceId) { CoversOwn(d, md); }
  }

  lemma CoversOwn(d: Disk, md: Metadata)
    requires !AppliedBefore(d, md.instanceId)
    ensures d.record.Some? ==> !RecordCovers(d.record.value, md)
  {}

  lemma PlanWrites(d: Disk, md: Metadata, detected: seq<Device>)
    requires Plan(d, md, detected).Ok?
    ensures var t := Plan(d, md, detected).value;
            && Configured(t, md.instanceId) && d.config.Some?
            && t.keys == (if md.keys != [] then Some(md.keys) else None)
            && t.seed == (if md.fleet.Some? && d.config.value.nodeId == "" then md.fleet else d.seed)
            && t.record == Some(Record(md.instanceId, |md.keys|, md.cidrs))
  {
    hide Rewritten, Resolve, HasDotDot, Adjusted;
    var c, found := d.config.value, Resolve(md.network, detected, md.mappings).value;
    RewrittenShape(c, c.admin.value, md, Adjusted(found), MustLock(d, md));
  }

  // ----- a rollback is where convergence fails -----

  /** The image's own configuration: no instance, a default password. */
  const IMAGE := Config(None, None, None, Some(Admin(Some("default"), None, None, None, None)), false, false,
                        [], [], [], [], None, "")

  const ROLLED_BACK := Disk(Some(IMAGE), Some(["old key"]), None, Some(Record("i-1", 1, [])))

  const NEW_KEY := Metadata("i-1", ["new key"], false, [], [], None, [], "", "")

  /** A disk rolled back to the image's configuration, with its record intact: the run is cut
      after the configuration, its repetition is skipped, and the authorized keys stay old. */
  lemma RollbackCutKeepsOldKeys()
    ensures var devices := [Device("em0", "aa")];
            && Run(ROLLED_BACK, NEW_KEY, devices, 4).outcome == Done
            && Run(ROLLED_BACK, NEW_KEY, devices, 4).disk.keys == Some(["new key"])
            && var cut := Run(ROLLED_BACK, NEW_KEY, devices, 1).disk;
            && Run(cut, NEW_KEY, devices, 4) == Step(cut, Skipped) && cut.keys == Some(["old key"])
  {
    var devices := [Device("em0", "aa")];
    OneDevice(devices);
    PlanWrites(ROLLED_BACK, NEW_KEY, devices);
  }

  lemma OneDevice(detected: seq<Device>)
    requires |detected| == 1
    ensures Resolve([], detected, []).Ok?
  {
    var items := Default(detected, true);
    assert detected[1..] == [] && items[1..] == Default(detected[1..], false);
    UnpinnedAll(items);
    assert Routed(items) == [];
  }

  // ----- how often one instance is applied -----

  /** A start of the machine, or an administrator's edit, which keeps the instance id. */
  datatype Event = Boot(md: Metadata, detected: seq<Device>) | Edit(config: Config)

  function After(d: Disk, e: Event): Disk {
    match e
    case Boot(md, detected) => Run(d, md, detected, 4).disk
    case Edit(c) => d.(config := Some(c.(instanceId := if d.config.Some? then d.config.value.instanceId else None)))
  }

  predicate Writes(d: Disk, e: Event) {
    e.Boot? && Run(d, e.md, e.detected, 4).outcome == Done
  }

  function WriteCount(d: Disk, events: seq<Event>): nat
    decreases |events|
  {
    if events == [] then 0
    else (if Writes(d, events[0]) then 1 else 0) + WriteCount(After(d, events[0]), events[1..])
  }

  /** What is still missing from the record: everything, keys, CIDRs, or nothing. */
  function Missing(d: Disk, id: string): nat {
    if !(AppliedBefore(d, id) && Configured(d, id)) then 3
    else if d.record.value.keyCount == 0 then 2
    else if d.record.value.cidrs == [] then 1
    else 0
  }

  lemma WriteLowersMissing(d: Disk, md: Metadata, detected: seq<Device>)
    requires Run(d, md, detected, 4).outcome == Done
    ensures Missing(Run(d, md, detected, 4).disk, md.instanceId) < Missing(d, md.instanceId)
  {
    hide Plan;
    PlanWrites(d, md, detected);
  }

  /** Whatever the metadata says from start to start, an instance that is not rolled back has
      its configuration written at most three times. */
  lemma {:induction false} WritesBounded(d: Disk, events: seq<Event>, id: string)
    requires forall e | e in events :: e.Boot? ==> e.md.instanceId == id
    ensures WriteCount(d, events) <= Missing(d, id) <= 3
    decreases |events|
  {
    hide Run;
    if events != [] {
      var e := events[0];
      WritesBounded(After(d, e), events[1..], id);
      if Writes(d, e) {
        WriteLowersMissing(d, e.md, e.detected);
      } else {
        QuietEvent(d, e, id);
      }
    }
  }

  lemma QuietEvent(d: Disk, e: Event, id: string)
    requires !Writes(d, e)
    ensures Missing(After(d, e), id) == Missing(d, id)
  {
    hide Plan;
  }

  // ----- the administrator's password -----

  function Hashes(c: Config): set<string> {
    if c.admin.None? then {}
    else
      var a := c.admin.value;
      (if a.bcrypt.Some? then {a.bcrypt.value} else {}) + (if a.sha512.Some? then {a.sha512.value} else {})
      + (if a.md5.Some? then {a.md5.value} else {})
  }

  predicate SamePassword(c: Config, c': Config) {
    && c.admin.Some? && c'.admin.Some?
    && var a, a' := c.admin.value, c'.admin.value;
    && a.bcrypt == a'.bcrypt && a.sha512 == a'.sha512 && a.md5 == a'.md5 && a.password == a'.password
  }

  predicate IsLocked(c: Config) {
    c.admin.Some? && Hashes(c) == {} && c.admin.value.password == Some("*LOCKED*")
  }

  /** A run that writes keeps the administrator's password exactly when the instance is
      recorded both on the disk and in the configuration, or the account is locked anyway. */
  lemma PasswordKept(d: Disk, md: Metadata, detected: seq<Device>)
    requires Run(d, md, detected, 4).outcome == Done
    ensures var c, c' := d.config.value, Run(d, md, detected, 4).disk.config.value;
            SamePassword(c, c') <==> (AppliedBefore(d, md.instanceId) && Configured(d, md.instanceId)) || IsLocked(c)
    ensures MustLock(d, md) ==> IsLocked(Run(d, md, detected, 4).disk.config.value)
  {
    hide Resolve;
    var c := d.config.value;
    var found := Resolve(md.network, detected, md.mappings).value;
    RewrittenPassword(c, c.admin.value, md, Adjusted(found), MustLock(d, md));
  }

  lemma RewrittenPassword(c: Config, a: Admin, md: Metadata, asg: seq<Assigned>, lock: bool)
    requires c.admin == Some(a)
    ensures var c' := Rewritten(c, a, md, asg, lock);
            && (!lock ==> SamePassword(c, c') && Hashes(c') == Hashes(c))
            && (lock ==> IsLocked(c') && (SamePassword(c, c') <==> IsLocked(c)))
  {
    hide OwnGateways, CloudGateways, OwnRules, TemporaryRules, Once, AllDns, Named;
  }

  /** What can happen to a provisioned machine: a run, cut or not; a configuration saved by the
      administrator; a return to any configuration the disk ever held. */
  datatype Deed =
    | Provision(md: Metadata, detected: seq<Device>, n: nat)
    | Save(config: Config)
    | Rollback(index: nat)

  datatype World = World(disk: Disk, past: seq<Config>)

  /** A saved configuration keeps the instance id, and its password unless a new one is set;
      a new password never hashes to one of the image's hashes. */
  predicate Happens(w: World, e: Deed, w': World, image: Config) {
    && w'.past == (if w'.disk.config.Some? then w.past + [w'.disk.config.value] else w.past)
    && match e
       case Provision(md, detected, n) => w'.disk == Run(w.disk, md, detected, n).disk
       case Save(c) =>
         && w.disk.config.Some? && c.instanceId == w.disk.config.value.instanceId
         && (SamePassword(w.disk.config.value, c) || Hashes(c) !! Hashes(image))
         && w'.disk == w.disk.(config := Some(c))
       case Rollback(i) => i < |w.past| && w'.disk == w.disk.(config := Some(w.past[i]))
  }

  ghost predicate Story(worlds: seq<World>, deeds: seq<Deed>, image: Config) {
    && |worlds| == |deeds| + 1
    && worlds[0].disk.config == Some(image) && worlds[0].past == [image] && image.instanceId == None
    && forall i | 0 <= i < |deeds| :: Happens(worlds[i], deeds[i], worlds[i + 1], image)
  }

  ghost predicate NoImagePassword(c: Config, image: Config) {
    c.instanceId.Some? ==> Hashes(c) !! Hashes(image)
  }

  ghost predicate SafeWorld(w: World, image: Config) {
    && (forall c | c in w.past :: NoImagePassword(c, image))
    && (w.disk.config.Some? ==> NoImagePassword(w.disk.config.value, image))
  }

  lemma RunSafe(d: Disk, md: Metadata, detected: seq<Device>, n: nat, image: Config)
    requires d.config.Some? ==> NoImagePassword(d.config.value, image)
    ensures var d' := Run(d, md, detected, n).disk;
            d'.config.Some? ==> NoImagePassword(d'.config.value, image)
  {
    hide Resolve, Rewritten, Hashes;
    if Plan(d, md, detected).Ok? {
      var c := d.config.value;
      var found := Resolve(md.network, detected, md.mappings).value;
      RewrittenPassword(c, c.admin.value, md, Adjusted(found), MustLock(d, md));
    }
  }

  lemma SaveSafe(c: Config, c': Config, image: Config)
    requires NoImagePassword(c, image) && c'.instanceId == c.instanceId
    requires SamePassword(c, c') || Hashes(c') !! Hashes(image)
    ensures NoImagePassword(c', image)
  {}

  lemma DeedSafe(w: World, e: Deed, w': World, image: Config)
    requires SafeWorld(w, image) && Happens(w, e, w', image)
    ensures SafeWorld(w', image)
  {
    hide Run, Hashes, SamePassword, NoImagePassword;
    match e
    case Provision(md, detected, n) => RunSafe(w.disk, md, detected, n, image);
    case Save(c) => SaveSafe(w.disk.config.value, c, image);
    case Rollback(i) =>
  }

  /** Over any mix of runs, cuts, password changes and rollbacks, a configuration that carries
      an instance id never holds a password hash of the image. */
  lemma {:induction false} ImagePasswordNeverServed(worlds: seq<World>, deeds: seq<Deed>, image: Config, i: nat)
    requires Story(worlds, deeds, image) && i < |worlds|
    ensures SafeWorld(worlds[i], image)
    decreases i
  {
    if i > 0 {
      ImagePasswordNeverServed(worlds, deeds, image, i - 1);
      DeedSafe(worlds[i - 1], deeds[i - 1], worlds[i], image);
    }
  }

  // ----- what the edits amount to -----

  function TemporaryOnes(r: seq<FilterRule>): seq<FilterRule> {
    if r == [] then [] else if r[0].temporary then [r[0]] + TemporaryOnes(r[1..]) else TemporaryOnes(r[1..])
  }

  ghost predicate NoRepeats(s: seq<string>) {
    s == [] || (s[0] !in s[1..] && NoRepeats(s[1..]))
  }

  /** The sole interface's rules for SSH, by position: one per management network from that network,
      or without any one per protocol from anywhere; none without keys or with several interfaces. */
  ghost predicate RulesSet(rules: seq<FilterRule>, md: Metadata, single: bool) {
    if !single || md.keys == [] then rules == []
    else if md.cidrs == [] then rules == [FilterRule(None, false, true), FilterRule(None, true, true)]
    else |rules| == |md.cidrs|
         && forall i | 0 <= i < |rules| ::
              rules[i] == FilterRule(Some(md.cidrs[i].text), md.cidrs[i].v6, true)
  }

  function GatewayOf(a: Assigned, v6: bool): Option<string> {
    if v6 then a.item.meta.settings.gateway6 else a.item.meta.settings.gateway4
  }

  /** The interface of that role has that gateway. */
  ghost predicate HasGateway(asg: seq<Assigned>, role: Role, address: string, v6: bool) {
    exists i :: 0 <= i < |asg| && asg[i].role == role
                && Some(address) == GatewayOf(asg[i], v6)
  }

  ghost predicate HasServer(asg: seq<Assigned>, server: string) {
    exists i :: 0 <= i < |asg| && server in asg[i].item.meta.settings.dns
  }

  /** The name without its trailing dots is `h`: what stands before its first dot is the host name, what
      follows it the domain; without a dot the domain is left alone. */
  ghost predicate NamesSet(c: Config, c': Config, h: string) {
    && (forall i | 0 <= i < |h| && h[i] == '.' && '.' !in h[..i] ::
          c'.hostname == Some(h[..i]) && c'.domain == Some(h[i + 1..]))
    && ('.' !in h ==> c'.hostname == Some(h) && c'.domain == c.domain)
  }

  ghost predicate WithoutDots(name: string, h: string) {
    && |h| <= |name| && name[..|h|] == h && (forall i | |h| <= i < |name| :: name[i] == '.')
    && (h == "" || h[|h| - 1] != '.')
  }

  ghost predicate SystemSet(c: Config, c': Config, md: Metadata, single: bool) {
    && (md.hostname == "" ==> c'.hostname == c.hostname && c'.domain == c.domain)
    && (md.hostname != "" ==> exists h :: WithoutDots(md.hostname, h) && NamesSet(c, c', h))
    && c'.timezone == (if md.timezone == "" then c.timezone else Some(md.timezone))
    && (c'.noAntiLockout <==> c.noAntiLockout || single)
    && (c'.sshKeyOnly <==> c.sshKeyOnly || md.keys != [])
    && c'.instanceId == Some(md.instanceId) && c'.nodeId == c.nodeId
  }

  ghost predicate AccountSet(c: Config, c': Config, md: Metadata, lock: bool) {
    && c.admin.Some? && c'.admin.Some? && (if lock then IsLocked(c') else SamePassword(c, c'))
    && c'.admin.value.authorizedKeys == if md.keys == [] then c.admin.value.authorizedKeys else Some(md.keys)
  }

  /** The administrator's gateways are conserved, and the others are those of the interfaces. */
  ghost predicate GatewaysSet(before: seq<Gateway>, after: seq<Gateway>, asg: seq<Assigned>) {
    && (forall g: Gateway | !g.cloud :: multiset(after)[g] == multiset(before)[g])
    && (forall g: Gateway | g.cloud :: g in after <==> HasGateway(asg, g.role, g.address, g.v6))
  }

  /** The name servers of the interfaces, each once, the first one first. */
  ghost predicate ServersSet(dns: seq<string>, asg: seq<Assigned>) {
    && NoRepeats(dns) && (forall x :: x in dns <==> HasServer(asg, x))
    && (asg != [] && asg[0].item.meta.settings.dns != [] ==>
          dns != [] && dns[0] == asg[0].item.meta.settings.dns[0])
  }

  ghost predicate NetworkSet(c: Config, c': Config, asg: seq<Assigned>) {
    c'.interfaces == asg && GatewaysSet(c.gateways, c'.gateways, asg) && ServersSet(c'.dns, asg)
  }

  ghost predicate FilterSet(c: Config, c': Config, md: Metadata, single: bool) {
    && (forall r: FilterRule | !r.temporary :: multiset(c'.rules)[r] == multiset(c.rules)[r])
    && RulesSet(TemporaryOnes(c'.rules), md, single)
  }

  /** A configuration provisioned from another, field by field: what the administrator added stays, what
      an earlier run added is replaced, and the account is locked or keeps its password. */
  ghost predicate Provisioned(c: Config, c': Config, md: Metadata, asg: seq<Assigned>, lock: bool) {
    && SystemSet(c, c', md, |asg| == 1) && AccountSet(c, c', md, lock)
    && NetworkSet(c, c', asg) && FilterSet(c, c', md, |asg| == 1)
    && OwnGateways(c'.gateways) == OwnGateways(c.gateways) && OwnRules(c'.rules) == OwnRules(c.rules)
  }

  /** A sole interface is WAN, whatever it was found to be: by DHCP, with its IPv6 addresses only and
      without an IPv4 gateway; all else is as found. Several interfaces are as found. */
  ghost predicate SoleAdjusted(found: seq<Assigned>, asg: seq<Assigned>) {
    if |found| != 1 then asg == found
    else
      && |asg| == 1 && asg[0].role == Wan && asg[0].item.device == found[0].item.device
      && var m, m' := found[0].item.meta, asg[0].item.meta;
      && m'.name == m.name && m'.mac == m.mac && m'.defaultRoute == m.defaultRoute
      && m'.settings.dhcp4 && m'.settings.gateway4 == None
      && m'.settings.gateway6 == m.settings.gateway6 && m'.settings.dns == m.settings.dns
      && forall a :: multiset(m'.settings.addresses)[a] == if a.v6 then multiset(m.settings.addresses)[a] else 0
  }

  lemma {:induction false} OnlyV6Keeps(s: seq<Address>, a: Address)
    ensures multiset(OnlyV6(s))[a] == if a.v6 then multiset(s)[a] else 0
  {
    if s != [] {
      OnlyV6Keeps(s[1..], a);
      assert s == [s[0]] + s[1..];
    }
  }

  lemma SoleIsAdjusted(found: seq<Assigned>)
    ensures SoleAdjusted(found, Adjusted(found))
  {
    if |found| == 1 {
      forall a ensures multiset(Adjusted(found)[0].item.meta.settings.addresses)[a] ==
                       if a.v6 then multiset(found[0].item.meta.settings.addresses)[a] else 0 {
        OnlyV6Keeps(found[0].item.meta.settings.addresses, a);
      }
    }
  }

  lemma {:induction false} OwnGatewaysCount(s: seq<Gateway>, g: Gateway)
    ensures multiset(OwnGateways(s))[g] == if g.cloud then 0 else multiset(s)[g]
  {
    if s != [] {
      OwnGatewaysCount(s[1..], g);
      assert s == [s[0]] + s[1..];
    }
  }

  lemma {:induction false} OwnRulesCount(s: seq<FilterRule>, r: FilterRule)
    ensures multiset(OwnRules(s))[r] == if r.temporary then 0 else multiset(s)[r]
  {
    if s != [] {
      OwnRulesCount(s[1..], r);
      assert s == [s[0]] + s[1..];
    }
  }

  lemma {:induction false} CloudGatewaysHave(asg: seq<Assigned>, g: Gateway)
    ensures g in CloudGateways(asg) <==> g.cloud && HasGateway(asg, g.role, g.address, g.v6)
  {
    if asg != [] {
      var rest := asg[1..];
      CloudGatewaysHave(rest, g);
      hide CloudGateways;
      HasGatewayStep(asg, g);
      CloudGatewaysStep(asg, g);
    }
  }

  lemma CloudGatewaysStep(asg: seq<Assigned>, g: Gateway)
    requires asg != []
    ensures g in CloudGateways(asg) <==>
            g in CloudGateways(asg[1..])
            || (g.cloud && g.role == asg[0].role
                && Some(g.address) == GatewayOf(asg[0], g.v6))
  {}

  lemma HasGatewayStep(asg: seq<Assigned>, g: Gateway)
    requires asg != []
    ensures HasGateway(asg, g.role, g.address, g.v6) <==>
            HasGateway(asg[1..], g.role, g.address, g.v6)
            || (g.role == asg[0].role
                && Some(g.address) == GatewayOf(asg[0], g.v6))
  {
    var rest := asg[1..];
    if HasGateway(rest, g.role, g.address, g.v6) {
      var i :| 0 <= i < |rest| && rest[i].role == g.role
               && Some(g.address) == GatewayOf(rest[i], g.v6);
      assert asg[i + 1] == rest[i];
    }
    if HasGateway(asg, g.role, g.address, g.v6) {
      var i :| 0 <= i < |asg| && asg[i].role == g.role
               && Some(g.address) == GatewayOf(asg[i], g.v6);
      if i > 0 { assert rest[i - 1] == asg[i]; }
    }
  }

  lemma {:induction false} AllDnsHas(asg: seq<Assigned>, x: string)
    ensures x in AllDns(asg) <==> HasServer(asg, x)
  {
    if asg != [] {
      var rest := asg[1..];
      AllDnsHas(rest, x);
      if i :| 0 <= i < |rest| && x in rest[i].item.meta.settings.dns { assert asg[i + 1] == rest[i]; }
      if i :| 0 < i < |asg| && x in asg[i].item.meta.settings.dns { assert rest[i - 1] == asg[i]; }
    }
  }

  lemma OnceFirst(s: seq<string>)
    requires s != []
    ensures Once(s, {}) != [] && Once(s, {})[0] == s[0]
  {}

  lemma {:induction false} RulesForAt(cidrs: seq<Cidr>, i: nat)
    requires i < |cidrs|
    ensures |RulesFor(cidrs)| == |cidrs|
    ensures RulesFor(cidrs)[i] == FilterRule(Some(cidrs[i].text), cidrs[i].v6, true)
  {
    RulesForLength(cidrs);
    if i > 0 { RulesForAt(cidrs[1..], i - 1); }
  }

  lemma {:induction false} RulesForLength(cidrs: seq<Cidr>)
    ensures |RulesFor(cidrs)| == |cidrs|
  {
    if cidrs != [] { RulesForLength(cidrs[1..]); }
  }

  lemma TemporaryRulesSet(md: Metadata, single: bool)
    ensures RulesSet(TemporaryRules(md, single), md, single)
  {
    RulesForLength(md.cidrs);
    forall i: nat | i < |md.cidrs|
      ensures RulesFor(md.cidrs)[i] == FilterRule(Some(md.cidrs[i].text), md.cidrs[i].v6, true)
    {
      RulesForAt(md.cidrs, i);
    }
  }

  // ----- names -----

  lemma {:induction false} StripDotsIs(name: string)
    ensures WithoutDots(name, StripDots(name))
  {
    if name != "" && name[|name| - 1] == '.' {
      var t := name[..|name| - 1];
      StripDotsIs(t);
      assert t[..|StripDots(t)|] == name[..|StripDots(t)|];
    }
  }

  lemma {:induction false} FirstDotIs(h: string, i: nat)
    requires i < |h| && h[i] == '.' && '.' !in h[..i]
    ensures FirstDot(h) == Some(i)
  {
    if i > 0 {
      assert h[0] == h[..i][0] && h[1..][..i - 1] == h[..i][1..];
      FirstDotIs(h[1..], i - 1);
    }
  }

  lemma {:induction false} NoFirstDot(h: string)
    requires '.' !in h
    ensures FirstDot(h) == None
  {
    if h != "" { NoFirstDot(h[1..]); }
  }

  lemma NamedSets(c: Config, hostname: string)
    ensures NamesSet(c, Named(c, hostname), StripDots(hostname))
  {
    hide StripDots, FirstDot;
    var h := StripDots(hostname);
    if '.' !in h { NoFirstDot(h); }
    forall i: nat | i < |h| && h[i] == '.' && '.' !in h[..i] ensures FirstDot(h) == Some(i) { FirstDotIs(h, i); }
  }

  lemma {:induction false} TemporaryOnesAppend(x: seq<FilterRule>, y: seq<FilterRule>)
    ensures TemporaryOnes(x + y) == TemporaryOnes(x) + TemporaryOnes(y)
  {
    if x == [] {
      assert x + y == y;
    } else {
      assert (x + y)[1..] == x[1..] + y;
      TemporaryOnesAppend(x[1..], y);
    }
  }

  lemma {:induction false} OwnAreNotTemporary(x: seq<FilterRule>)
    ensures TemporaryOnes(OwnRules(x)) == []
  {
    if x != [] {
      OwnAreNotTemporary(x[1..]);
      assert !x[0].temporary ==> OwnRules(x)[1..] == OwnRules(x[1..]);
    }
  }

  lemma {:induction false} AllTemporary(y: seq<FilterRule>)
    requires forall r | r in y :: r.temporary
    ensures TemporaryOnes(y) == y
  {
    if y != [] { AllTemporary(y[1..]); }
  }

  lemma {:induction false} RulesForTemporary(cidrs: seq<Cidr>)
    ensures forall r | r in RulesFor(cidrs) :: r.temporary
  {
    if cidrs != [] { RulesForTemporary(cidrs[1..]); }
  }

  lemma {:induction false} OnceKeepsAll(s: seq<string>, seen: set<string>)
    ensures NoRepeats(Once(s, seen)) && forall x :: x in Once(s, seen) <==> x in s && x !in seen
    decreases |s|
  {
    if s != [] {
      assert forall x :: x in s <==> x == s[0] || x in s[1..];
      OnceKeepsAll(s[1..], if s[0] in seen then seen else seen + {s[0]});
    }
  }

  lemma RewrittenSystem(c: Config, a: Admin, md: Metadata, asg: seq<Assigned>, lock: bool)
    ensures SystemSet(c, Rewritten(c, a, md, asg, lock), md, |asg| == 1)
  {
    StripDotsIs(md.hostname);
    NamedSets(c, md.hostname);
    NamedKeeps(c, md.hostname);
    hide OwnGateways, CloudGateways, OwnRules, TemporaryRules, Once, AllDns, Named, StripDots, WithoutDots;
    assert md.hostname != "" ==> NamesSet(c, Rewritten(c, a, md, asg, lock), StripDots(md.hostname));
  }

  lemma GatewaysAreSet(before: seq<Gateway>, asg: seq<Assigned>)
    ensures GatewaysSet(before, OwnGateways(before) + CloudGateways(asg), asg)
  {
    hide OwnGateways, CloudGateways, HasGateway;
    var own, cloud := OwnGateways(before), CloudGateways(asg);
    forall g: Gateway | !g.cloud ensures multiset(own + cloud)[g] == multiset(before)[g] {
      OwnGatewaysCount(before, g);
      CloudGatewaysHave(asg, g);
      assert g !in multiset(cloud);
    }
    forall g: Gateway | g.cloud ensures g in own + cloud <==> HasGateway(asg, g.role, g.address, g.v6) {
      OwnGatewaysCount(before, g);
      assert g !in multiset(own);
      CloudGatewaysHave(asg, g);
    }
  }

  lemma ServersAreSet(asg: seq<Assigned>)
    ensures ServersSet(Once(AllDns(asg), {}), asg)
  {
    if asg != [] && asg[0].item.meta.settings.dns != [] { OnceFirst(AllDns(asg)); }
    hide Once, NoRepeats, HasServer;
    OnceKeepsAll(AllDns(asg), {});
    forall x ensures x in AllDns(asg) <==> HasServer(asg, x) { AllDnsHas(asg, x); }
  }

  lemma RewrittenNetwork(c: Config, a: Admin, md: Metadata, asg: seq<Assigned>, lock: bool)
    ensures NetworkSet(c, Rewritten(c, a, md, asg, lock), asg)
  {
    hide OwnGateways, CloudGateways, OwnRules, TemporaryRules, Once, AllDns, Named, GatewaysSet, ServersSet;
    GatewaysAreSet(c.gateways, asg);
    ServersAreSet(asg);
  }

  lemma RewrittenFilter(c: Config, a: Admin, md: Metadata, asg: seq<Assigned>, lock: bool)
    ensures FilterSet(c, Rewritten(c, a, md, asg, lock), md, |asg| == 1)
  {
    var own, temporary := OwnRules(c.rules), TemporaryRules(md, |asg| == 1);
    RulesForTemporary(md.cidrs);
    assert forall r | r in temporary :: r.temporary;
    hide OwnGateways, CloudGateways, OwnRules, TemporaryRules, Once, AllDns, Named, TemporaryOnes, RulesFor;
    forall r: FilterRule | !r.temporary ensures multiset(own + temporary)[r] == multiset(c.rules)[r] {
      OwnRulesCount(c.rules, r);
    }
    OwnAreNotTemporary(c.rules);
    TemporaryOnesAppend(own, temporary);
    AllTemporary(temporary);
    TemporaryRulesSet(md, |asg| == 1);
    assert [] + temporary == temporary;
  }

  lemma RewrittenAccount(c: Config, a: Admin, md: Metadata, asg: seq<Assigned>, lock: bool)
    requires c.admin == Some(a)
    ensures AccountSet(c, Rewritten(c, a, md, asg, lock), md, lock)
  {
    RewrittenPassword(c, a, md, asg, lock);
    hide OwnGateways, CloudGateways, OwnRules, TemporaryRules, Once, AllDns, Named, IsLocked, SamePassword;
  }

  /** Every rewriting provisions. */
  lemma RewrittenProvisions(c: Config, a: Admin, md: Metadata, asg: seq<Assigned>, lock: bool)
    requires c.admin == Some(a)
    ensures Provisioned(c, Rewritten(c, a, md, asg, lock), md, asg, lock)
  {
    hide OwnGateways, CloudGateways, OwnRules, TemporaryRules, Once, AllDns, Named, SystemSet, AccountSet, NetworkSet,
        FilterSet;
    RewrittenSystem(c, a, md, asg, lock);
    RewrittenAccount(c, a, md, asg, lock);
    RewrittenNetwork(c, a, md, asg, lock);
    RewrittenFilter(c, a, md, asg, lock);
    GatewaysTwice(c.gateways, asg);
    RulesTwice(c.rules, md, |asg| == 1);
  }

  // ----- a whole run -----

  /** This instance is recorded with what the metadata brings: keys and networks have not come late. */
  predicate Sealed(d: Disk, md: Metadata) {
    && d.record.Some? && d.record.value.instanceId == md.instanceId
    && d.config.Some? && d.config.value.instanceId == Some(md.instanceId)
    && (md.keys == [] || d.record.value.keyCount > 0)
    && (md.keys == [] || md.cidrs == [] || d.record.value.cidrs != [])
  }

  ghost predicate Blank(s: string) {
    forall i | 0 <= i < |s| :: IsSpace(s[i])
  }

  ghost predicate HasParent(s: string) {
    exists i :: 0 <= i < |s| - 1 && s[i] == '.' && s[i + 1] == '.'
  }

  lemma {:induction false} BlankIs(s: string)
    ensures IsBlank(s) <==> Blank(s)
  {
    if s != "" {
      BlankIs(s[1..]);
      assert forall i | 0 < i < |s| :: s[i] == s[1..][i - 1];
    }
  }

  lemma {:induction false} HasParentIs(s: string)
    ensures HasDotDot(s) <==> HasParent(s)
  {
    if |s| >= 2 {
      var t := s[1..];
      HasParentIs(t);
      if i :| 0 <= i < |t| - 1 && t[i] == '.' && t[i + 1] == '.' { assert s[i + 1] == '.' && s[i + 1 + 1] == '.'; }
      if i :| 0 < i < |s| - 1 && s[i] == '.' && s[i + 1] == '.' { assert t[i - 1] == '.' && t[i - 1 + 1] == '.'; }
    }
  }

  /** The metadata can be applied to this disk. */
  ghost predicate Applicable(d: Disk, md: Metadata, detected: seq<Device>) {
    && Resolve(md.network, detected, md.mappings).Ok?
    && d.config.Some? && d.config.value.admin.Some?
    && |md.hostname| <= 253 && !HasParent(md.timezone) && (md.timezone == "" || md.timezone[0] != '/')
  }

  /** A run writes exactly when the instance id is not blank, declared keys have arrived, the instance is
      not sealed with what the metadata brings, and the metadata can be applied; it is skipped exactly
      when it is sealed; otherwise it fails and the disk is untouched. */
  lemma RunsExactly(d: Disk, md: Metadata, detected: seq<Device>, n: nat)
    ensures var r := Run(d, md, detected, n);
            var valid := !Blank(md.instanceId) && (md.declaresKeys ==> md.keys != []);
            && (r.outcome == Skipped <==> valid && Sealed(d, md))
            && (r.outcome == Done <==> valid && !Sealed(d, md) && Applicable(d, md, detected) && n >= 4)
            && (r.outcome == Interrupted <==> valid && !Sealed(d, md) && Applicable(d, md, detected) && n < 4)
            && (r.outcome != Done && r.outcome != Interrupted ==> r.disk == d)
  {
    BlankIs(md.instanceId);
    HasParentIs(md.timezone);
    hide Resolve, Rewritten, Adjusted, IsBlank, HasDotDot, Blank, HasParent;
  }

  /** What a run that writes leaves: the configuration provisioned for the interfaces that were found,
      locked unless this instance was recorded on both sides before; the keys; the join seed, unless the
      machine has joined; and the record. */
  lemma RunProvisions(d: Disk, md: Metadata, detected: seq<Device>)
    requires Run(d, md, detected, 4).outcome == Done
    ensures var d' := Run(d, md, detected, 4).disk;
            && Resolve(md.network, detected, md.mappings).Ok? && d.config.Some? && d'.config.Some?
            && var c, c' := d.config.value, d'.config.value;
            && SoleAdjusted(Resolve(md.network, detected, md.mappings).value, c'.interfaces)
            && Provisioned(c, c', md, c'.interfaces,
                           !(d.record.Some? && d.record.value.instanceId == md.instanceId
                             && c.instanceId == Some(md.instanceId)))
            && d'.keys == (if md.keys == [] then None else Some(md.keys))
            && d'.seed == (if md.fleet.Some? && c.nodeId == "" then md.fleet else d.seed)
            && d'.record == Some(Record(md.instanceId, |md.keys|, md.cidrs))
  {
    hide Plan, Provisioned, SoleAdjusted, Rewritten, Adjusted, Resolve;
    var t := Plan(d, md, detected).value;
    PlanWrites(d, md, detected);
    PlanConfig(d, md, detected);
    var c, found := d.config.value, Resolve(md.network, detected, md.mappings).value;
    SoleIsAdjusted(found);
    RewrittenProvisions(c, c.admin.value, md, Adjusted(found), MustLock(d, md));
    RewrittenInterfaces(c, c.admin.value, md, Adjusted(found), MustLock(d, md));
  }

  lemma PlanConfig(d: Disk, md: Metadata, detected: seq<Device>)
    requires Plan(d, md, detected).Ok?
    ensures Resolve(md.network, detected, md.mappings).Ok? && d.config.Some? && d.config.value.admin.Some?
    ensures var c, found := d.config.value, Resolve(md.network, detected, md.mappings).value;
            Plan(d, md, detected).value.config ==
            Some(Rewritten(c, c.admin.value, md, Adjusted(found), MustLock(d, md)))
  {
    hide Resolve, Rewritten, Adjusted, HasDotDot;
  }

  lemma RewrittenInterfaces(c: Config, a: Admin, md: Metadata, asg: seq<Assigned>, lock: bool)
    ensures Rewritten(c, a, md, asg, lock).interfaces == asg
  {}

  /** Naming the machine touches its two names only. */
  lemma NamedKeeps(c: Config, hostname: string)
    ensures var n := Named(c, hostname);
            n == c.(hostname := n.hostname, domain := n.domain)
  {
    hide StripDots, FirstDot;
  }

  // ----- the adapter itself -----

  /** The four files of one machine. */
  class Machine {
    var config: Option<Config>
    var keys: Option<seq<string>>
    var seed: Option<string>
    var record: Option<Record>

    constructor (disk: Disk)
      ensures Files() == disk
    {
      config, keys, seed, record := disk.config, disk.keys, disk.seed, disk.record;
    }

    function Files(): Disk
      reads this
    {
      Disk(config, keys, seed, record)
    }

    /** The edits to the parsed tree, in the order they are made. */
    method EditTree(c: Config, admin: Admin, md: Metadata, asg: seq<Assigned>, lock: bool) returns (tree: Config)
      requires c.admin == Some(admin)
      ensures Provisioned(c, tree, md, asg, lock)
      ensures tree == Rewritten(c, admin, md, asg, lock)
    {
      RewrittenProvisions(c, admin, md, asg, lock);
      hide OwnGateways, CloudGateways, OwnRules, TemporaryRules, Once, AllDns, Named, Provisioned, Locked;
      tree := EditSystem(c, md, |asg| == 1);
      NamedKeeps(c, md.hostname);
      var account := EditAccount(admin, md, lock);
      tree := tree.(admin := Some(account), interfaces := asg);
      tree := tree.(gateways := OwnGateways(tree.gateways) + CloudGateways(asg));
      tree := tree.(dns := Once(AllDns(asg), {}));
      tree := tree.(rules := OwnRules(tree.rules) + TemporaryRules(md, |asg| == 1));
      tree := tree.(instanceId := Some(md.instanceId));
    }

    /** The system settings: anti-lockout, names, time zone, SSH by key only. */
    method EditSystem(c: Config, md: Metadata, single: bool) returns (tree: Config)
      ensures tree == (if md.hostname != "" then Named(c, md.hostname) else c)
                      .(noAntiLockout := c.noAntiLockout || single, sshKeyOnly := c.sshKeyOnly || md.keys != [],
                        timezone := if md.timezone != "" then Some(md.timezone) else c.timezone)
    {
      hide StripDots, FirstDot;
      tree := c;
      if single { tree := tree.(noAntiLockout := true); }
      if md.hostname != "" { tree := Named(tree, md.hostname); }
      if md.timezone != "" { tree := tree.(timezone := Some(md.timezone)); }
      if md.keys != [] { tree := tree.(sshKeyOnly := true); }
    }

    /** The administrator's account. */
    method EditAccount(admin: Admin, md: Metadata, lock: bool) returns (account: Admin)
      ensures lock ==> account.bcrypt.None? && account.sha512.None? && account.md5.None?
      ensures account == (if lock then Locked(admin) else admin)
                         .(authorizedKeys := if md.keys != [] then Some(md.keys) else admin.authorizedKeys)
    {
      account := admin;
      if lock { account := Locked(account); }
      if md.keys != [] { account := account.(authorizedKeys := Some(md.keys)); }
    }

    /** apply; power fails after `n` replacements, or not at all if `n` is 4 or more. */
    method Apply(md: Metadata, detected: seq<Device>, n: nat) returns (outcome: Outcome)
      modifies this
      ensures Step(Files(), outcome) == Run(old(Files()), md, detected, n)
    {
      hide Rewritten, Resolve;
      if IsBlank(md.instanceId) { return Failed(BlankInstanceId); }
      if md.declaresKeys && md.keys == [] { return Failed(KeysNotImported); }
      if ShouldSkip(Files(), md) { return Skipped; }
      var roles := ResolveInterfaces(md.network, detected, md.mappings);
      if roles.Err? { return Failed(BadInterfaces(roles.error)); }
      if config.None? { return Failed(Unreadable); }
      if |md.hostname| > 253 { return Failed(BadHostname); }
      if HasDotDot(md.timezone) || (md.timezone != "" && md.timezone[0] == '/') { return Failed(BadTimezone); }
      if config.value.admin.None? { return Failed(NoAdmin); }
      var lock := MustLock(Files(), md);
      var tree := EditTree(config.value, config.value.admin.value, md, Adjusted(roles.value), lock);
      if n == 0 { return Interrupted; }
      config := Some(tree);
      if n == 1 { return Interrupted; }
      keys := if md.keys != [] then Some(md.keys) else None;
      if n == 2 { return Interrupted; }
      if md.fleet.Some? && tree.nodeId == "" { seed := md.fleet; }
      if n == 3 { return Interrupted; }
      record := Some(Record(md.instanceId, |md.keys|, md.cidrs));
      return Done;
    }
  }
}
