# FreeSense daemons and provisioning tools, verified

A Dafny model of the parts of the FreeSense system ports that hold real state: the DNS table
daemon filterdns, the cloud-init adapter, the voucher tool, the event daemon
check_reload_status with its FastCGI clients, the interface address sort of the PHP module, the
Composer class loader, and the DHCP lease reader. `dafny verify dfyconfig.toml` checks all of it.

| file | what it models |
|---|---|
| `AddrList.dfy`, `Tables.dfy` | address lists synchronised by mark, copy and sweep; the calls that bring a kernel table along |
| `FilterDns.dfy`, `RoundRuns.dfy` | host threads, action threads and reloads as one interleaved transition system, entry by entry; what its labels say about its states |
| `MergeConfig.dfy`, `Reload.dfy`, `Loads.dfy` | parsing a configuration and merging it into the live one: actions, hosts, reference counts; the same line by line |
| `DaemonRuns.dfy` | whole histories of the daemon: rounds, host threads that leave, reloads of configuration files |
| `Interfaces.dfy`, `Roles.dfy`, `CloudInit.dfy` | the role allocator and what it answers, and whole histories of provisioning runs, cuts and rollbacks |
| `Voucher.dfy`, `VoucherCodes.dfy` | packing, the big-endian buffer, the text form, PRINT and CHECK; codes bit by bit and digit by digit |
| `RunQueue.dfy`, `QueueRuns.dfy` | the coalescing event queue, and the life of one entry over a run |
| `FastCgi.dfy`, `FastCgiRequests.dfy` | the request encoders against a reader written from the specification, and the variables a server sees |
| `IfAddrs.dfy` | the in-place merge sort of a linked list and the scan that relies on it |
| `ClassLoader.dfy`, `ClassSearch.dfy` | PSR-4 registration, the indexed lookup, the missing-class cache; which directory wins |
| `LeaseTime.dfy`, `DhcpLeases.dfy` | the calendar formula; tokens, names, lease blocks and the lease list |
| `Arith.dfy`, `Ascii.dfy`, `Wrappers.dfy` | powers and division; case folding; option and result types |

Code that changes things in place is a class or a method with loops here, proved against a
function of the old state; the theorems are about those functions.

## How the protocol is modelled

In `FilterDns.dfy` the two kinds of round hold only the read lock and so run at the same time.
A step is one entry added, swept, copied or posted, not a whole round; marking a list, and an
action's sweep with its table update, which no other thread reads, are one step each. A host list
carries a version that changes whenever a reader would see something else; a copy that began
under another version may read anything, except that a static flag is only ever read from a
static entry. An action that has passed its semaphore but not yet taken the lock counts as
having a round to come. A reload holds the write lock, so it runs when no round does.

## Where a promise fails, and exactly when

- Cutting a provisioning run and repeating it does not always end as the uncut run: after a
  rollback to the image's configuration the record may already cover the metadata, and then the
  repetition is skipped (`CloudInit.RollbackCutKeepsOldKeys`). `CloudInit.CutRunConverges` gives
  the exact condition; a first provisioning always converges.
- `convert_time` is computed in 32-bit `int`, so it is the calendar's second count exactly before
  2038-01-19 03:14:08 (`LeaseTime.ConvertIsCalendar`, `LeaseTime.FirstWrap`).
  The formula over unbounded integers is right up to the end of February 2100.
- A FastCGI request reads back exactly when its parameters are shorter than 65536 bytes: longer
  ones are announced modulo 65536 (`FastCgi.RequestRoundTrip`). The daemon writes the length of a
  value above 65535 bytes in one byte; such a pair does not read back (`FastCgi.DaemonPairReads`).
- A voucher code reads back exactly when each digit is the first position of its character
  (`Voucher.PrintThenCheck`), so an alphabet that repeats characters can print codes that do not
  check (`Voucher.RepeatedCharacterFails`). Every key of a modulus prints codes that check if and
  only if no character stands at two positions below the modulus (`Voucher.AlphabetExact`). An
  alphabet is read with `%255s`, so it has no space in it.
- An event of check_reload_status is not always followed by an execution. A request that completes
  takes an event with it that joined its entry meanwhile (`RunQueue.CompletionLosesEvent`), and a
  failed fork for the second entry of a command leaves it in the queue without a timer for ever,
  where it swallows every later event of that command (`RunQueue.ForkFailureLosesEvent`, `RunQueue.StuckForEver`). A command that is not
  sent stops being scheduled in such steps on its last scheduled entry and in no other
  (`RunQueue.LostExactly`, and over runs `RunQueue.ScheduledOverRuns`).
- `load_dhcp` reads host names into an array of 256 characters but lets `next_token` store 1025.
  The writes stay inside exactly when every host name token has at most 255 characters
  (`DhcpLeases.LeaseTable.LoadDhcp`, `DhcpLeases.LongNameDoesNotFit`); what the lists promise holds
  of the program for such texts only.
- The missing-class cache goes stale exactly when a registration reaches a class that was looked
  up before (`ClassLoader.CacheAgreesOverRuns`).

Where a comment and the code differ the code is followed: the voucher tool announces bit widths
of 1 to 31 but only rejects those above 31, and `addPsr4` treats the prefix "0" like the empty one.

## Model

| member | source | states |
|---|---|---|
| `AddrList.AddSets` | net/filterdns/files/filterdns.c:408-424 | Adding an address keeps the list free of duplicates, adds exactly that address, takes the old mark off it alone, and marks it new only if it was absent. |
| `AddrList.MarkSets` | net/filterdns/files/filterdns.c:598-602 | Marking keeps every address and leaves only the static ones safe from the sweep. |
| `AddrList.AddAllSets` | net/filterdns/files/filterdns.c:119-122 | After the copy loop the list holds its own and the copied addresses, and a sweep would keep what it kept before plus the copied ones. |
| `AddrList.AddAllFresh` | net/filterdns/files/filterdns.c:119-122 | New marks sit on exactly the copied addresses that were absent. |
| `AddrList.SweepSets` | net/filterdns/files/filterdns.c:607-617 | A sweep leaves exactly the addresses without an old mark, without duplicates and without marks. |
| `AddrList.SweepCount` | net/filterdns/files/filterdns.c:607-617 | The update counter is the number of addresses that came plus the number that go. |
| `AddrList.RoundSync` | net/filterdns/files/filterdns.c:112-134 | A mark, copy, sweep round turns any settled list into its static addresses plus the wanted set, without duplicates. |
| `AddrList.RoundUpdates` | net/filterdns/files/filterdns.c:124-135 | The update counter of a round is the size of the symmetric difference of the old and the new set; it is zero exactly when the set did not change. |
| `AddrList.AddrQueue.AddrAdd` | net/filterdns/files/filterdns.c:401-439 | The queue walk of addr_add computes the add whose effect on the sets is proved. |
| `AddrList.AddrQueue.MarkAll` | net/filterdns/files/filterdns.c:112-117 | The marking loop marks every entry that is not static and nothing else. |
| `AddrList.AddrQueue.CopyFrom` | net/filterdns/files/filterdns.c:119-122 | The copying loop adds every entry of the source in order. |
| `AddrList.AddrQueue.SweepOld` | net/filterdns/files/filterdns.c:607-617 | The loop that unlinks while walking removes exactly the old entries, clears the new marks and counts both. |
| `AddrList.AddrQueue.Synchronise` | net/filterdns/files/filterdns.c:598-617 | A whole round on the queue: no duplicates, the wanted set plus the static addresses, and a zero counter exactly when nothing changed. |
| `Tables.UpdateCalls` | net/filterdns/files/tables.c:86-145 | Any table list: one call per address, adds for exactly the addresses that are new, deletes for exactly the non-static ones that are gone, and every add before the first delete. |
| `Tables.UpdateNeverDropsKept` | net/filterdns/files/tables.c:98-145 | After any number of the calls the kernel table contains every address of both the old and the new set, nothing outside their union, and all of the old or all of the new set; at the end it is the new set. |
| `Tables.KernelNet` | net/filterdns/files/tables.c:98-145 | With one call per address the kernel table ends as the old one plus the adds minus the deletes. |
| `Tables.TableFollows` | net/filterdns/files/tables.c:79-148 | A table list that follows an action list ends with the same addresses, and so does the kernel table. |
| `Tables.TableUpdate` | net/filterdns/files/tables.c:79-148 | table_update leaves the synchronised list, issues exactly the difference in make-before-break order, and brings the kernel table to the new set. |
| `Tables.SweepTable` | net/filterdns/files/tables.c:98-145 | The sweeping loop, with the delayed unlinking, issues the calls in list order. |
| `Tables.SweepEntry` | net/filterdns/files/tables.c:100-144 | One entry of the sweep: its kernel call, its mark, and whether it is unlinked. |
| `Tables.TableCleanup` | net/filterdns/files/tables.c:150-162 | Cleanup deletes every listed address from the kernel and empties the list. |
| `Tables.ActionRound` | net/filterdns/files/filterdns.c:110-143 | A round of check_action: the action list becomes the host set, and an action with a table has table list and kernel table equal to it, although the table is only touched when the counter is positive. |
| `FilterDns.HostKeeps` | net/filterdns/files/filterdns.c:598-628 | Every step of a host round, entry by entry, keeps the host invariant and changes the version of the list whenever what a reader sees changes. |
| `FilterDns.ActionKeeps` | net/filterdns/files/filterdns.c:91-143 | Every step of an action round keeps the action invariant, including copies that read a host list while it changes. |
| `FilterDns.PostKeeps` | net/filterdns/files/filterdns.c:622-626 | Posting the linked actions one by one keeps the invariant of the whole state. |
| `FilterDns.ReloadKeeps` | net/filterdns/files/filterdns.c:729-833 | A reload keeps the invariant of the whole state. |
| `FilterDns.StepKeeps` | net/filterdns/files/filterdns.c:588-628 | Every step of every thread keeps the invariant. |
| `FilterDns.RunInv` | net/filterdns/files/filterdns.c:82-158 | The invariant holds in every state of every run. |
| `FilterDns.QuietMeansInSync` | net/filterdns/files/filterdns.c:91-143 | In every state of every interleaving: a waiting action with nothing posted, no forced round and an idle host has exactly its host's set, which is the static addresses plus the last answer; an action with a table has list, table list and kernel table equal; no list has duplicates; refcnt counts the linked actions. Where static addresses and answers come from says RoundRuns.HostsFollowLabels. |
| `FilterDns.StaleMeansSignalled` | net/filterdns/files/filterdns.c:619-626 | In every reachable state an action whose set differs from its host's is forced, posted, awake, or about to be posted. |
| `RoundRuns.HostsFollowLabels` | net/filterdns/files/filterdns.c:564-618 | In every state of every run a host's static addresses are exactly those entered when its thread started, and its answer is that of its latest lookup; nothing else puts an address there. |
| `RoundRuns.StaticStays` | net/filterdns/files/filterdns.c:564-579 | A host thread that finds its name to be an address has it, marked static, in every later state until it leaves. |
| `RoundRuns.StaticServed` | net/filterdns/files/filterdns.c:564-626 | A quiet action of such a host has that address in its list, its table list and the kernel's table. |
| `RoundRuns.RoundsCount` | net/filterdns/files/filterdns.c:606-618 | The update counter of a round that posts is the number of addresses that came plus the number that went since the round began. |
| `RoundRuns.PostsIfChanged` | net/filterdns/files/filterdns.c:622-626 | It is positive exactly when the host's addresses are not those the round began with. |
| `RoundRuns.ForcedUntilBegun` | net/filterdns/files/filterdns.c:110-167 | An action's force flag is set exactly from its creation until it begins its first round. |
| `RoundRuns.PostsAndWakes` | net/filterdns/files/filterdns.c:622-626 | An action is posted exactly when its host's round comes to it with other addresses than it began with, or before its first round; posts minus wake-ups is its semaphore, so no post is lost or made up. |
| `RoundRuns.RoundCallsAll` | net/filterdns/files/filterdns.c:622-626 | When a host's round ends, every linked action has begun a round or one is certain. |
| `RoundRuns.RoundAdvances` | net/filterdns/files/filterdns.c:598-628 | A host in a round always has a next step of its own. |
| `RoundRuns.StepsAndLeft` | net/filterdns/files/filterdns.c:598-628 | Each of these steps lowers what the round has still to do, and no step of anyone else touches the host, so every round can end and none goes on for ever. |
| `RoundRuns.ActionAdvances` | net/filterdns/files/filterdns.c:91-143 | An action that was posted or is in a round always has a next step: it takes one post, keeps only static addresses unmarked, keeps the next entry of an unchanged host list, and at its end is left with exactly what it kept and waits again. |
| `RoundRuns.QuietMeansTold` | net/filterdns/files/filterdns.c:91-143 | The synchronisation theorem in terms of what happened: an action that has begun a round, waits, and was woken as often as posted, holds while its host is idle exactly the address its host's name stands for and those of its latest lookup; so do its table list and the kernel's table. |
| `MergeConfig.ChosenKeys` | net/filterdns/files/filterdns.c:761-798 | Each position of the new configuration is served by an action with that very key. |
| `MergeConfig.Conserved` | net/filterdns/files/filterdns.c:761-798 | Every old or new action is chosen, dropped or left, counted with multiplicity: none is lost or made up. |
| `MergeConfig.KeepsMinimum` | net/filterdns/files/filterdns.c:761-798 | Per key exactly min(old, new) new copies are dropped in favour of live actions, and the surplus of old over new is left over. |
| `MergeConfig.Partition` | net/filterdns/files/filterdns.c:761-805 | From lists without repetition each action ends in exactly one place and the resulting list repeats none. |
| `MergeConfig.NeverDips` | net/filterdns/files/filterdns.c:340-389 | A reference count that first only rises and then only falls, from a positive value to a positive value, is positive at every point. |
| `MergeConfig.AttachKeeps` | net/filterdns/files/filterdns.c:331-344 | Linking an action to a host found keeps refcnt equal to the number of links and the links symmetric, and touches nothing else. |
| `MergeConfig.AttachNewKeeps` | net/filterdns/files/filterdns.c:346-371 | The same for a new host. |
| `MergeConfig.DetachKeeps` | net/filterdns/files/filterdns.c:387-391 | The same for unlinking. |
| `MergeConfig.FirstHostIsFirst` | net/filterdns/files/filterdns.c:331-344 | The search finds the earliest host in the list whose name matches, with case ignored and by prefix for a mask, and none exactly when no name matches. |
| `Reload.ParsedRules` | net/filterdns/files/parse.y:86-150 | A parse that succeeds yields one action per line, in order, with the line unchanged. |
| `Reload.ParsedGrown` | net/filterdns/files/filterdns.c:199-380 | Parsing only adds actions and links: live actions and hosts stay as they are, and only counting up happens. |
| `Reload.MergeLeavesChosen` | net/filterdns/files/filterdns.c:761-811 | After the two deletions exactly the chosen actions are alive, each once, with everything but links as it was. |
| `Reload.ReloadKeys` | net/filterdns/files/filterdns.c:729-811 | A reload that parses ends with exactly the keys of the new configuration, last line first; what a key is, field by field, says Loads.LineByLine. |
| `Reload.ReloadEvolves` | net/filterdns/files/filterdns.c:729-811 | The surviving actions keep their lists, tables and hosts untouched, added ones have never run, and the action list names each live action once. |
| `Reload.ReloadKeepsMinimum` | net/filterdns/files/filterdns.c:761-805 | Of the old actions with a key, exactly min(old, new) are alive in the memory a reload ends in. |
| `Reload.ReloadLog` | net/filterdns/files/filterdns.c:742-805 | All increments of reference counts happen while parsing, all decrements after it. |
| `Reload.UsedThroughout` | net/filterdns/files/filterdns.c:588-589 | For every host: its refcnt is positive after every single increment and decrement of a reload exactly when it is positive before and after the reload. |
| `Reload.UsedExactly` | net/filterdns/files/filterdns.c:729-811 | The same by looking at the new configuration only: the refcnt of a host in use stays positive throughout the reload if and only if some line of the file finds that host in the list as it was before. |
| `Reload.SharedHostNeverUnused` | net/filterdns/files/filterdns.c:588-589 | A host in use that some line of the new configuration is served through, by the case-insensitive or prefix match of host_add, has a positive refcnt after every single increment and decrement of a reload. |
| `Reload.AnchoredServes` | net/filterdns/files/filterdns.c:331-344 | In a memory as every reload, round and departure leaves it, a line whose name finds a host and does not begin with a slash is served through that host. |
| `Reload.ReloadAnchored` | net/filterdns/files/filterdns.c:331-371 | After a reload each live action is still linked to the first host its name matches. |
| `Reload.ReloadStaysAnchored` | net/filterdns/files/filterdns.c:729-833 | So it is when the new threads have been started. |
| `Reload.ReloadRefinesMerge` | net/filterdns/files/filterdns.c:729-833 | The reload, thread creation included, is a reload step of the interleaved protocol, for every set of threads that covers the live actions and no id still to come. |
| `Reload.Daemon.constructor` | net/filterdns/files/filterdns.c:707-716 | A daemon starts with nothing loaded, in a state every reload keeps. |
| `Reload.Daemon.FindHost` | net/filterdns/files/filterdns.c:331-344 | The search gives the first host that matches. |
| `Reload.Daemon.HostAdd` | net/filterdns/files/filterdns.c:321-380 | host_add links to the first match, or to a new host, or fails on a bad mask and changes nothing. |
| `Reload.Daemon.FindAction` | net/filterdns/files/filterdns.c:205-238 | The search decides whether the same line is already there. |
| `Reload.Daemon.Line` | net/filterdns/files/parse.y:86-150 | One line: refused when malformed or a duplicate or its host cannot be added, otherwise one action more at the end. |
| `Reload.Daemon.ParseConfig` | net/filterdns/files/parse.y:400-428 | Parsing a file line by line. |
| `Reload.Daemon.ActionDel` | net/filterdns/files/filterdns.c:288-319 | The action is gone, no host refers to it, its host's refcnt has fallen by one and is still the number of linked actions, and the action is off its list. |
| `Reload.Daemon.MoveActions` | net/filterdns/files/filterdns.c:730-758 | The whole action list is moved to the end of a temporary list, in order. |
| `Reload.Daemon.ClearConfig` | net/filterdns/files/filterdns.c:689-704 | Deletes the first action until the list is empty, and counts. |
| `Reload.Daemon.FindMatch` | net/filterdns/files/filterdns.c:763-783 | The inner loop finds the first old action that agrees in type, host name, table and anchor, and none exactly when none agrees. |
| `Reload.Daemon.MergeLists` | net/filterdns/files/filterdns.c:760-798 | The nested loops compute the matching, leave the new list empty and the unmatched old actions in the other, and build the action list in reverse order of the new configuration. |
| `Reload.Daemon.MergeActions` | net/filterdns/files/filterdns.c:729-811 | Up to the assertion: both temporary lists are empty there, so it never fires. |
| `Reload.Daemon.MergeConfig` | net/filterdns/files/filterdns.c:729-833 | merge_config from end to end, on its own set of started threads: run while no thread is inside its lock it is a reload step of the protocol, every live action has a thread, every host has a thread and was posted, and the invariant between reloads holds again; a file that does not parse ends the daemon. |
| `Reload.Daemon.StartThreads` | net/filterdns/files/filterdns.c:813-818 | Exactly the actions without a thread get one and a forced first round. |
| `Reload.Daemon.StartHosts` | net/filterdns/files/filterdns.c:819-832 | Every listed host gets a thread if it has none, and then one post at least. |
| `Loads.LineByLine` | net/filterdns/files/filterdns.c:761-798 | Position by position, last line first, the action that serves a line has the type, host name, table and anchor of that line; it is a live action with its rule unchanged or a new one with exactly that line. |
| `Loads.KeepsWhatIsAsked` | net/filterdns/files/filterdns.c:761-805 | Of the live actions that agree with a line in these four fields, exactly min(old, new) stay alive. |
| `Loads.LoadsExactly` | net/filterdns/files/parse.y:86-150 | A file is accepted if and only if every line is allowed by the grammar, equals no earlier line in all fields, and names a host on the list by then or has no mask or a numeric one of at most 128. |
| `Loads.ReloadTabled` | net/filterdns/files/filterdns.c:135-252 | After every reload an action keeps a kernel table exactly when its line names one. |
| `Loads.SharedHost` | net/filterdns/files/filterdns.c:331-344 | Actions whose names have no mask share a host exactly when the names are the same but for case. |
| `Loads.FindsItself` | net/filterdns/files/filterdns.c:331-371 | A new host is found again under the name it was made from exactly when that name does not begin with a slash. |
| `DaemonRuns.RoundKeeps` | net/filterdns/files/filterdns.c:82-158 | Every step of a host or action thread leaves the memory such that the next reload finds what it relies on. |
| `DaemonRuns.LeaveKeeps` | net/filterdns/files/filterdns.c:588-665 | So does a host thread without users that leaves the list. |
| `DaemonRuns.LoadKeeps` | net/filterdns/files/filterdns.c:729-833 | A reload of any file is a reload step of the protocol and leaves what the next one relies on. |
| `DaemonRuns.HistoryReady` | net/filterdns/files/filterdns.c:707-833 | From the empty daemon, in every moment of every history of rounds, departures and reloads of configuration files, a reload finds what it relies on. |
| `DaemonRuns.HistoryIsRun` | net/filterdns/files/filterdns.c:82-158 | Every such history is a run of the interleaved protocol. |
| `DaemonRuns.DaemonInSync` | net/filterdns/files/filterdns.c:82-158 | In every moment of every such history each live action is listed, has a thread, its line, a table exactly if the line names one, and the first host its name matches; one that is quiet while its host is idle serves exactly the address that its host's configured name denotes and those of its latest lookup, in its list, its table list and the kernel's table. |
| `DaemonRuns.HistoryTold` | net/filterdns/files/filterdns.c:564-579 | A host thread that has started was told exactly the address that its name in the host list denotes. |
| `DaemonRuns.HostsAreShared` | net/filterdns/files/filterdns.c:331-344 | In every moment of every history, actions without masks share a host exactly when their names agree but for case. |
| `Interfaces.ResolveIsSound` | sysutils/FreeSense-cloud-init/files/freesense_cloud_init.py:381-450 | When the allocation succeeds, different devices have different roles, and every mapping fits some interface and gives it its role. |
| `Interfaces.ResolveIsComplete` | sysutils/FreeSense-cloud-init/files/freesense_cloud_init.py:427-450 | WAN is missing only when every interface was mapped elsewhere; the other leftover interfaces have roles that leave no unused role below them and that ascend with their position, so each has the least role free at its turn. |
| `Interfaces.ResolveWithoutPins` | sysutils/FreeSense-cloud-init/files/freesense_cloud_init.py:427-450 | Without mappings n interfaces have exactly the roles wan, lan, opt1 to opt(n-2). |
| `Roles.ResolveTies` | sysutils/FreeSense-cloud-init/files/freesense_cloud_init.py:382-408 | The answer has the metadata's interfaces in order, each with the device that its name or MAC names, the last one of a MAC; without metadata every detected device, the first one by DHCP. |
| `Roles.WanGoesTo` | sysutils/FreeSense-cloud-init/files/freesense_cloud_init.py:430-437 | Without a mapping for WAN the interface left over that carries the metadata's default route becomes WAN, and if none carries it the first one left over. |
| `Roles.ResolvesExactly` | sysutils/FreeSense-cloud-init/files/freesense_cloud_init.py:381-436 | The allocator answers if and only if the interfaces name devices, no two the same; every mapping has a role and fits exactly one interface, with no role and no device twice; and WAN is mapped or at most one interface left over carries the default route. |
| `Roles.FitsIs` | sysutils/FreeSense-cloud-init/files/freesense_cloud_init.py:416-421 | A mapping fits by device, name or MAC without regard to case; an interface without name or MAC answers to "none" there. |
| `Interfaces.LeastFree` | sysutils/FreeSense-cloud-init/files/freesense_cloud_init.py:442-445 | The search for an index ends, and gives the least free one. |
| `Interfaces.TiedUnique` | sysutils/FreeSense-cloud-init/files/freesense_cloud_init.py:386-401 | Metadata interfaces are tied to pairwise different devices. |
| `Interfaces.PinHonoured` | sysutils/FreeSense-cloud-init/files/freesense_cloud_init.py:412-426 | Every mapping fits exactly one interface and that interface has its role. |
| `Interfaces.AllRolesInjective` | sysutils/FreeSense-cloud-init/files/freesense_cloud_init.py:427-447 | Roles of different devices differ, mappings stand, and every interface has a role. |
| `Interfaces.AllRolesFilled` | sysutils/FreeSense-cloud-init/files/freesense_cloud_init.py:430-447 | WAN is given out exactly when it was mapped or something was left over, and the other roles given out leave no gap. |
| `Interfaces.FilledAscends` | sysutils/FreeSense-cloud-init/files/freesense_cloud_init.py:438-447 | The roles handed out by the loop ascend along the list. |
| `Interfaces.IndexDevices` | sysutils/FreeSense-cloud-init/files/freesense_cloud_init.py:382-383 | The two dictionaries over the detected devices; the last device of a MAC wins. |
| `Interfaces.TieDevices` | sysutils/FreeSense-cloud-init/files/freesense_cloud_init.py:384-408 | The loop that ties interfaces to devices, with its three errors and the default without metadata. |
| `Interfaces.PinRoles` | sysutils/FreeSense-cloud-init/files/freesense_cloud_init.py:409-426 | The loop over the mappings, with its three errors. |
| `Interfaces.FreeRole` | sysutils/FreeSense-cloud-init/files/freesense_cloud_init.py:439-445 | The search loop gives lan or the least free opt role. |
| `Interfaces.FillRoles` | sysutils/FreeSense-cloud-init/files/freesense_cloud_init.py:438-447 | The loop that hands out the remaining roles. |
| `Interfaces.ResolveInterfaces` | sysutils/FreeSense-cloud-init/files/freesense_cloud_init.py:381-450 | The whole allocator computes the function that the theorems are about. |
| `CloudInit.CutRunConverges` | sysutils/FreeSense-cloud-init/files/freesense_cloud_init.py:494-729 | A run cut after any file replacement and repeated ends as the uncut run exactly when, before it, the old record does not cover the metadata or the keys, seed and record are current already; always on a first provisioning. |
| `CloudInit.RollbackCutKeepsOldKeys` | sysutils/FreeSense-cloud-init/files/freesense_cloud_init.py:508-525 | The failing case: after a rollback with the record intact a cut run is not repeated and the old keys stay. |
| `CloudInit.RepeatedRunIsSkipped` | sysutils/FreeSense-cloud-init/files/freesense_cloud_init.py:494-525 | After a run that writes, one more run with the same metadata is skipped with nothing changed. |
| `CloudInit.PlanAfterCut` | sysutils/FreeSense-cloud-init/files/freesense_cloud_init.py:579-728 | On a half-written disk the run plans the same four files as before the cut. |
| `CloudInit.OneFileAtATime` | sysutils/FreeSense-cloud-init/files/freesense_cloud_init.py:682-728 | A run replaces one file after the other: the configuration, the keys, the seed, and the record last. |
| `CloudInit.RewrittenTwice` | sysutils/FreeSense-cloud-init/files/freesense_cloud_init.py:579-681 | Editing the configuration twice with the same metadata is editing it once. |
| `CloudInit.RewrittenProvisions` | sysutils/FreeSense-cloud-init/files/freesense_cloud_init.py:579-681 | Every rewriting provisions, field by field: names, time zone, anti-lockout, keys, password, interfaces, gateways, name servers and rules, as Machine.EditTree says. |
| `CloudInit.WriteLowersMissing` | sysutils/FreeSense-cloud-init/files/freesense_cloud_init.py:508-525 | Every run that writes lowers the measure of what the record lacks. |
| `CloudInit.WritesBounded` | sysutils/FreeSense-cloud-init/files/freesense_cloud_init.py:508-525 | For one instance without rollback at most three runs ever rewrite the configuration, whatever the metadata of each run. |
| `CloudInit.PasswordKept` | sysutils/FreeSense-cloud-init/files/freesense_cloud_init.py:603-613 | A run that writes keeps the password fields exactly when the instance is recorded in both state and configuration, or the account was locked already; otherwise it locks the account. |
| `CloudInit.ImagePasswordNeverServed` | sysutils/FreeSense-cloud-init/files/freesense_cloud_init.py:603-613 | Over any mix of runs, cuts, password changes and rollbacks, a configuration that carries an instance id never holds a hash of the image. |
| `CloudInit.Machine.EditTree` | sysutils/FreeSense-cloud-init/files/freesense_cloud_init.py:579-681 | The edited configuration by field: with keys and one interface the temporary SSH rules are, in order, one per management network from that network, or one per protocol from anywhere without networks, otherwise none; a cloud gateway is there exactly when the interface of that role has it; the administrator's rules and gateways are conserved; name servers are those of the interfaces, each once; host name and domain are split at the first dot; the account is locked or keeps its password. |
| `CloudInit.RunsExactly` | sysutils/FreeSense-cloud-init/files/freesense_cloud_init.py:528-600 | A run is skipped, writes, is cut or fails under exactly these conditions on the metadata and the disk, and a run that fails or is skipped changes nothing. |
| `CloudInit.RunProvisions` | sysutils/FreeSense-cloud-init/files/freesense_cloud_init.py:566-728 | What a run that writes leaves: the configuration provisioned for the interfaces found, a sole one as WAN by DHCP with its IPv6 addresses only and no IPv4 gateway; the keys, the join seed unless the machine has joined, and the record. |
| `CloudInit.SoleIsAdjusted` | sysutils/FreeSense-cloud-init/files/freesense_cloud_init.py:567-577 | The change made to a sole interface: role, DHCP, addresses and gateway as said, all else as found; several interfaces are left as found. |
| `CloudInit.Machine.Apply` | sysutils/FreeSense-cloud-init/files/freesense_cloud_init.py:528-729 | apply, possibly cut after n replacements: skip, failures before any write, and the four replacements in order. |
| `Voucher.ValueOfBigEndian` | sysutils/voucher/files/voucher.c:193-242 | Writing a number to the buffer and reading it gives the number modulo the buffer size. |
| `Voucher.BigEndianOfValue` | sysutils/voucher/files/voucher.c:193-242 | Reading a buffer and writing it back restores it. |
| `Voucher.Ll2Buf` | sysutils/voucher/files/voucher.c:193-215 | The loop fills the buffer with the big-endian form and nothing beyond it. |
| `Voucher.Buf2Ll` | sysutils/voucher/files/voucher.c:221-242 | The loop reads the buffer in 64-bit arithmetic. |
| `Voucher.SetupFits` | sysutils/voucher/files/voucher.c:400-449 | An accepted configuration leaves room: the magic is the configured one reduced to the bits that are left, and it and the payload together fill all but the top bit of the key. |
| `Voucher.PackExact` | sysutils/voucher/files/voucher.c:578-588 | 64-bit shifts, sums and the top-bit mask lose nothing: the word computed is the packed number, below the top bit of the key. |
| `Voucher.AcceptsOnlyPacked` | sysutils/voucher/files/voucher.c:510-544 | CHECK reads a word as (roll, ticket) if and only if it is the one packed word of that pair, so different words never give the same pair. |
| `Voucher.TextExact` | sysutils/voucher/files/voucher.c:461-478 | Printing a number in the alphabet and reading it gives it back exactly when each of its digits stands at the first position of its character. |
| `Voucher.PrintSucceeds` | sysutils/voucher/files/voucher.c:578-636 | For every accepted configuration the word is below the modulus, signing succeeds, and the code fits the buffer of 64 digits. |
| `Voucher.PrintThenCheck` | sysutils/voucher/files/voucher.c:451-636 | CHECK of the printed text gives the pair back exactly when every digit is a first position; the space printed in front does not matter. |
| `Voucher.RepeatedCharacterFails` | sysutils/voucher/files/voucher.c:461-478 | The failing case: with the alphabet "aa" an accepted configuration prints a voucher that does not check as its pair. |
| `Voucher.VoucherRoundTrip` | sysutils/voucher/files/voucher.c:451-636 | With an alphabet that tells apart the digits that are below the modulus, every voucher checks as its own roll and ticket. |
| `Voucher.ConfusedVoucher` | sysutils/voucher/files/voucher.c:461-478 | If the alphabet has one character at two positions below the modulus, then for any roll and ticket some key of that modulus prints a voucher that does not check as them. |
| `Voucher.AlphabetExact` | sysutils/voucher/files/voucher.c:451-636 | The exact condition, checkable before printing: for any roll and ticket the voucher checks with every key of a modulus if and only if no character stands at two positions below that modulus. |
| `Voucher.PrintVoucher` | sysutils/voucher/files/voucher.c:578-636 | PRINT for one ticket. |
| `Voucher.PrintRoll` | sysutils/voucher/files/voucher.c:550-648 | For every accepted configuration PRINT refuses exactly a ticket count or roll out of range; otherwise code number i is that of ticket i of the roll, and checks as it when the alphabet tells the digits apart. |
| `Voucher.PrintDigits` | sysutils/voucher/files/voucher.c:623-636 | The digit loop with its bounded buffer. |
| `Voucher.ReadCode` | sysutils/voucher/files/voucher.c:461-478 | The loop that reads a code from its end up to a space. |
| `Voucher.CheckVoucher` | sysutils/voucher/files/voucher.c:451-549 | CHECK for one code. |
| `VoucherCodes.PreparesExactly` | sysutils/voucher/files/voucher.c:373-449 | A configuration is accepted if and only if the key has at most 64 bits, the alphabet two characters, each field at most 31 bits and the fields leave the top bit free; the magic number kept is the configured one modulo 2 to the bits left. |
| `VoucherCodes.PrintedIs` | sysutils/voucher/files/voucher.c:578-636 | PRINT from end to end: the code is, digit by digit, the text of the signature of the word whose bits are, from the lowest, roll, ticket, their sum as checksum, and the configured magic. |
| `VoucherCodes.ChecksExactly` | sysutils/voucher/files/voucher.c:451-544 | CHECK from end to end: a text is accepted as a roll and ticket if and only if what follows its last space stands for a number that, cut to the key's size, is below the modulus and recovers to that word. |
| `VoucherCodes.MagicDecides` | sysutils/voucher/files/voucher.c:442-519 | A voucher printed under one magic number checks under another if and only if the two agree modulo 2 to the bits left for it. |
| `VoucherCodes.TextValueIs` | sysutils/voucher/files/voucher.c:461-478 | A text stands for a number exactly when all its characters are in the alphabet; the first character counts least. |
| `RunQueue.RanCases` | sysutils/check_reload_status/files/check_reload_status.c:457-512 | Coalescing by what is queued: with an entry of aggregate 2 in front the event joins it, otherwise a new entry with the next aggregate goes to the head. |
| `RunQueue.StepKeeps` | sysutils/check_reload_status/files/check_reload_status.c:284-617 | Every event, timer, answer and timeout keeps the queue invariant. |
| `RunQueue.ReachableQueues` | sysutils/check_reload_status/files/check_reload_status.c:284-617 | In every reachable queue the aggregate values of one command read [], [1], [2] or [2, 1], and every aggregate FastCGI entry has its timer armed. |
| `RunQueue.EventIsPending` | sysutils/check_reload_status/files/check_reload_status.c:451-522 | Right after an event some entry of its command is pending with dontexec clear. |
| `RunQueue.EventIsScheduled` | sysutils/check_reload_status/files/check_reload_status.c:424-426 | It also has its timer armed, except exactly when the event joined a shell entry whose fork failed and no other entry of the command is scheduled. |
| `RunQueue.PendingStays` | sysutils/check_reload_status/files/check_reload_status.c:457-473 | A pending entry keeps its command pending under every step that is not its own sending or completion. |
| `RunQueue.PendingEndsExactly` | sysutils/check_reload_status/files/check_reload_status.c:284-617 | A command stops being pending exactly when the step consumes the last entry of it that was to be sent. |
| `RunQueue.LostExactly` | sysutils/check_reload_status/files/check_reload_status.c:403-614 | A command that is not sent stops being scheduled (an entry to be sent with its timer armed) exactly in two steps on its last scheduled entry: the completion of its request, and a shell timer whose fork fails. |
| `RunQueue.ScheduledOverRuns` | sysutils/check_reload_status/files/check_reload_status.c:284-617 | Over any stretch of any run without a sending, the command is scheduled throughout exactly when none of these two steps happens. |
| `RunQueue.StuckStays` | sysutils/check_reload_status/files/check_reload_status.c:423-426 | An entry of aggregate 2 whose fork failed is moved by no step. |
| `RunQueue.StuckSwallows` | sysutils/check_reload_status/files/check_reload_status.c:457-473 | While such an entry is queued, an event of its command changes nothing. |
| `RunQueue.StuckForEver` | sysutils/check_reload_status/files/check_reload_status.c:457-473 | In every later state of any run the entry is still there and every event of its command is swallowed. |
| `RunQueue.ForkFailureLosesEvent` | sysutils/check_reload_status/files/check_reload_status.c:423-426 | The other failing case, a whole run: two events, a failed fork, the first entry runs and goes; from then on the command is pending, not scheduled, and the next event changes nothing. |
| `RunQueue.CompletionLosesEvent` | sysutils/check_reload_status/files/check_reload_status.c:599-606 | An event can be lost: coalesced into an entry already sent, it disappears with that entry's completion. |
| `RunQueue.Daemon.RunCommand` | sysutils/check_reload_status/files/check_reload_status.c:451-522 | run_command computes the coalescing, keeps the invariant and leaves the command pending. |
| `RunQueue.Daemon.SumAggregates` | sysutils/check_reload_status/files/check_reload_status.c:457-473 | The loop over the queue stops at the entry where the sum of aggregates exceeds one, or gives the whole sum. |
| `RunQueue.Daemon.FcgiSendCommand` | sysutils/check_reload_status/files/check_reload_status.c:300-391 | A fired FastCGI timer: remove, reschedule, or send and wait. |
| `RunQueue.Daemon.RunCommandDetailed` | sysutils/check_reload_status/files/check_reload_status.c:403-449 | A fired shell timer: remove, run and wait, or run and remove. |
| `RunQueue.Daemon.SocketReadFcgi` | sysutils/check_reload_status/files/check_reload_status.c:579-614 | An end of request: remove on success, otherwise let it run again. |
| `RunQueue.FailureReschedules` | sysutils/check_reload_status/files/check_reload_status.c:607-611 | A request of a coalesced command that the server did not complete is scheduled again. |
| `QueueRuns.ComesFromEvent` | sysutils/check_reload_status/files/check_reload_status.c:476-522 | In every run every queued entry is made of one event, with its command, parameters and kind, and no event has two entries. |
| `QueueRuns.LeavesExactly` | sysutils/check_reload_status/files/check_reload_status.c:284-617 | An entry leaves the queue in exactly three kinds of step: its request completes, its timer fires while it is marked as sent, or it is a shell command of its own that ran. |
| `QueueRuns.LeavesOnlySent` | sysutils/check_reload_status/files/check_reload_status.c:284-617 | An entry that is to be sent is sent before it leaves, unless a completion of it comes first. |
| `QueueRuns.FailedIsSentAgain` | sysutils/check_reload_status/files/check_reload_status.c:607-611 | Over every run, a request answered without being completed is sent again before its entry leaves, unless a completion comes first. |
| `QueueRuns.NewIsSent` | sysutils/check_reload_status/files/check_reload_status.c:451-522 | Over every run, the entry that an event makes is sent before it leaves, unless a completion comes first. |
| `QueueRuns.MarkedWhileSent` | sysutils/check_reload_status/files/check_reload_status.c:300-614 | An entry of a coalesced command is marked not to be sent exactly while it was sent and neither an unsuccessful answer nor an event has asked for it again. |
| `QueueRuns.NotSentTwice` | sysutils/check_reload_status/files/check_reload_status.c:300-614 | It is not sent twice unless one of these two came in between. |
| `QueueRuns.SentAgainAfterTimeout` | sysutils/check_reload_status/files/check_reload_status.c:541-548 | A FastCGI entry that is not coalesced is sent again only after the read of its answer timed out. |
| `FastCgi.LengthRoundTrip` | sysutils/check_reload_status/files/fcgicli.c:44-56 | A length below 2^31 is read back by the specification's rule. |
| `FastCgi.PairsRoundTrip` | sysutils/check_reload_status/files/fcgicli.c:31-64 | The specification's reader gives back every list of name-value pairs. |
| `FastCgi.RequestRoundTrip` | sysutils/check_reload_status/files/fcgicli.c:277-295 | The emitted bytes parse as BEGIN, PARAMS, empty PARAMS and empty STDIN with these contents exactly when the parameters are shorter than 65536 bytes. |
| `FastCgi.DaemonSizeExact` | sysutils/check_reload_status/files/check_reload_status.c:313-335 | The encoded size of the daemon's parameters is the arithmetic expression in the lengths of the command, its base name and the query. |
| `FastCgi.DaemonFits` | sysutils/check_reload_status/files/check_reload_status.c:313-335 | Commands of up to 700 bytes, with parameters as long as the daemon keeps, fit its buffer. |
| `FastCgi.DaemonRoundTrip` | sysutils/check_reload_status/files/check_reload_status.c:317-369 | In the bytes the daemon itself writes, one-byte lengths included, a request reads back as its four records exactly when its parameters are shorter than 65536 bytes, and then as its list of pairs. |
| `FastCgi.DaemonPairReads` | sysutils/check_reload_status/files/check_reload_status.c:101-120 | A pair written by the daemon reads back exactly when its value has at most 65535 bytes. |
| `FastCgi.DaemonBytesSpec` | sysutils/check_reload_status/files/check_reload_status.c:101-120 | The daemon's bytes are those of the specification whenever either form fits one record, and both fit or neither does. |
| `FastCgi.CliLength` | sysutils/check_reload_status/files/fcgicli.c:44-56 | The length field of fcgicli. |
| `FastCgi.CliNvpair` | sysutils/check_reload_status/files/fcgicli.c:31-64 | A pair is appended, or refused when a length needs more than 31 bits. |
| `FastCgi.DaemonLength` | sysutils/check_reload_status/files/check_reload_status.c:104-112 | The four bytes by shifts are the same length field. |
| `FastCgi.DaemonNvpair` | sysutils/check_reload_status/files/check_reload_status.c:101-120 | The daemon's pair writer, its one-byte form for lengths above 65535 included. |
| `FastCgi.DaemonUri` | sysutils/check_reload_status/files/check_reload_status.c:327-332 | The two pieces under one length are the bytes of one pair, for every length. |
| `FastCgi.DaemonParams` | sysutils/check_reload_status/files/check_reload_status.c:313-333 | Whenever the request fits the buffer of 4096 bytes, the parameter buffer is the encoding of the list of pairs. |
| `FastCgi.PreparePacket` | sysutils/check_reload_status/files/check_reload_status.c:88-99 | The header fields, and nothing else, are written. |
| `FastCgi.Frame` | sysutils/check_reload_status/files/check_reload_status.c:347-369 | The framing writes the four records one after the other. |
| `FastCgi.DaemonRequest` | sysutils/check_reload_status/files/check_reload_status.c:310-369 | Whenever the request fits the buffer of 4096 bytes, the bytes written read back as the four records and the list of pairs asked for. |
| `FastCgi.CliParams` | sysutils/check_reload_status/files/fcgicli.c:238-275 | The parameter buffer of fcgicli. |
| `FastCgi.CliRequest` | sysutils/check_reload_status/files/fcgicli.c:238-295 | fcgicli fails exactly when a length needs more than 31 bits; otherwise its bytes read back as the four records and the pairs exactly when the sizes of the pairs sum to less than 65536. |
| `FastCgiRequests.DaemonIsUnderstood` | sysutils/check_reload_status/files/check_reload_status.c:313-369 | When the parameters fit one record the server reads one responder request of version 1 with the keep-alive flag asked for, in which each CGI variable is set once: the script by its full name, its base name, the query if there is one, and the request URI made of them. |
| `FastCgiRequests.CliIsUnderstood` | sysutils/check_reload_status/files/fcgicli.c:238-295 | The same for fcgicli. |
| `IfAddrs.StrCmpZero` | devel/php-FreeSense-module/files/FreeSense.c:1514-1524 | The comparison is zero exactly for equal names. |
| `IfAddrs.StrCmpTrans` | devel/php-FreeSense-module/files/FreeSense.c:1514-1524 | The order by name is transitive. |
| `IfAddrs.MergedSorted` | devel/php-FreeSense-module/files/FreeSense.c:1488-1509 | Merging sorted lists gives a sorted list. |
| `IfAddrs.MergedStable` | devel/php-FreeSense-module/files/FreeSense.c:1488-1509 | Merging keeps entries of one name in order, those of the left list first. |
| `IfAddrs.SortCorrect` | devel/php-FreeSense-module/files/FreeSense.c:1451-1512 | The sort gives an ordered list with, for every name, the same entries in the same order: a stable permutation. |
| `IfAddrs.StrCmpIsOrder` | devel/php-FreeSense-module/files/FreeSense.c:1514-1524 | The comparison is the dictionary order: names agree up to a position where the first ends or has the smaller character. |
| `IfAddrs.SortIsAlphabetical` | devel/php-FreeSense-module/files/FreeSense.c:1451-1512 | Any two entries of the sorted list stand in dictionary order. |
| `IfAddrs.FirstRunIsAll` | devel/php-FreeSense-module/files/FreeSense.c:1798-1826 | On a sorted list, stopping at the first change of name misses no entry of the interface. |
| `IfAddrs.FindMiddle` | devel/php-FreeSense-module/files/FreeSense.c:1477-1481 | The double-speed walk finds the middle node and the one before it. |
| `IfAddrs.Split` | devel/php-FreeSense-module/files/FreeSense.c:1477-1483 | Cutting there leaves two lists that are the two halves. |
| `IfAddrs.TakeSmaller` | devel/php-FreeSense-module/files/FreeSense.c:1489-1501 | The choice of the next node is one step of the merge. |
| `IfAddrs.Append` | devel/php-FreeSense-module/files/FreeSense.c:1503-1508 | Linking the next node behind the tail keeps every other link. |
| `IfAddrs.Merge` | devel/php-FreeSense-module/files/FreeSense.c:1488-1511 | The loop relinks two disjoint lists into their merge. |
| `IfAddrs.SortPair` | devel/php-FreeSense-module/files/FreeSense.c:1467-1475 | The case of two nodes. |
| `IfAddrs.SortIfaddrs` | devel/php-FreeSense-module/files/FreeSense.c:1451-1512 | The recursive sort terminates and relinks the nodes of the list, and no other node, into the sorted order. |
| `IfAddrs.FindFirst` | devel/php-FreeSense-module/files/FreeSense.c:1798-1804 | The first loop stops at the first entry of the interface. |
| `IfAddrs.Scan` | devel/php-FreeSense-module/files/FreeSense.c:1798-1826 | The two loops collect the first run of the name. |
| `IfAddrs.InterfaceAddresses` | devel/php-FreeSense-module/files/FreeSense.c:1796-1826 | Sorting and scanning visits exactly the entries of the interface, in their original order. |
| `ClassLoader.FirstInMeaning` | devel/FreeSense-composer-deps/files/composer/ClassLoader.php:505-509 | A file is found exactly when some directory has it, and then in the first such directory. |
| `ClassLoader.LongestMeaning` | devel/FreeSense-composer-deps/files/composer/ClassLoader.php:498-512 | The reference search gives what the longest registered prefix that has the file gives. |
| `ClassSearch.FoundByPrefix` | devel/FreeSense-composer-deps/files/composer/ClassLoader.php:492-511 | A class is loaded from the first directory, of the longest registered prefix, that holds its file, by the path that PSR-4 gives. |
| `ClassSearch.FoundByRoot` | devel/FreeSense-composer-deps/files/composer/ClassLoader.php:514-519 | If no prefix has it, from the first root directory that holds its file. |
| `ClassSearch.FoundByNone` | devel/FreeSense-composer-deps/files/composer/ClassLoader.php:521-560 | If no directory holds it, what the PSR-0 rules find decides. |
| `ClassSearch.AddedOrder` | devel/FreeSense-composer-deps/files/composer/ClassLoader.php:253-265 | After a prepend a file in a new directory wins over the earlier directories of the prefix, after an append one in an earlier directory does; the first such directory in either case. |
| `ClassSearch.ReplacedOrder` | devel/FreeSense-composer-deps/files/composer/ClassLoader.php:298-310 | After setPsr4 the first of the new directories that holds the file wins. |
| `ClassSearch.RootOrder` | devel/FreeSense-composer-deps/files/composer/ClassLoader.php:233-244 | The same order for the root namespace. |
| `ClassSearch.RegistersExactly` | devel/FreeSense-composer-deps/files/composer/ClassLoader.php:233-250 | A prefix is accepted exactly when it is empty, "0", or ends in a separator. |
| `ClassLoader.NoPrefixBetween` | devel/FreeSense-composer-deps/files/composer/ClassLoader.php:499-503 | Skipping from separator to separator misses no registered prefix. |
| `ClassLoader.OtherLetters` | devel/FreeSense-composer-deps/files/composer/ClassLoader.php:497-498 | A class whose first letter is not in the index has no registered prefix. |
| `ClassLoader.AddedFinds` | devel/FreeSense-composer-deps/files/composer/ClassLoader.php:230-267 | A class not found before addPsr4 is found after it exactly when the new directories reach its file. |
| `ClassLoader.ReplacedFinds` | devel/FreeSense-composer-deps/files/composer/ClassLoader.php:298-310 | The same for setPsr4. |
| `ClassLoader.RegistrationKeepsCache` | devel/FreeSense-composer-deps/files/composer/ClassLoader.php:448-450 | A registration keeps the missing-class cache right exactly when it reaches no class remembered as missing. |
| `ClassLoader.CacheAgreesOverRuns` | devel/FreeSense-composer-deps/files/composer/ClassLoader.php:442-475 | Over any run of registrations and lookups on an unchanged disk, the cached and the uncached search agree throughout exactly when no registration reaches a class already remembered as missing. |
| `ClassLoader.EarlyLookupStaysMissing` | devel/FreeSense-composer-deps/files/composer/ClassLoader.php:469-472 | The failing case: a class looked up before its namespace is registered stays missing. |
| `ClassLoader.Loader.constructor` | devel/FreeSense-composer-deps/files/composer/ClassLoader.php:46-110 | A new loader has nothing registered and a valid index. |
| `ClassLoader.Loader.Enter` | devel/FreeSense-composer-deps/files/composer/ClassLoader.php:307-308 | A prefix is entered in the index and given its directories; the index stays exact. |
| `ClassLoader.Loader.AddPsr4` | devel/FreeSense-composer-deps/files/composer/ClassLoader.php:230-267 | Appends or prepends directories, refuses a prefix without trailing separator and then changes nothing, and keeps the index exact. |
| `ClassLoader.Loader.SetPsr4` | devel/FreeSense-composer-deps/files/composer/ClassLoader.php:298-310 | Replaces directories, with the same refusal. |
| `ClassLoader.Loader.WalkPrefixes` | devel/FreeSense-composer-deps/files/composer/ClassLoader.php:499-511 | The shrinking walk finds what trying all prefixes from the longest to the shortest finds. |
| `ClassLoader.Loader.FindFileWithExtension` | devel/FreeSense-composer-deps/files/composer/ClassLoader.php:492-519 | The lookup behind the first-letter index finds the same file as the search without it. |
| `ClassLoader.Loader.FindFile` | devel/FreeSense-composer-deps/files/composer/ClassLoader.php:442-475 | The answer with class map and cache; with a sound cache it is the uncached answer and the cache stays sound. |
| `LeaseTime.FormulaIsCalendar` | sysutils/dhcpleases/files/dhcpleases.c:246-256 | Over unbounded integers the formula is the Gregorian second count exactly up to the end of February 2100. |
| `LeaseTime.ConvertIsCalendar` | sysutils/dhcpleases/files/dhcpleases.c:240-259 | In the 32-bit arithmetic of the code, convert_time is the Gregorian second count if and only if the time is before 2038-01-19 03:14:08. |
| `LeaseTime.FitsBefore` | sysutils/dhcpleases/files/dhcpleases.c:240-259 | The second count is below 2^31 exactly before that time. |
| `LeaseTime.SecondsOrdered` | sysutils/dhcpleases/files/dhcpleases.c:240-259 | The second count is strictly monotone in calendar order. |
| `LeaseTime.ConvertOrdered` | sysutils/dhcpleases/files/dhcpleases.c:240-259 | convert_time is strictly monotone before that time. |
| `LeaseTime.FirstWrap` | sysutils/dhcpleases/files/dhcpleases.c:246-256 | The failing case: 2038-01-19 03:14:08 converts to the most negative 32-bit value. |
| `DhcpLeases.TokenReadsPiece` | sysutils/dhcpleases/files/dhcpleases.c:202-230 | A word that fits the buffer, bare or in quotes with blanks and semicolons, is read back unchanged. |
| `DhcpLeases.TokensReadPieces` | sysutils/dhcpleases/files/dhcpleases.c:202-230 | Such words, with any blanks, line ends and semicolons between them, are read back as the same list of tokens. |
| `DhcpLeases.LongTokenIsCut` | sysutils/dhcpleases/files/dhcpleases.c:202-230 | A bare word that does not fit is cut to the buffer and the rest of it is lost. |
| `DhcpLeases.CommentIsSkipped` | sysutils/dhcpleases/files/dhcpleases.c:202-230 | A comment before a token is skipped with its line; one that the file ends in is read as a word of its own. |
| `DhcpLeases.HostnameIsEqual` | sysutils/dhcpleases/files/dhcpleases.c:181-200 | Two names are equal exactly when they agree after folding ASCII case. |
| `DhcpLeases.Canonicalise` | sysutils/dhcpleases/files/dhcpleases.c:151-178 | A name is accepted exactly when, after one trailing dot, it has only legal characters, something besides blanks and dots, and a dot among any 64 consecutive characters. |
| `DhcpLeases.GoodNameIs` | sysutils/dhcpleases/files/dhcpleases.c:151-178 | Said in labels: a name is good exactly when each label between its dots has at most 63 legal characters and some label is not blank. |
| `DhcpLeases.FixHostnameSpaces` | sysutils/dhcpleases/files/dhcpleases.c:261-271 | Every blank becomes a dash and nothing else changes. |
| `DhcpLeases.BlocksReadBack` | sysutils/dhcpleases/files/dhcpleases.c:285-378 | A file of lease blocks with quoted names, times and other statements in any order, with stray words and leases of a bad address between them, is read back as exactly the leases these statements describe. |
| `DhcpLeases.EffectsMean` | sysutils/dhcpleases/files/dhcpleases.c:299-348 | A lease has the name of its last name statement, ends when its last end says and starts when its last start says. |
| `DhcpLeases.TimeIsCalendar` | sysutils/dhcpleases/files/dhcpleases.c:328-346 | A date and time before 2038-01-19 03:14:08 count as the calendar's seconds. |
| `DhcpLeases.NameMeans` | sysutils/dhcpleases/files/dhcpleases.c:300-322 | A name is taken exactly when it does not begin with a brace, is not too long and is good without its trailing dot; it is taken without that dot and with dashes for blanks. |
| `DhcpLeases.LegalExactly` | sysutils/dhcpleases/files/dhcpleases.c:131-145 | Legal are the letters in either case, the digits, and four more characters. |
| `DhcpLeases.WrittenIsLoaded` | sysutils/dhcpleases/files/dhcpleases.c:273-438 | From a written file to the table: an entry is there exactly when it is the lease of the last usable block of its name and has not expired. |
| `DhcpLeases.WrittenNamesFit` | sysutils/dhcpleases/files/dhcpleases.c:276-302 | Reading such a file stays inside the array of 256 characters exactly when every name has at most 255. |
| `DhcpLeases.LongNameDoesNotFit` | sysutils/dhcpleases/files/dhcpleases.c:276-302 | The failing case: one lease whose name has 256 characters. |
| `DhcpLeases.StoredMembers` | sysutils/dhcpleases/files/dhcpleases.c:380-421 | Storing a block replaces what the table had under that name and nothing else. |
| `DhcpLeases.AllStoredMembers` | sysutils/dhcpleases/files/dhcpleases.c:380-421 | After any sequence of blocks the table has one entry per name, the last block of that name. |
| `DhcpLeases.LiveMembers` | sysutils/dhcpleases/files/dhcpleases.c:424-435 | Pruning keeps exactly the entries that have not expired. |
| `DhcpLeases.LoadedFromEmpty` | sysutils/dhcpleases/files/dhcpleases.c:273-438 | For every text whose host name tokens fit their array: loading into an empty table leaves one entry per case-folded name, the last usable block of that name, unless it has expired. |
| `DhcpLeases.File.NextToken` | sysutils/dhcpleases/files/dhcpleases.c:202-230 | The character loop with its comments, quotes and bounded buffer; it stays inside the array it is given exactly when what it stores, with the terminator, is no longer. |
| `DhcpLeases.ReadTime` | sysutils/dhcpleases/files/dhcpleases.c:328-346 | Weekday, date and time of day; reading stops at the first that is wrong. |
| `DhcpLeases.ReadStatement` | sysutils/dhcpleases/files/dhcpleases.c:300-347 | One statement of a block, and whether the name it stores stays inside the array. |
| `DhcpLeases.ReadBody` | sysutils/dhcpleases/files/dhcpleases.c:299-348 | The statements up to a closing brace or the end of the file. |
| `DhcpLeases.ReadBlock` | sysutils/dhcpleases/files/dhcpleases.c:290-355 | A block, or nothing for a bad address or a missing name. |
| `DhcpLeases.FinishedMeans` | sysutils/dhcpleases/files/dhcpleases.c:351-378 | A lease never expires exactly when its end is missing, zero or one second before its start. The domain after the first dot is cut off exactly when none is configured or it is the configured one in any case; a name that is kept whole gets the configured domain added. |
| `DhcpLeases.LeaseTable.Store` | sysutils/dhcpleases/files/dhcpleases.c:380-421 | The list is updated in place or gets a new head. |
| `DhcpLeases.LeaseTable.Prune` | sysutils/dhcpleases/files/dhcpleases.c:424-435 | The loop that removes while walking leaves exactly the live entries, in order. |
| `DhcpLeases.LeaseTable.LoadDhcp` | sysutils/dhcpleases/files/dhcpleases.c:273-438 | The whole load is the fold of the usable blocks into the list, then the pruning; every write stays inside its array exactly when every host name token has at most 255 characters. |

## Left out

- Kernel ioctls and their errors: table calls succeed, one action per table, no masks. With a mask, `host_del` clears the host before the cleanup reads it, so nothing is claimed there.
- The shutdown hand-shake of filterdns threads, deadlock and liveness: they depend on lock timing and unlocked reads. A host thread that has left is simply gone.
- `pipe` and `cmd` do not take part in the reload equality, as in the code; commands run by an action are not modelled.
- DNS resolution: an answer is any list of addresses; a failed lookup is the empty one.
- Failing allocations, everywhere.
- Signed overflow in `convert_time` and the shift `1<<31` of the voucher tool are undefined in C; the model takes the two's complement value.
- Reload.UsedExactly: is stated for files without host names that begin with a slash. Such a name never finds the host it was added under (`Loads.FindsItself`), so two actions of one name may have different hosts; `Reload.UsedThroughout` holds of them too.
- XML and YAML syntax, cloud-init queries, CIDR and address parsing, guest tools: metadata and configuration are records.
- RSA and the loading of keys: the two primitives are mutually inverse functions below the modulus (sections 5.2.1 and 5.2.2 of RFC 8017), and the key size is a multiple of 8. Bit widths are not negative.
- FastCgi.DaemonRequest: is stated for requests that fit the daemon's buffer of 4096 bytes; what a longer one does is not modelled. The commands of its table all have fewer than 100 bytes.
- The queue model does not fill in parameter templates, cuts no command at 2048 bytes, and treats a failed fork as leaving the timer unarmed, as in the code.
- IfAddrs: the values collected for each address are not modelled, only which entries are visited.
- ClassLoader: PSR-0 rules, APCu and HHVM; what PSR-0 would find is given with the disk. The first-match rules are those of section 3 of PSR-4.
- DhcpLeases: `inet_pton` and the two `sscanf` formats are functions given from outside, and so is what lies behind the month table for a month above 12. What a write outside the host name's array would do is not modelled: the model goes on with the whole name and records that it happened. `%s` of a null suffix prints "(null)".
- Writing the hosts file and the unbound configuration, `kevent` watching and signals of dhcpleases: output only.
- dhcpleases6, qstats, cpustats: near copies or smaller members. filterlog, ifmedia tables, reset-button, GPIO, minicron, pfSctl, ssh_tunnel_shell: printing or device access. Status_Monitoring pages, Composer data, Makefiles: user interface or data. FreeSense-repoc and FreeSense-upgrade: their sources are not part of this model.
