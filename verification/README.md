# corectl: a verified model

A Dafny model of `corectl`, the VM manager for macOS, and proofs about it. At its centre is the
`corectld` daemon as a concurrent state machine: the registry of running VMs, the goroutines and
channels behind every Run request, the HTTP requests of the guests, the name records, and the
shutdown. Around it are the algorithms the daemon and its clients rely on: the seekable view of
compressed assets, memory and volume admission, the image store and its index, target resolution,
boot arguments, the NFS exports file, the lease file, and the list-flag workaround.

Run `dafny verify dfyconfig.toml` in this directory to check everything.

## Layout

| file | what it models |
|---|---|
| `Text.dfy`, `Decimal.dfy`, `Sorting.dfy`, `Names.dfy` | the parts of Go's `strings`, `strconv` and `sort` the rest uses, with their laws |
| `Lifecycle.dfy` | the daemon's state, its events, and what each event does |
| `LifecycleInvariants.dfy` | what every event keeps |
| `LifecycleTheorems.dfy`, `LifecycleDns.dfy`, `LifecycleStop.dfy` | what holds in every run: replies, ownership and crashes; name records; shutdown |
| `LifecycleHistory.dfy` | an account of the daemon from the list of events alone, which the state machine is proved to agree with |
| `Daemon.dfy` | the daemon's code as classes, each method proved to be an event of `Lifecycle.dfy` |
| `Dns.dfy` | keys and records of the name server |
| `SplitAdmission.dfy` | admission as two steps, which `Lifecycle.dfy` takes as one |
| `Volumes.dfy`, `Admission.dfy`, `Load.dfy`, `Flags.dfy` | the client's checks before a boot, and the `load` command |
| `Clients.dfy`, `Overbooking.dfy` | several clients checking and booting at once: what still holds, and exactly when the limits fail |
| `Targets.dfy`, `BootArgs.dfy` | which VMs a stop request means; the command line of a VM's process |
| `SemVer.dfy`, `Images.dfy`, `ImageIndex.dfy` | versions, the image store on disk, the in-memory index |
| `Exports.dfy`, `Leases.dfy` | `/etc/exports`, the DHCP lease file |
| `CompressedFiles.dfy`, `Directories.dfy` | the embedded assets' files and directories |

## Grain and assumptions

An event of the state machine is one uninterrupted stretch of code; every interleaving of events is a
run. These stretches are longer than what the code's lock covers:

* Admission: from the accept test through `lookup` and the insertion into the registry to the creation
  of the request's goroutines. The code gives the lock back between lookup and insertion
  (components/server/run.go:395-399). `SplitAdmission.dfy` takes the two apart:
  `SplitAdmission.InShapeThroughoutIff` says exactly which runs do harm, whatever happens in between,
  and `SplitAdmission.SeparateLookupAndInsertClash` is one that does.
* The start of a Stop request: the accept test, which takes no lock, the locked write that refuses
  further requests, and the listing of the registry, which takes no lock either
  (components/server/rpcservices.go:314-323). Two Stop requests that both pass the test, and a VM
  admitted while the registry is being listed, are not modelled.
* The body of an HTTP handler, from the test of who is calling to its last effect.
* The watcher's receipt of an address: the receive is before the lock, the closing of both channels
  after it (components/server/rpcservices.go:264-271).
* The watcher's time-out, which writes the process identifier without the lock
  (components/server/rpcservices.go:259-261).
* A runner's start: the job is counted before the lock is taken, and a failure is sent to the request
  after it is given back (components/server/rpcservices.go:275-288).

A process may exit, a timer fire and a guest call at any moment. A failed start of the process and a
failed creation of the run directory are part of the model, and so is the crash the first can lead to
(`LifecycleTheorems.CrashesIff`). That shutting down comes to an end rests on VMs exiting once they
are signalled and on their leaving in turn. It can come to an end exactly as long as every VM left on
the list, but the one being waited for, is up or still to be started
(`LifecycleStop.StopReturnsIff`): one that has left out of turn, could not be started, or was never
given a runner stops it for good. The store of name records is a map in which writing always succeeds and deleting a
missing key is an error. The state machine needs a domain that is not below `arpa` and has no slashes,
which the built-in `coreos.local` is (`Dns.DefaultDomainIsGood`), and that no guest's address is the
empty string.

The client's checks (memory, volumes) are one step, made on what the daemon reports at that moment;
the Run request is a later step. With one client at a time both limits hold in every run
(`Admission.SequentialClientsStayWithinLimits`). With k at once memory exceeds the limit by at most
k - 1 times the largest VM (`Clients.ClientsStayWithin`), and it does get there
(`Overbooking.ConcurrentClientsReachTheBound`). Exactly when the limits hold in all runs of k clients
is `Overbooking.MemoryLimitHoldsIff` and `Overbooking.VolumesStayApartIff`.

`Images.dfy` and `SemVer.dfy` use an insertion sort where the code calls `sort.Sort`; only "sorted" and
"same elements" are used of it, except that a second scan gives the identical list because the same
input is sorted the same way.

## Where the code does not do what it says

* The error text for the name `corectld` calls it the only reserved one, but the daemon also registers
  `corectld.ns.dns`. That record is lost exactly when a VM with its key ends or is announced from an
  address other than the host's (`LifecycleDns.NameserverRecordIsLostIff`).
* VM names may have slashes, and then two VMs can share a key. A VM's record is lost exactly when
  another with its key ends or is announced from another address (`LifecycleDns.RecordIsTakenIff`).
* The reply "VM terminated abnormally too early" is never given (`LifecycleTheorems.RepliesAreTruthful`);
  a VM that ends before its guest reports in is answered with the time-out
  (`LifecycleTheorems.SilentEndTimesOut`).
* The format recorded for a volume is that of the file only if no qcow2 volume follows a raw one in the
  same call, because the loop's variable keeps its value (`Volumes.FormatsMatchIff`,
  `Volumes.LaterQcow2IsTakenForRaw`).
* Removing a version that is not in the index takes the last version out of it
  (`ImageIndex.RemovalTakesTheVersionIff`), and with an empty list the code panics while it holds the
  daemon's lock.
* A read past the end of a compressed asset spoils later reads (`CompressedFiles.ReadIsRightIff`).
* The limits on memory and volumes hold only as long as one client boots at a time: they fail in some
  run of two exactly if the host has the memory for a VM at all, and for volumes also a file that can be
  one (`Overbooking.MemoryLimitHoldsIff`, `Overbooking.VolumesStayApartIff`).
* A stop request can be accepted although one of its ids means no VM: that takes a VM named like
  another's UUID, which the daemon admits (`Targets.UnknownIdAccepted`, `Targets.NameOfAnothersUuidRun`);
  the command line lowers names and raises UUIDs, so from there it takes a UUID without letters.
* A stop request that names a VM twice, say by name and by UUID, is accepted and then dereferences nil
  (`Targets.StopFinishesIff`, `Targets.NamingTwicePanics`).
* A forced stop request kills one VM, however many it names (`Targets.StopVMs`).
* The exports file keeps legacy lines if the current one is there already
  (`Exports.NoLegacyLineSurvivesIff`).
* A lease whose hardware address comes before its IP address is answered with the previous lease's
  address (`Leases.LeaseGivesItsOwnAddressIff`, `Leases.LateAddressIsMissed`).

## Model

| member | source | states |
|---|---|---|
| `LifecycleTheorems.ChannelsAreUsedOnce` | components/server/rpcservices.go:256-305 | In every run a VM's address channel takes at most one send and its error channel at most one; no send blocks or meets a closed channel, nothing is closed twice; a request is released by `done` with address and process known, or by one error, never both |
| `LifecycleTheorems.RepliesAreTruthful` | components/server/rpcservices.go:296-305 | A request's reply is its VM's own non-empty address or the one error that happened; the answer "terminated too early" is never given |
| `LifecycleHistory.StateAgreesWithLedger` | components/server/rpcservices.go:224-308 | In every run the daemon's VMs are as an account kept from the events alone has them: settings and time of admission, process, runner, first reporter's address, last announcement, isolation |
| `LifecycleHistory.AddressIsTheFirstCallers` | components/server/httpservices.go:171-185 | In every run a VM's address, and the one replied to its request, is that of the first report under its own UUID, from the VM network, while it had the entry |
| `LifecycleHistory.AddressesAreOnTheNetwork` | components/server/httpservices.go:71-86 | In every run a VM's address and its announced one are on the VM network and not loopback |
| `LifecycleTheorems.RepliesStand` | components/server/rpcservices.go:224-308 | Once given, a reply is the same in every continuation of the run |
| `LifecycleTheorems.EveryRequestCanBeAnswered` | components/server/rpcservices.go:256-305 | From every reachable state there is a continuation, of the request's own goroutines alone, that ends in a reply |
| `LifecycleTheorems.RequestAdvances` | components/server/rpcservices.go:256-305 | In every reachable state an unanswered request has a step of its own goroutines open that does not crash and brings the reply nearer, whether or not its process starts |
| `LifecycleTheorems.AnsweredWithinFourSteps` | components/server/rpcservices.go:256-305 | In every run at most four such steps come before the reply, and no event takes it further away: a request whose goroutines keep running is answered |
| `LifecycleTheorems.SilentEndTimesOut` | components/server/rpcservices.go:256-305 | A VM that ended before its guest reported in is answered with the time-out or not yet, in every continuation |
| `LifecycleTheorems.CrashesIff` | components/server/rpcservices.go:256-272 | An event brings the daemon down exactly if it wakes a watcher whose VM has no process |
| `LifecycleTheorems.RunCrashesIff` | components/server/rpcservices.go:256-294 | The same over whole runs: exactly the runs with such an event crash |
| `LifecycleTheorems.FailedStartCrashes` | components/server/rpcservices.go:259-261 | A process that cannot be started followed by its time-out is such a run |
| `LifecycleTheorems.RegistryIsOwned` | components/server/run.go:369-415 | In every run entries are filed under their VM's own UUID, names differ from each other and from `corectld`, and exactly the VMs whose runner is not finished have an entry |
| `LifecycleHistory.RegistryIsWhoIsLeft` | components/server/run.go:384-415 | In every run the registry has exactly the VMs that got in and have not ended, by the events |
| `LifecycleHistory.FreeIsUnrefused` | components/server/run.go:369-402 | A request gets in exactly if requests are accepted, the name is not `corectld`, and no VM that got in and has not ended has the name or the UUID |
| `LifecycleHistory.RefusedAsDeserved` | components/server/run.go:384-402 | Which refusal it is: shutting down, before the reserved name, before a name or UUID in use |
| `LifecycleHistory.DepartureTakesBothRecords` | components/server/run.go:406-415 | A VM that ends takes its record along and, if that was there, the reverse record of its address |
| `LifecycleTheorems.ExitRemovesOwnEntry` | components/server/run.go:406-415 | A VM that ends takes its own entry out of the registry and no other |
| `LifecycleTheorems.MissingRunnerStays` | components/server/rpcservices.go:246-248 | A VM whose run directory could not be made keeps its entry in every continuation |
| `SplitAdmission.InsertionKeepsShapeIff` | components/server/run.go:395-399 | Whatever happens between lookup and insertion, the insertion keeps the registry in shape exactly if name and UUID are free when it happens |
| `SplitAdmission.InShapeThroughoutIff` | components/server/run.go:395-399 | In every run, with everything else the daemon does in between, the registry stays in shape throughout exactly if no VM is inserted whose name or UUID has been taken since it looked |
| `SplitAdmission.RefusedOnlyDrains` | components/server/rpcservices.go:224-236 | Once requests are refused, the VMs that still get in are some of those that had looked before |
| `SplitAdmission.LookThenInsertIsAdmission` | components/server/run.go:384-404 | With nothing in between, the two steps are the admission of the state machine |
| `SplitAdmission.SeparateLookupAndInsertClash` | components/server/run.go:395-399 | A run in which two requests look before either inserts, and two VMs get in under one name |
| `LifecycleTheorems.NextEvolves` | components/server/rpcservices.go:224-308 | No event changes a VM's configuration, brings back a finished runner, replaces a process or a reply, or admits a VM once requests are refused |
| `LifecycleInvariants.NextKeepsRegistry` | components/server/run.go:369-415 | Every event keeps all VMs' channels, goroutines and replies consistent and the registry in shape, and no fault but the missing process can occur |
| `LifecycleInvariants.HandlersKeep` | components/server/httpservices.go:171-185 | A guest's report never blocks or panics while the daemon is locked |
| `LifecycleInvariants.RunnerExitedKeepsRegistry` | components/server/rpcservices.go:289-293 | Deregistering keeps ownership and the job count |
| `LifecycleDns.ReservedRecordSurvives` | components/server/dns.go:88-97 | Whatever VMs come and go under whatever names, `corectld` resolves to the host until the server closes |
| `LifecycleDns.RecordsAgreeWithRegistry` | components/server/dns.go:175-203 | With slash-free names, and no VM ever named like the name server, the forward records are exactly the daemon's two and those of the registered VMs that were announced |
| `LifecycleDns.RecordsAreCurrent` | components/server/httpservices.go:148-151 | An announced VM's record carries the address of its last announcement |
| `LifecycleDns.NextKeepsDns` | components/server/dns.go:175-203 | Every event keeps the agreement of records and registry |
| `LifecycleDns.RecordIsLostIff` | components/server/dns.go:175-203 | A record that stands is lost exactly at the end of a VM with its key, at the announcement of one from another address, or, the daemon's own, at the close |
| `LifecycleDns.RecordStandsThroughoutIff` | components/server/dns.go:175-203 | Over every run a record stands throughout exactly if no such event happens |
| `LifecycleDns.NameserverRecordIsLostIff` | components/server/dns.go:93-97 | The name server's record is lost exactly when a VM with its key ends or is announced from an address other than the host's |
| `LifecycleDns.NameserverStandsThroughoutIff` | components/server/dns.go:93-97 | The same over every run of the daemon |
| `LifecycleDns.NameserverRecordCanBeLost` | components/server/dns.go:93-97 | A run in which a VM named like the name server takes its record away |
| `LifecycleDns.RecordIsTakenIff` | components/server/run.go:406-415 | A registered VM's current record is lost, at any event but the VM's own end, exactly if another VM with the same key ends or is announced from another address |
| `LifecycleDns.AnnouncedStillStandIff` | components/server/dns.go:175-203 | If all announced VMs have their records, they still do after an event exactly if it takes none |
| `LifecycleDns.AllStandThroughoutIff` | components/server/dns.go:175-203 | The same over every run |
| `LifecycleDns.KeysDifferMeansAllStand` | components/server/dns.go:175-203 | Announced VMs have their records after every run in which registered VMs never share a key |
| `LifecycleDns.SlashFreeMeansKeysDiffer` | components/server/dns.go:166-178 | Slash-free names never share a key in any run |
| `LifecycleDns.SharedKeyLosesRecord` | components/server/run.go:406-415 | Of two registered VMs whose names share a key, the first to end takes the other's record |
| `LifecycleDns.SlashNamesLoseRecords` | components/server/dns.go:166-178 | With the names `a/b` and `b.a` the agreement fails |
| `LifecycleDns.SlashNamesRun` | components/server/run.go:384-404 | A run that leads there |
| `LifecycleStop.RegistryOnlyShrinks` | components/server/rpcservices.go:314-323 | Once requests are refused the registry only loses entries, in every run |
| `LifecycleStop.StopSignalsOneByOneNewestFirst` | components/server/run.go:329-346 | In every run VMs are signalled newest first, and all but the last one signalled have left the registry |
| `LifecycleHistory.CreatedWhenAdmitted` | components/server/rpcservices.go:246-249 | Whatever happened since, a VM has the settings of the admission that entered it and, unless there was no run directory, the time the clock showed then |
| `LifecycleHistory.SignalsFollowAdmissions` | components/server/run.go:329-334 | In every run the VMs Stop signals are in the order of the clock at their admissions, the latest first, read off the events |
| `LifecycleStop.StopEndsEmpty` | components/server/rpcservices.go:323-325 | When Stop returns no VM is registered and no job is left |
| `LifecycleStop.WorkNeverGrows` | components/server/run.go:329-346 | No event adds to what Stop has left to do; every step of its loop and every departure takes some off |
| `LifecycleStop.StopAlwaysAdvances` | components/server/run.go:329-346 | While Stop runs, its next step or the exit of the VM it has signalled is possible and reduces the work |
| `LifecycleStop.StopPanicsIff` | components/server/run.go:332-334 | The loop dereferences nil exactly if the next VM's runner is not up: gone, not started, or never created |
| `LifecycleStop.OrderlyStopNeverPanics` | components/server/run.go:329-346 | If every listed VM is up and none leaves before its turn, the loop never panics |
| `LifecycleStop.StopReturnsIff` | components/server/rpcservices.go:319-325 | From every reachable state of the loop, some continuation lets Stop return exactly if every VM left on the list, but the one it waits for, is up or still to be started |
| `LifecycleStop.StoppableFinishes` | components/server/rpcservices.go:319-325 | In that case there is a continuation that ends with no VM, no job, and the main goroutine notified |
| `LifecycleStop.LeavingOutOfTurnDooms` | components/server/run.go:332-334 | A listed VM that exits before its turn dooms the shutdown |
| `LifecycleStop.DoomedStopNeverReturns` | components/server/run.go:332-334 | If a listed VM, other than the one waited for, has gone, could not be started or was never given a runner, or the loop has panicked, Stop returns in no continuation |
| `LifecycleStop.ClosedOnlyWhenIdle` | components/server/server.go:149-161 | The server closes only with no job left and requests refused; entries left behind are exactly those of VMs whose runner was never scheduled or never created |
| `LifecycleStop.CloseCanMissAQueuedVm` | components/server/server.go:149-161 | A run in which such an entry is left behind |
| `Daemon.VMInfo.constructor` | components/server/rpcservices.go:233-249 | A VM as Run sets it up, with or without a run directory |
| `Daemon.VMInfo.Start` | components/server/rpcservices.go:284-288 | The runner starts the process or reports the error on the error channel |
| `Daemon.VMInfo.TimeOut` | components/server/rpcservices.go:259-261 | The time-out records the process and signals it; without a process it panics |
| `Daemon.VMInfo.GiveUp` | components/server/rpcservices.go:262-263 | The second time-out fails the request |
| `Daemon.VMInfo.TakeIP` | components/server/rpcservices.go:264-271 | The watcher takes the address, records it and the process, and closes both channels |
| `Daemon.VMInfo.AnswerRequest` | components/server/rpcservices.go:296-305 | The final select gives exactly one reply |
| `Daemon.VMInfo.CallBack` | components/server/httpservices.go:178-182 | Only the first report is passed on |
| `Daemon.VMInfo.CheckIsolation` | components/server/httpservices.go:163-167 | The first connectivity request marks the VM |
| `Daemon.ServerContext.constructor` | components/server/server.go:60-69 | A new daemon is the initial state |
| `Daemon.ServerContext.Lookup` | components/server/run.go:369-382 | The loop finds a VM exactly if its UUID or name is taken |
| `Daemon.ServerContext.Admit` | components/server/run.go:384-404 | Refusals in the code's order, and otherwise exactly the new VM is entered under its UUID |
| `Daemon.ServerContext.Enter` | components/server/rpcservices.go:233-249 | Exactly one VM and one entry are added |
| `Daemon.ServerContext.StartRunner` | components/server/rpcservices.go:275-288 | The runner's start is the Start event, with its job counted |
| `Daemon.ServerContext.Launch` | components/server/rpcservices.go:284-288 | Starting the process changes its VM as specified and nothing else |
| `Daemon.ServerContext.EndRunner` | components/server/rpcservices.go:289-294 | The runner's end is the Exit event |
| `Daemon.ServerContext.Deregister` | components/server/run.go:406-415 | The VM's record and its entry go, nothing else does |
| `Daemon.ServerContext.WatcherTimesOut` | components/server/rpcservices.go:259-261 | Is the Timeout event |
| `Daemon.ServerContext.WatcherGivesUp` | components/server/rpcservices.go:261-263 | Is the Expire event |
| `Daemon.ServerContext.WatcherTakesIP` | components/server/rpcservices.go:264-271 | Is the TakeIP event |
| `Daemon.ServerContext.AnswerRun` | components/server/rpcservices.go:296-305 | Is the Answer event |
| `Daemon.ServerContext.AcceptableRequest` | components/server/httpservices.go:69-86 | Accepted, unauthorized or not found by address first and registry second |
| `LifecycleHistory.RequestIsJudged` | components/server/httpservices.go:71-86 | A caller is unauthorized exactly if it is neither on the VM network nor on loopback; one that is not is accepted exactly for a registered UUID |
| `LifecycleHistory.StrangersChangeNothing` | components/server/httpservices.go:105-185 | A callback, ignition or connectivity request from elsewhere than the VM network leaves the daemon as it was |
| `Daemon.ServerContext.InstanceCallback` | components/server/httpservices.go:171-185 | Is the Callback event; loopback callers are refused |
| `Daemon.ServerContext.PassOn` | components/server/httpservices.go:178-182 | A report changes its VM as specified and nothing else |
| `Daemon.ServerContext.InstanceConnectivity` | components/server/httpservices.go:156-170 | Is the Connectivity event |
| `Daemon.ServerContext.InstanceIgnition` | components/server/httpservices.go:111-154 | Is the Ignition event: the guest's address becomes its record |
| `Daemon.ServerContext.Array` | components/server/run.go:492-497 | The registered VMs, each once, in whatever order |
| `Daemon.ServerContext.NewestFirstOrder` | components/server/run.go:330-330 | The same VMs by descending creation time |
| `Daemon.ServerContext.StopList` | components/server/rpcservices.go:323-323 | The list Stop works on is exactly the registry, newest first |
| `Daemon.ServerContext.BeginStop` | components/server/rpcservices.go:314-323 | Refused if requests already are; otherwise Stop refuses further ones and takes the list |
| `Daemon.ServerContext.StopSignalNext` | components/server/run.go:332-334 | Signals the head of the list, or panics if there is nothing to signal |
| `Daemon.ServerContext.StopPollNext` | components/server/run.go:335-343 | Goes on exactly once the VM it signalled has left the registry |
| `Daemon.ServerContext.EndStop` | components/server/rpcservices.go:324-325 | Stop ends and notifies the main goroutine |
| `Daemon.ServerContext.WakeMain` | components/server/server.go:149-158 | The main goroutine refuses requests once notified |
| `Daemon.ServerContext.CloseServer` | components/server/server.go:160-161 | With no job left the server closes and the daemon's own record is removed |
| `Dns.InvertDomain` | components/server/dns.go:166-173 | The loop yields the labels in reverse, joined with slashes |
| `Dns.InvertedIsUndone` | components/server/dns.go:166-173 | On slash-free names the mirrored function gives the name back |
| `Dns.InvertedIsInjective` | components/server/dns.go:166-173 | Different slash-free names have different paths |
| `Dns.InvertedHasNoDots` | components/server/dns.go:177-178 | The later replacement of dots does nothing |
| `Dns.ForwardKeyIsInjective` | components/server/dns.go:176-178 | Slash-free host names share a key only if they are equal |
| `Dns.SlashesMakeKeysCollide` | components/server/dns.go:176-178 | With slashes they need not be, in any domain |
| `Dns.SingleLabelKeyIsUnique` | components/server/dns.go:176-178 | A single-label name such as `corectld` shares its key with no other name, slashes or not |
| `Dns.ReverseKeyIsArpaKey` | components/server/dns.go:185-186 | The reverse key is the path of the address's IN-ADDR.ARPA name (section 3.5 of RFC 1035) |
| `Dns.ForwardIsNotReverse` | components/server/dns.go:175-188 | Forward and reverse records never share a key |
| `Dns.AddedForward` | components/server/dns.go:175-189 | Adding a record writes exactly one forward record |
| `Dns.RemovedForward` | components/server/dns.go:191-203 | Removing one deletes exactly that forward record, if it is there |
| `Dns.AddedResolvesBothWays` | components/server/dns.go:175-203 | An added host resolves both ways, and removing it under the same address takes out exactly the two records |
| `Dns.DNSServer.constructor` | components/server/dns.go:84-97 | The fresh server has the daemon's two names |
| `Dns.DNSServer.AddRecord` | components/server/dns.go:175-189 | Writes the forward and then the reverse record |
| `Dns.DNSServer.RmRecord` | components/server/dns.go:191-203 | Deletes the forward record and, only if that worked, the reverse one; succeeds exactly if both were there |
| `CompressedFiles.FileRefinesFlatArray` | components/common/assets/assets_vfsdata.go:173-207 | For every sequence of Seek and Read with reads at 0..size and every choice of short reads, the file returns what a flat array returns, position by position, and the stream is where the file believes it is |
| `CompressedFiles.FlatArrayRefinesFile` | components/common/assets/assets_vfsdata.go:173-207 | Every run of the flat array is a run of the file |
| `CompressedFiles.SeekThenRead` | components/common/assets/assets_vfsdata.go:195-207 | After a seek from start, current position or end, a read delivers what stands at that byte |
| `CompressedFiles.ReachableOffsets` | components/common/assets/assets_vfsdata.go:166-207 | In every run, whatever is read where, the stream is where the file believes it is or at its end |
| `CompressedFiles.ReadKeepsSyncIff` | components/common/assets/assets_vfsdata.go:182-192 | A read keeps stream and file together exactly if it is aimed within the content or the stream is at its end |
| `CompressedFiles.ReadIsRightIff` | components/common/assets/assets_vfsdata.go:173-194 | In a reachable state a read returns the right bytes exactly if file and stream agree, it rewinds, or there is nothing to deliver |
| `CompressedFiles.SyncedIffEveryByteReadsBack` | components/common/assets/assets_vfsdata.go:173-194 | File and stream agree exactly if every single byte reads back correctly |
| `CompressedFiles.ReadPastEndLosesTheStart` | components/common/assets/assets_vfsdata.go:182-188 | After a read past the end of a fresh file, seeking to the start and reading yields nothing |
| `CompressedFiles.CompressedFile.constructor` | components/common/assets/assets_vfsdata.go:121-130 | An opened file starts at 0 |
| `CompressedFiles.CompressedFile.Read` | components/common/assets/assets_vfsdata.go:173-194 | One read: rewind, skip, deliver; offsets and bytes as specified, in the error case too |
| `CompressedFiles.CompressedFile.Seek` | components/common/assets/assets_vfsdata.go:195-207 | One seek, relative to start, position or end |
| `CompressedFiles.Discard` | components/common/assets/assets_vfsdata.go:182-185 | Skips exactly the bytes asked for, through any short reads, or reaches the end and fails |
| `Directories.PagesConcatenate` | components/common/assets/assets_vfsdata.go:249-259 | The pages from any sequence of counts concatenate to the entries between the positions |
| `Directories.FixedCountCovers` | components/common/assets/assets_vfsdata.go:249-259 | With a fixed positive count c, k calls deliver the first min(k*c, n) entries, and the end is reported exactly from then on |
| `Directories.RestInOnePage` | components/common/assets/assets_vfsdata.go:249-259 | A count that is not positive gets all that is left, and never the end |
| `Directories.PageOfCount` | components/common/assets/assets_vfsdata.go:249-259 | A positive count gets that many as long as there are, and the end exactly with none left |
| `Directories.Dir.Readdir` | components/common/assets/assets_vfsdata.go:249-259 | One page, the new position, and the end exactly when it is due |
| `Directories.Dir.Seek` | components/common/assets/assets_vfsdata.go:241-247 | Only a rewind succeeds |
| `Volumes.AcceptedIff` | components/server/run.go:122-194 | Volumes are accepted exactly if all files can be read, are distinct, unused by other VMs, and end in `.img` from the first non-qcow2 one on; the drives are then those files in order, in consecutive slots |
| `Volumes.JudgedAsDeserved` | components/server/run.go:130-185 | What one volume is accepted as or refused for, in the order of the checks |
| `Volumes.FormatsMatchIff` | components/server/run.go:126-152 | Recorded formats are the files' own exactly if no qcow2 volume follows one that is not |
| `Volumes.LaterQcow2IsTakenForRaw` | components/server/run.go:141-152 | An accepted call that records a qcow2 image as raw |
| `Volumes.CallKeepsSane` | components/server/run.go:129-192 | A call keeps slots consecutive and paths distinct and appends the new paths in argument order |
| `Volumes.BootDrives` | cmd/run.go:179-187 | After the root call and the volume call the slots are 0..n-1, root first, paths distinct, none in use by another VM |
| `Volumes.BootAcceptedIff` | cmd/run.go:179-187 | The two calls succeed exactly if each list is admissible on its own and they share no file |
| `Volumes.AsMapAt` | components/server/run.go:186-187 | The drive of slot k is found under the decimal form of k |
| `Volumes.AsMapKey` | components/server/run.go:186-187 | Every key is the decimal form of the slot of its drive |
| `Volumes.AsMapHas` | components/server/run.go:179-187 | The number of drives is a free slot |
| `Volumes.Storage.UsedByAnother` | components/server/run.go:165-173 | True exactly if a registered VM has the file |
| `Volumes.Storage.UsedHere` | components/server/run.go:180-185 | True exactly if one of the VM's own drives is the file |
| `Volumes.Storage.JudgeVolume` | components/server/run.go:130-185 | The checks on one volume, in the code's order |
| `Volumes.Storage.ValidateVolumes` | components/server/run.go:122-194 | The loop computes the specified outcome, the map of drives, and whether there is a persistent root |
| `Admission.Bootstrap` | cmd/run.go:96-187 | Clamping, the sum over running VMs, and the two volume calls give the specified verdict |
| `Admission.AdmittedIff` | cmd/run.go:96-187 | A boot is admitted exactly if it and what runs take at most two thirds of the host's whole megabytes, in exact arithmetic, and its root and other volumes are admissible with no file in common |
| `Admission.TooMuchMemoryIff` | cmd/run.go:97-127 | The memory test fails exactly if three times the memory of all VMs, the new one's held between 1024 and 8192 MB, is more than twice the host's whole megabytes |
| `Admission.AdmittedAsAsked` | cmd/run.go:93-187 | What is admitted has the name and UUID asked for, the memory granted, and its volumes' files in order |
| `Admission.SequentialClientsStayWithinLimits` | cmd/run.go:96-127 | In every run of clients booting one VM at a time, total memory stays within two thirds of the host's, each VM has 1024 to 8192 MB, and no two share a volume |
| `Admission.ClientNextKeeps` | cmd/run.go:108-127 | Every step of client or daemon keeps those limits, with a checked VM counted from its check on |
| `Clients.ClientsStayWithin` | cmd/run.go:108-127 | In every run in which at most k VMs are checked and not yet registered, memory exceeds the limit by at most (k-1) times 8192 MB |
| `Clients.OneClientIsSequential` | cmd/run.go:96-127 | A crowd of one behaves, in every run, as the client that boots one VM at a time |
| `Overbooking.ConcurrentClientsReachTheBound` | cmd/run.go:108-127 | On every host whose limit is 8192 MB or at least 9216, any number of clients with different largest VMs reach that bound, after a run that leaves room for just one |
| `Overbooking.MemoryLimitHoldsIff` | cmd/run.go:108-127 | For every host and every k: memory stays within the limit in all runs of k clients exactly if k is one or the limit is below the smallest VM |
| `Overbooking.VolumesStayApartIff` | cmd/run.go:179-187 | For every host and every k: no two VMs share a volume in any run of k clients exactly if k is one, the limit is below the smallest VM, or no file of the host can be a volume |
| `Load.BootOrder` | cmd/load.go:104-108 | The names of the profile, each once, ascending by their characters |
| `Load.LoadKeepsLimits` | cmd/load.go:109-119 | However a load ends and whatever happens meanwhile, the limits hold, and it boots at most the profile's VMs |
| `Load.StopsAtFirstFailure` | cmd/load.go:109-119 | A load stops at the first VM that is not booted: cutting the profile off behind it makes no difference |
| `Flags.SplitFlags` | cmd/main.go:105-116 | The nested loops strip and split every value, in order |
| `Flags.SlicedIsClean` | cmd/main.go:105-116 | No output has brackets or commas, and a non-empty list stays non-empty |
| `Flags.StrippedIsUnbracketed` | cmd/main.go:105-116 | Stripping takes out the brackets, wherever they stand, and nothing else |
| `Flags.SlicedSurvivesReexec` | cmd/server.go:102-103 | A non-empty list joined with commas and taken apart again is the same list |
| `Flags.EmptyListDoesNot` | cmd/server.go:102-103 | An empty list comes back as one empty value |
| `Flags.SlicedTwice` | cmd/main.go:105-116 | Clean lists are left alone |
| `Targets.FindTargets` | components/server/rpcservices.go:362-372 | The nested loop collects, id by id, exactly the VMs the id means; the request passes exactly if counts agree |
| `Targets.TargetsAreResolved` | components/server/rpcservices.go:362-372 | If no name is another VM's UUID, the request passes exactly if every id resolves, and then target i is the one VM id i means, repeated ids included |
| `Targets.CountTestIsRightIff` | components/server/rpcservices.go:370-372 | The count test judges all requests rightly exactly if no VM's name is another VM's UUID |
| `Targets.UnknownIdAccepted` | components/server/rpcservices.go:370-372 | Otherwise a request with an unknown id can pass, its targets being the two VMs the other id means |
| `Targets.NameOfAnothersUuidRun` | components/server/run.go:369-399 | A run in which the daemon admits a VM named like another's UUID |
| `Targets.UnknownIdStopsBoth` | components/server/rpcservices.go:362-376 | In the registry it leads to, a request with an unknown id is accepted and stops both VMs |
| `Targets.StopVMs` | components/server/rpcservices.go:340-381 | Refused, unknown, all, those named, or forced on exactly one VM, by the code's branches |
| `Targets.FinishesIff` | components/server/run.go:329-346 | On a list of VMs, with nobody else coming or going, the shutdown loop finishes exactly if all are registered and none is listed twice |
| `Targets.StopFinishesIff` | components/server/rpcservices.go:362-376 | In any registry, the loop on the targets of any request finishes, in whatever order they are taken, exactly if no VM is named by two of its ids |
| `Targets.NamingTwicePanics` | components/server/rpcservices.go:362-376 | A request that names one VM twice passes the count test and does not finish |
| `Targets.RegistryIsRegistered` | components/server/run.go:384-404 | Every reachable registry meets what target resolution requires of it |
| `BootArgs.AssembleBootPayload` | components/server/run.go:249-327 | The tokens, kernel and command line put together, for every iteration order of the maps |
| `BootArgs.KernelArguments` | components/server/run.go:268-301 | The line built piece by piece is the kernel's arguments and what the user adds, with a space between any two |
| `BootArgs.KernelGetsItsArgumentsIff` | components/server/run.go:268-301 | Split at spaces, the line is those arguments and then the user's words, if and only if no name or address in the former contains a space |
| `BootArgs.OptionalArgumentsIff` | components/server/run.go:268-288 | The root label is among the arguments exactly with a persistent root, a cloud configuration exactly if one is set |
| `BootArgs.KernelIsTold` | components/server/run.go:251-301 | Among the kernel's arguments are its console, the VM's name, where its configuration is, and the cloud configuration that is set |
| `BootArgs.KernelFiles` | components/server/run.go:253-258 | Kernel and ram disk are the files of that channel and version in the image store |
| `BootArgs.KexecFieldsIff` | components/server/run.go:324-325 | Split at commas, the kernel option is `kexec`, the kernel, the ram disk and the line, if and only if the image's path has no comma |
| `BootArgs.RunnerArguments` | components/server/rpcservices.go:243-254 | The process gets exactly the assembled tokens, the extra hypervisor string as words, and the kernel, if and only if no path, name or identifier contains a space |
| `BootArgs.RunnerGetsTheTokensIff` | components/server/rpcservices.go:251-252 | Splitting the joined tokens gives the tokens back exactly under that condition |
| `BootArgs.TokensAreFreeIff` | components/server/run.go:257-322 | No token has a space exactly if none of the strings that go into them has |
| `BootArgs.TokensSurviveIff` | components/server/rpcservices.go:251-252 | For any non-empty token list: split after join is the identity exactly on tokens without the separator |
| `BootArgs.ExtraArrivesAsWords` | components/server/run.go:295-297 | A token with spaces arrives as its words, in its place |
| `BootArgs.EachDriveOnce` | components/server/run.go:317-327 | Whatever the map order, every granted drive appears exactly once, at its own slot |
| `BootArgs.HypervisorIsTold` | components/server/run.go:259-297 | The hypervisor gets the VM's memory, processors, UUID and console under their options, and what the user adds |
| `BootArgs.InterfacesAreTold` | components/server/run.go:303-311 | Every interface is there with its number, taps with their path |
| `BootArgs.CdsAreTold` | components/server/run.go:313-316 | Every CD-ROM is there with its slot and path |
| `BootArgs.DrivesAreTold` | components/server/run.go:318-327 | Every disk is there with its slot, path and format |
| `SemVer.ParsePrintsBack` | vendor/github.com/blang/semver/semver.go:227-313 | What parses prints back to the same text and is valid |
| `SemVer.PrintReadsBack` | vendor/github.com/blang/semver/semver.go:33-62 | Every valid version is read back from its text |
| `SemVer.CompareLoop` | vendor/github.com/blang/semver/semver.go:142-160 | The loop over pre-release identifiers computes the recursive comparison |
| `SemVer.PrecedenceIsTotal` | vendor/github.com/blang/semver/semver.go:113-162 | Precedence is a total preorder; versions compare equal exactly if they differ in build metadata only (section 11 of SemVer 2.0.0) |
| `SemVer.ComparesAsTheStandardSays` | vendor/github.com/blang/semver/semver.go:113-162 | The comparison is the order of the standard: by major, minor and patch number; a pre-release before its release; numeric identifiers by value before others; those by their characters; a list before its extensions |
| `SemVer.TextOfVersion` | vendor/github.com/blang/semver/semver.go:33-62 | A version prints as its three numbers with dots, then pre-release and build metadata |
| `SemVer.PlainVersionReads` | vendor/github.com/blang/semver/semver.go:227-313 | Three numbers with dots are read as major, minor and patch, in this order |
| `Names.ComparesText` | vendor/github.com/blang/semver/semver.go:380-388 | Texts are compared by their characters where they first differ, and a beginning comes before its extensions |
| `SemVer.PreReleaseIsOlder` | vendor/github.com/blang/semver/semver.go:133-140 | A pre-release is older than its release, and nothing but pre-releases of the same release lies between |
| `Images.CheckEntry` | components/server/images.go:66-87 | The inner loop and sort keep a directory exactly if both files exist and the newest of three times is past the breakage |
| `Images.JudgeEntry` | components/server/images.go:65-104 | Files are passed over, usable directories must be versions, others must be deletable |
| `Images.UsableIff` | components/server/images.go:71-87 | A version is kept exactly if it has both files and one of them, or its directory, has changed since the breakage |
| `Images.ScanNames` | components/server/images.go:61-104 | The loop succeeds exactly if every entry can be dealt with, finds exactly the usable versions and deletes exactly the rest; failing, it has deleted only unusable directories |
| `Images.ScanChannel` | components/server/images.go:57-106 | One channel: what is left and the sorted list |
| `Images.ScanChannels` | components/server/images.go:57-108 | All channels, in order, up to the first failure |
| `Images.ScanAgainIsSame` | components/server/images.go:53-109 | A second scan of a channel returns the same list and deletes nothing |
| `Images.ScanningAllAgainIsSame` | components/server/images.go:53-109 | The scan of all channels is a fixpoint: it can be repeated, with the same lists and the same disk |
| `Images.ScanListsTheDisk` | components/server/images.go:84-106 | After a scan the directories are exactly the listed versions, all usable, and the list ascends |
| `Images.LastIsNewest` | components/server/images.go:124-137 | The last listed version is preceded by all others; none has a higher major, minor and patch number |
| `ImageIndex.RemovalTakesTheVersionIff` | components/server/rpcservices.go:125-134 | The search and the shift take out the version asked for exactly if it is indexed, and otherwise the last one |
| `ImageIndex.NotIndexedAfterRemoval` | components/server/rpcservices.go:125-134 | Either way the version is not indexed afterwards |
| `ImageIndex.IndexStaysOnDisk` | components/server/rpcservices.go:109-147 | Under every mix of scans, removals and downloads every indexed version is a usable directory on disk, each list ascends and has no version twice |
| `ImageIndex.ScanGivesIndex` | components/server/server.go:116-119 | The index taken from a scan agrees with the disk |
| `ImageIndex.ScanKeepsIndex` | components/server/rpcservices.go:103-106 | A scan, complete or not, deletes nothing that is indexed |
| `ImageIndex.RemovalKeepsIndex` | components/server/rpcservices.go:133-143 | Removal keeps the agreement whether or not the directory could be deleted |
| `ImageIndex.WriteKeepsIndex` | components/server/images.go:164-175 | A download into a version that is not indexed keeps it too |
| `ImageIndex.IndexedIsListed` | components/server/images.go:143-148 | An indexed version is found by every complete scan |
| `ImageIndex.LocalLatestIsNewest` | components/server/images.go:124-137 | "latest" answered locally is a version on disk that precedes no other; none has a higher major, minor and patch number |
| `ImageIndex.ResolvedAsAsked` | components/server/images.go:124-141 | A version asked for by number is taken as it is; "latest" is the local one if preferred or without an answer from upstream, else that answer, and nothing exactly without both |
| `ImageIndex.ImageStore.LocalImages` | components/server/images.go:53-109 | The scan on the store, keeping the index |
| `ImageIndex.ImageStore.RegisterImages` | components/server/server.go:116-119 | The daemon's start fills the index from a scan |
| `ImageIndex.ImageStore.Search` | components/server/rpcservices.go:125-129 | The loop stops at the first match, or at the last entry |
| `ImageIndex.ImageStore.RemoveImage` | components/server/rpcservices.go:109-147 | New index, new disk and outcome, with the panic on an empty list; the closing scan succeeds exactly if all channels can be scanned, and then lists and cleans them all |
| `ImageIndex.ImageStore.Available` | components/server/images.go:143-148 | True exactly if the version is listed |
| `ImageIndex.ImageStore.Resolve` | components/server/images.go:124-141 | The version a pull is for |
| `ImageIndex.ImageStore.PullImage` | components/server/images.go:112-162 | A pull keeps the index on disk; on success the version, resolved as specified, is on disk, usable or with both files just fetched; unless overriding, it succeeds exactly if the scan does, there is a version to ask for, and that is usable on disk or can be fetched |
| `Exports.ExportSet` | components/server/nfs.go:44-58 | The loop finds the signature exactly if a line starts with it, and blanks exactly the legacy lines |
| `Exports.EditedLines` | components/server/nfs.go:44-94 | The new file's lines are the old ones in order with exactly the legacy ones emptied, then the signature |
| `Exports.NoLegacyLineSurvivesIff` | components/server/nfs.go:49-55 | No legacy line is left exactly if the file had none and was shared already, or was edited with a signature that is not one itself |
| `Exports.SecondRunChangesNothingIff` | components/server/nfs.go:92-94 | Running again changes nothing exactly if the signature is one line |
| `Exports.OwnRunCleansAndSettles` | components/server/nfs.go:37-43 | For homes and networks without spaces or newlines both hold for the daemon's own signature |
| `Exports.SignatureIsNotLegacy` | components/server/nfs.go:37-43 | Such a signature never looks like a legacy line, whatever the user and network |
| `Exports.LinesWordByWord` | components/server/nfs.go:37-43 | The words of the line that shares a home, and of the two lines it replaces |
| `Exports.ExportsFile.Setup` | components/server/nfs.go:82-101 | The file after a run: edited, or, if the check fails, exactly as before; a missing file becomes an empty one first |
| `Leases.GuestIPfromMAC` | components/host/darwin/misc/uuid2ip/uuid2ip.go:74-92 | The loop computes the specified scan |
| `Leases.ScanFindsFirst` | components/host/darwin/misc/uuid2ip/uuid2ip.go:74-92 | It fails exactly if no line has the hardware address, and otherwise gives the most recent IP address before the first that has |
| `Leases.LatestIs` | components/host/darwin/misc/uuid2ip/uuid2ip.go:77-81 | The most recent IP address is that of the last line with one, or what there was before |
| `Leases.LeaseIsAnswered` | components/host/darwin/misc/uuid2ip/uuid2ip.go:74-92 | Whatever the order inside the leases, the first lease for the MAC is answered with its own address if that comes first, and otherwise with that of the lease before, or an empty one |
| `Leases.LeaseGivesItsOwnAddressIff` | components/host/darwin/misc/uuid2ip/uuid2ip.go:74-92 | So the answer is the lease's own address exactly if that comes first or is the one of the lease before |
| `Leases.NoLeaseNoAnswer` | components/host/darwin/misc/uuid2ip/uuid2ip.go:92-92 | Without a lease for the MAC there is no answer |
| `Leases.LateAddressIsMissed` | components/host/darwin/misc/uuid2ip/uuid2ip.go:77-90 | A file in which another lease's address is given, and one in which an empty one is, without an error |
| `Leases.Capture` | components/host/darwin/misc/uuid2ip/uuid2ip.go:61-62 | The group is what follows the last occurrence of the key that anything follows |
| `Leases.ReadsAddress` | components/host/darwin/misc/uuid2ip/uuid2ip.go:75-81 | An `ip_address` line is read as its value |
| `Leases.ReadsHardware` | components/host/darwin/misc/uuid2ip/uuid2ip.go:77-83 | An `hw_address` line is read as its value and not as an IP address |
| `Leases.StrippedIsOctetwise` | components/host/darwin/misc/uuid2ip/uuid2ip.go:87-88 | On two-digit octets the global replacement and the trimmed prefix strip one leading zero from each |
| `Leases.StrippedIsInjective` | components/host/darwin/misc/uuid2ip/uuid2ip.go:87-88 | Two MAC addresses strip to the same text, letter case aside, exactly if they have the same octets |
| `Leases.SameAddressIff` | components/host/darwin/misc/uuid2ip/uuid2ip.go:87-88 | Any text of the file matches a MAC exactly if it is its octets, each without leading zeros, with equal values |

## Left out

- The handler of termination signals: only its notification of the main goroutine is an event (`Oops`); that it walks the registry a second time beside Stop is not modelled.
- Daemon.ServerContext.BeginStop: two Stop requests that both pass the accept test before either writes, and admissions while the registry is being listed.
- The capacity of the channel that wakes the main goroutine, and the server's own errors sent on it.
- Targets.StopFinishesIff: about a registry in which no VM comes or goes meanwhile but those signalled; in the state machine what StopVMs does to processes is an exit, which may happen at any time.
- Reverse name records of departed VMs: they are deleted by the address the VM reported, which may be empty or differ from the one announced, so nothing is claimed of them.
- Daemon.ServerContext.AcceptableRequest: addresses are opaque strings with a set of those on the VM network, and loopback is the prefix `127.`; IPv6 and the parsing of addresses are not modelled.
- Lifecycle time: creation times are whatever the environment gives, not assumed to grow with each admission.
- Load.LoadKeepsLimits: the boot loop is modelled on values, with what happens elsewhere between its steps as a parameter; parsing the profile and defaults of its settings are not modelled.
- Admission.Bootstrap: name, UUID and MAC address negotiation, so that names and UUIDs are arbitrary strings, the choice of image, and CD-ROM, cloud-config and SSH key handling; unsigned 64-bit arithmetic, which cannot wrap here, is over integers.
- Volumes.Storage.ValidateVolumes: the registry is read once per call, not once per volume; what `ValidateQcow2` finds in a file's header is a parameter.
- Exports.ExportsFile.Setup: errors from reading and writing the file, and from telling `nfsd` about it.
- Leases.GuestIPfromMAC: errors from opening and reading the file; case folding is that of ASCII letters, which is all there is to fold on the side of the MAC address.
- ImageIndex.ImageStore.PullImage: the download with its signatures and checksums is one step, which succeeds with both files in place or fails and leaves some directory or none; its clean-up on failure is part of what it leaves.
- The lookup and path cleaning of the embedded file system, sizes recorded wrongly, and the assets themselves.
- `UUIDtoMACaddr` and `vmnet`: foreign calls and a retry loop around them.
- The rendering of ignition configurations and cloud-config; port forwarding and resolver files; SSH and file copying; the command-line interface and its printing.
