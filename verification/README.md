# Mesh provisioner and dimmer: a verified model

This project models the logic of two Bluetooth Mesh samples and proves what it guarantees.

`provisioner_network_setup` discovers unprovisioned devices, provisions them one at a time and applies a
recipe of configuration messages to each. `DimmerWithSerial` turns a button and serial commands into
on/off and dimming messages.

| file | part of the system |
|---|---|
| `Bytes.dfy`, `Interface.dfy`, `Hex.dfy`, `Modular.dfy` | bytes and C strings, error codes and requests, hex conversion, counting around a ring |
| `CacheSpec.dfy`, `ProvCache.dfy` | the discovery cache: its operations as functions on values, and the class that updates an array of slots in place |
| `CacheMap.dfy`, `CacheEviction.dfy`, `CacheVisible.dfy`, `CacheProvenance.dfy` | the cache refines a map; the eviction clock; the scan list; where stored names come from |
| `ScanDisplay.dfy`, `AdStructures.dfy`, `ScanNames.dfy`, `ScanResults.dfy` | the live scan display, advertising data (Bluetooth Core Specification, Volume 3, Part C, section 11), the in-place parser, discovery end to end |
| `Scenario.dfy`, `ScenarioTable.dfy` | the deployment table, row selection, rotation |
| `RecipeSpec.dfy`, `RecipeRunner.dfy` | recipes, the remote node, failures and retries, and the executor's loops |
| `AutoSpec.dfy`, `AutoCooldown.dfy`, `ProvShell.dfy`, `ShellTarget.dfy` | automatic attempts, the retry pass, the cooldown, the shell component |
| `Provisioner.dfy` | callers, provisioner thread, stack callback, persisted record and power cuts as one transition system |
| `ProvisionerThread.dfy`, `ProvisionerRequests.dfy`, `ProvisionerWindows.dfy`, `ProvisionerLatch.dfy`, `ProvisionerRaces.dfy` | the boot code and the sweep over the nodes; requests and sessions; what the early releases of the busy flag can do; the record, the recipe it latches and the configured flags; late callbacks and late writes |
| `Dimmer.dfy`, `DimmerSafety.dfy` | the dimmer's timers, work queue, button and serial commands; its runs |

How to read it. Code that updates state in place is a class whose methods are proved equal to functions
on values (`ensures State() == ...`); the theorems are lemmas about those functions, over every call
sequence, event sequence or interleaving. `CacheMap.Step` and `CacheMap.Owner` are a second, independent
description of the cache, on a map from UUID to record. In `Provisioner.dfy` each step is one stretch of
code that nothing else can interrupt; because there is one provisioner thread with one program counter,
sessions are serial by construction. Its main results start from `FACTORY`, a provisioner that has never run.

Results worth knowing before changing the code:

- Every in-use slot has a UUID, so the merge branch of `prov_cache_adv_uuid_seen` always joins records of two
  different devices, and a name can end up filed under a device it was not received for. It takes two slots:
  `CacheProvenance.NameChangesHands` is the run, and `BorrowingNeedsTwoSlots` shows that a cache of one slot is
  immune. The guard is a call that finds the UUID known but nameless and its address owned by another device
  that has a name: only then does an advertisement change a known device's name
  (`NameChangesOnlyByBorrowing`), names are all at home at every point of a run exactly when no call meets the
  guard (`NamesStayHome`), and at its end exactly when no name moved that way is still stored
  (`StoredNamesAreOwn`). A name selects the recipe
  where no UUID row matches (mesh_net_cfg.c:117-125), so this can decide how a device is configured.
- A request accepted between an early release of the busy flag (or start-up) and the next time the
  provisioner thread clears the flag itself can overlap with the following one.
  `ProvisionerWindows.WindowsAreExactlyTheRisk` shows that acceptance is safe exactly outside those windows.
  `AcceptInWindowCanLose` gives the damage: the first caller is told 0, its pair is overwritten before the
  thread copies it, and the second request is served twice; `LostForGood` shows the first is never served.
- The recipe recorded for a node is that of the request copied last. A node announced after the next request
  was copied gets that one's: `ProvisionerRaces.RecordedForItsSession` says exactly when, and
  `LateCallbackTakesNextRecipe` is a run clear of all windows.
- The record is cleared in flash at once, while storing the node only schedules its write. If the power is cut
  in between, the node is configured again and its recipe has been forgotten
  (`ProvisionerRaces.RecipeIsForgotten`); `WriteOrderDecides` shows that clearing the record is safe exactly
  when flash no longer holds the node as not configured.
- Two automatic attempts at one UUID keep the retry interval apart as long as no other attempt stamps that
  UUID while one is under way (`AutoCooldown.CooldownHolds`). Two that overlap both count, at the same
  instant, exactly when one falls between the other's test and its stamp
  (`AutoCooldown.OverlappingAttemptsBothCount`).
- A long press does not always stop the lights when it is released. The release queues the stop at once, and
  the lights stop if and only if no start timer is running then and the start is not queued behind a stop that
  was queued already (`DimmerRelease.ReleaseExactly`). A press released at exactly 300 ms, before the start
  timer has run out, leaves the lights moving for 20 s (`ThresholdReleaseKeepsMoving`); so does one whose start
  timer has run out just behind the previous 20 s timeout (`QueuedStopIsNotRenewed`). If the work queue keeps
  up, a press of more than 300 ms always stops them (`PromptReleaseDecided`).
- Two different scenario rows that match a device equally well, by prefixes of equal length or by the same
  name, are told apart by table order only; `ScenarioMatch.OrderMattersOnlyForTies` shows that nothing else
  depends on the order of the rows.

Assumptions. Each cache call, each scenario-table call, each storage write, and the write and the copy of
the latched pair (both under `prov_pending_mutex`) are atomic. `settings_save_one` writes the record before
it returns; `bt_mesh_cdb_node_store` schedules a write that the stack makes at any later time, and the
results that need it to come before the record's say so. A status of "already stored" in answer to a key is
truthful. The composition data of one node does not change between attempts. The clock `k_uptime_get` is
above `INT64_MIN`. For the dimmer, handlers run to completion, sends succeed and timers run out on time;
rescheduling without delay puts a work item on the work queue unless it is there, rescheduling with a delay
replaces its timer and leaves it on the queue, and cancelling removes both; the queue is first in, first
out, and work on it may wait. Outcomes of radio messages, composition data, recipe tables, scenario tables,
clocks and the actions of other threads are parameters.

## Model

| member | source | states |
|---|---|---|
| CacheSpec.Find | provisioner_network_setup/src/prov_cache.c:41-69 | a scan finds the first in-use slot with the address or UUID, or reports none |
| CacheSpec.Best | provisioner_network_setup/src/prov_cache.c:97-110 | the victim precedes every other slot in eviction order: lower class first, then nearer ahead of the cursor |
| CacheSpec.NextReady | provisioner_network_setup/src/prov_cache.c:378-387 | the first slot from the cursor on that may be attempted now, none before it |
| ProvCache.ProvCache.constructor | provisioner_network_setup/src/prov_cache.c:31-33 | at power-up the cache is all zero and well-formed |
| ProvCache.ProvCache.FindByAddr | provisioner_network_setup/src/prov_cache.c:41-54 | the loop returns the first in-use slot with that address |
| ProvCache.ProvCache.FindByUuid | provisioner_network_setup/src/prov_cache.c:56-69 | the loop returns the first in-use slot with that UUID |
| ProvCache.ProvCache.AllocEntry | provisioner_network_setup/src/prov_cache.c:85-113 | allocation never answers NULL; it hands out the first free slot or else the clock's victim, cleared |
| ProvCache.ProvCache.EvictEntry | provisioner_network_setup/src/prov_cache.c:97-112 | the three passes find exactly the best victim of the eviction order and move the cursor past it |
| ProvCache.ProvCache.EvictPass | provisioner_network_setup/src/prov_cache.c:98-110 | one pass around the ring evicts the best victim, or shows that every slot is of a higher class |
| ProvCache.ProvCache.MergeRecords | provisioner_network_setup/src/prov_cache.c:169-179 | the address's record is freed; the UUID's gains a missing name and the visible mark |
| ProvCache.ProvCache.AdvUuidSeen | provisioner_network_setup/src/prov_cache.c:158-205 | the in-place update equals the specification in all four cases and keeps the invariant |
| ProvCache.ProvCache.ScanRspNameSeen | provisioner_network_setup/src/prov_cache.c:207-227 | sets the name of the address's slot only, and reports its UUID |
| ProvCache.ProvCache.EnsureUuid | provisioner_network_setup/src/prov_cache.c:229-250 | a known UUID changes nothing; an unknown one takes an allocated slot |
| ProvCache.ProvCache.LookupName | provisioner_network_setup/src/prov_cache.c:252-273 | answers the stored name copied into a buffer of the caller's size, or nothing |
| ProvCache.ProvCache.VisibleIndex | provisioner_network_setup/src/prov_cache.c:139-156 | counts the visible slots before the given one; all of them when that one is not visible |
| ProvCache.ProvCache.MaybeMarkVisible | provisioner_network_setup/src/prov_cache.c:275-294 | marks a named invisible device and reports its rank among visible slots |
| ProvCache.ProvCache.MarkAllReadyVisible | provisioner_network_setup/src/prov_cache.c:296-309 | marks exactly the in-use slots with UUID and name |
| ProvCache.ProvCache.VisibleCount | provisioner_network_setup/src/prov_cache.c:311-326 | counts the scan list |
| ProvCache.ProvCache.VisibleUuidByIndex | provisioner_network_setup/src/prov_cache.c:328-352 | answers the scan list's entry for exactly the indices below its length |
| ProvCache.ProvCache.ShouldAutoAttempt | provisioner_network_setup/src/prov_cache.c:354-369 | whether the UUID's record exists and is past its cooldown |
| ProvCache.ProvCache.FindNextAutoCandidate | provisioner_network_setup/src/prov_cache.c:371-392 | answers the first retry-ready slot from the cursor and advances the cursor past it, or leaves it |
| ProvCache.ProvCache.MarkAttempt | provisioner_network_setup/src/prov_cache.c:394-406 | stamps the UUID's record only |
| ProvCache.ProvCache.OnConfigurationSuccess | provisioner_network_setup/src/prov_cache.c:408-421 | frees the UUID's slot only |
| CacheMap.Refines | provisioner_network_setup/src/prov_cache.c:158-421 | every call keeps the invariant and acts on the map of devices as its map counterpart |
| CacheMap.RunRefines | provisioner_network_setup/src/prov_cache.c:158-421 | over every run the slot array refines the map, call by call with the victims it evicts |
| CacheMap.Reachable | provisioner_network_setup/src/prov_cache.c:19-33 | after any run from power-up: in use means has a UUID, no two slots share a UUID or an address, free slots carry no flags, visible slots have UUID and name, names are NUL-terminated |
| CacheMap.DiscoveryDropsAtMostOne | provisioner_network_setup/src/prov_cache.c:158-250 | a discovery call loses at most one other UUID: the evicted one, and then every slot was taken, or the address's former owner |
| CacheMap.NameSetString | provisioner_network_setup/src/prov_cache.c:115-122 | a stored name is the data's first 32 bytes as a C string, terminated in its buffer |
| CacheMap.CopyOutString | provisioner_network_setup/src/prov_cache.c:264-267 | the caller's buffer holds the stored string cut to fit, with its last byte NUL |
| CacheMap.LookupNameReadsMap | provisioner_network_setup/src/prov_cache.c:252-273 | a lookup succeeds exactly when the UUID has a name, and answers that name cut to the buffer |
| CacheMap.KnownNameReadsMap | provisioner_network_setup/src/prov_shell.c:81-83 | read into a buffer as large as the stored one, a device's name is its whole stored name, and a device without a name has none |
| CacheMap.ShouldAttemptReadsMap | provisioner_network_setup/src/prov_cache.c:124-137 | an attempt is allowed exactly for a known UUID never stamped or stamped at least the interval ago |
| CacheMap.NewcomerIsReady | provisioner_network_setup/src/prov_cache.c:35-39 | a call that makes a UUID known is a discovery of that UUID, which may then be attempted at any time, whatever the interval |
| CacheProvenance.NameChangesOnlyByBorrowing | provisioner_network_setup/src/prov_cache.c:169-173 | an advertisement changes a known device's name exactly when that device has none and another one, named, owns the address |
| CacheProvenance.TraceExplains | provisioner_network_setup/src/prov_cache.c:115-122 | every stored name has a history: a call that received that very name at its first owner's address, then merges that handed it from device to device to where it is |
| CacheProvenance.StoredNamesAreOwn | provisioner_network_setup/src/prov_cache.c:169-179 | over every run, every stored name was received for the record that holds it, and stayed there, if and only if no merge under the guard moved a name that is still stored |
| CacheProvenance.SenderIsOwnerExactly | provisioner_network_setup/src/prov_cache.c:169-179 | a stored name was received at its own device's address exactly when it never moved, or was first borrowed from that same device and has come back |
| CacheProvenance.NamesStayHome | provisioner_network_setup/src/prov_cache.c:169-179 | names are filed under their senders at every point of a run if and only if no call of the run meets the guard |
| CacheProvenance.NameChangesHands | provisioner_network_setup/src/prov_cache.c:169-179 | in every cache of two slots or more four calls leave a device with the name received for another, which is forgotten |
| CacheProvenance.NameIsMisfiled | provisioner_network_setup/src/prov_cache.c:169-179 | traced back, that name belongs to the other device, so not all stored names are own |
| CacheProvenance.NameHasBeenAway | provisioner_network_setup/src/prov_cache.c:169-179 | two calls more and the first device has its name back, by way of the second |
| CacheProvenance.BorrowingNeedsTwoSlots | provisioner_network_setup/src/prov_cache.c:169-173 | a cache of one slot never meets the guard |
| CacheEviction.EvictionIsOptimal | provisioner_network_setup/src/prov_cache.c:71-113 | eviction only when full; a visible device only when all are visible, a named one only when all have names, and of those alike in both the cyclically first; the cursor moves just past the victim; no other slot changes |
| CacheEviction.AllocRecyclesIdle | provisioner_network_setup/src/prov_cache.c:97-110 | on a full cache with unnamed invisible slots an allocation recycles the nearest of them and keeps that set of slots |
| CacheEviction.ClockFairness | provisioner_network_setup/src/prov_cache.c:71-113 | on a full cache with k unnamed invisible slots the next k allocations take each of them exactly once and touch no named or visible slot |
| CacheVisible.SelectOfRank | provisioner_network_setup/src/prov_cache.c:139-156 | the rank of a visible slot, used as an index, selects that slot's UUID |
| CacheVisible.RankOfSelect | provisioner_network_setup/src/prov_cache.c:328-352 | every index below the count is the rank of a visible slot holding the selected UUID |
| CacheVisible.VisibleIsTheVisibleSet | provisioner_network_setup/src/prov_cache.c:311-352 | the list holds exactly the visible UUIDs, without duplicates |
| CacheVisible.AnnouncedIndexSelects | provisioner_network_setup/src/prov_cache.c:275-294 | the index reported when a device becomes visible selects that same UUID |
| CacheVisible.ListedHasName | provisioner_network_setup/src/prov_shell.c:231-234 | every listed device has a name, so the listing skips no index |
| DisplaySpec.LinesAreTrue | provisioner_network_setup/src/prov_shell.c:47-67 | a line is printed exactly when the display is on and the device is known, named and not listed yet; its index selects the device from then on, its name is the device's stored name, and the device is listed; otherwise nothing changes |
| ScanDisplay.ScanDisplay.NoteUuidUpdate | provisioner_network_setup/src/prov_shell.c:47-67 | marks the device and prints that line, or does nothing |
| AdStructures.ParseExplainsPrefix | provisioner_network_setup/src/prov_scan_names.c:24-56 | the bytes are the encoding of the structures visited followed by something no structure can start |
| AdStructures.ParseFindsAll | provisioner_network_setup/src/prov_scan_names.c:24-56 | conversely, structures followed by something no structure can start are exactly what is visited |
| AdStructures.PaddedRoundTrip | provisioner_network_setup/src/prov_scan_names.c:24-56 | any list of structures with payloads up to 254 octets survives encoding, zero padding and parsing |
| ScanParser.NetBuf.Open | provisioner_network_setup/src/prov_scan_names.c:27-40 | pulling length and type stays in bounds and narrows the window to exactly the next structure, or reports that there is none |
| ScanParser.NetBuf.Close | provisioner_network_setup/src/prov_scan_names.c:53-54 | restoring and skipping leaves the window on the bytes after the structure |
| ScanParser.ScanParser.TakeServiceData | provisioner_network_setup/src/prov_scan_names.c:41-51 | a Mesh Provisioning service-data payload (`CarriesUuid`) feeds its UUID to the cache and the display, any other payload does nothing |
| ScanParser.ScanParser.ParseAdvInd | provisioner_network_setup/src/prov_scan_names.c:18-56 | for every byte string the loop ends, feeds the cache exactly the structures present, in order, and prints the lines they cause |
| ScanParser.ScanParser.TakeName | provisioner_network_setup/src/prov_scan_names.c:81-89 | a non-empty complete or shortened name is filed under the address and its device shown |
| ScanParser.ScanParser.ParseScanRspName | provisioner_network_setup/src/prov_scan_names.c:58-94 | for every byte string the loop ends, files exactly the names present, in order, and prints the lines they cause |
| ScanParser.ScanParser.ScanRecv | provisioner_network_setup/src/prov_scan_names.c:97-111 | a packet is parsed by its advertising type; without an address, or of another type, it changes and prints nothing |
| ScanResults.CarriesUuid | provisioner_network_setup/src/prov_scan_names.c:42-46 | a structure carries UUID u exactly when its type is 0x16 and its payload has at least 20 bytes and begins with 0x27, 0x18 and u |
| ScanResults.CarriesName | provisioner_network_setup/src/prov_scan_names.c:82-87 | a structure carries a name exactly when its type is 0x08 or 0x09 and its payload is that name and not empty |
| ScanResults.OthersAreIgnored | provisioner_network_setup/src/prov_scan_names.c:97-111 | a packet without an address, or of another advertising type, changes and prints nothing |
| ScanResults.QuietWhenOff | provisioner_network_setup/src/prov_shell.c:53-55 | with the display off no packet prints anything |
| ScanResults.AdvAnnounces | provisioner_network_setup/src/prov_scan_names.c:48-50 | with the display on an advertisement prints its device's line exactly when the device has a name and is not listed yet, under an index that selects it |
| ScanResults.ScanRspAnnouncesOnce | provisioner_network_setup/src/prov_scan_names.c:82-90 | with the display on a scan response with any number of names prints exactly one line if its device was not listed before, with the first name, under an index that selects the device once the whole response has been read |
| ScanResults.NameEndToEnd | provisioner_network_setup/src/prov_scan_names.c:58-94 | once an address is cached, the last name of a scan response is what a lookup by UUID answers, cut at 32 bytes, the first NUL and the caller's buffer |
| ScanResults.FeedAdvOwns | provisioner_network_setup/src/prov_scan_names.c:18-56 | after an advertisement the address belongs to the last device UUID in it; without one the cache is untouched |
| ScanResults.DiscoveryEndToEnd | provisioner_network_setup/src/prov_scan_names.c:97-111 | whatever the cache held, a connectable advertisement with a UUID and then a scan response with a name from one address make the device findable by name, and listed while the display is on |
| ScanResults.DiscoveryFromBytes | provisioner_network_setup/src/prov_scan_names.c:19-111 | the same from the bytes on the air: whatever else they carry, an advertisement that spells out UUID u and a scan response that spells out a name make u findable under that name, cut at 32 bytes and the first NUL, and listed while the display is on |
| Hex.RoundTrip | provisioner_network_setup/src/prov_shell.c:267-271 | decoding a printed UUID gives the UUID back |
| Hex.PrintedByte | provisioner_network_setup/src/prov_shell.c:237 | a byte prints as two lower-case digits, the high one first |
| Hex.DigitIs | provisioner_network_setup/src/mesh_net_cfg.c:75 | the digits that decode are exactly 0 to 9, a to f and A to F, each with its value |
| ScenarioMatch.MatchIsPrintedPrefix | provisioner_network_setup/src/mesh_net_cfg.c:64-81 | a pattern matches exactly the UUIDs whose printed form it begins, in whole bytes and ignoring letter case |
| ScenarioMatch.RowMatches | provisioner_network_setup/src/mesh_net_cfg.c:64-90 | a UUID row matches by a non-empty printed prefix in whole bytes, a name row exactly when its non-empty pattern is the whole name |
| ScenarioSpec.BestUuid | provisioner_network_setup/src/mesh_net_cfg.c:100-111 | the longest matching UUID row, the first among equals |
| ScenarioSpec.FindRow | provisioner_network_setup/src/mesh_net_cfg.c:92-128 | longest UUID prefix first; only without one the first exact name; none only when no row matches |
| ScenarioTable.ScenarioTable.FindRow | provisioner_network_setup/src/mesh_net_cfg.c:92-128 | the two loops compute that row |
| ScenarioMatch.OrderMattersOnlyForTies | provisioner_network_setup/src/mesh_net_cfg.c:92-128 | every reordering of the table selects the same row contents if and only if all equally good rows are equal, by longest UUID prefix or, without one, by name; a device without a row has none in any order |
| ScenarioMatch.LookupAnswers | provisioner_network_setup/src/mesh_net_cfg.c:517-537 | for the row with the longest matching prefix, or else the first with the name: its single recipe, or on a rotating row the entry at its index, when that is between 1 and 7; 0 otherwise and when no row matches |
| ScenarioTable.ScenarioTable.LookupRecipeId | provisioner_network_setup/src/mesh_net_cfg.c:517-537 | the lookup answers the selected row's current recipe and changes nothing |
| ScenarioTable.ScenarioTable.ConsumeRowRecipeId | provisioner_network_setup/src/mesh_net_cfg.c:144-155 | only the index of that row moves, and only when the recipe is the row's current one |
| ScenarioTable.ScenarioTable.ConsumeRecipeId | provisioner_network_setup/src/mesh_net_cfg.c:504-515 | consuming a recipe chosen earlier acts on the row the device matches now |
| ScenarioTable.ScenarioTable.ConfigApply | provisioner_network_setup/src/mesh_net_cfg.c:459-483 | the table changes and the error is reported as `ConfigureRuns` says |
| ScenarioTable.ConfigureRuns | provisioner_network_setup/src/mesh_net_cfg.c:459-483 | a configuration runs the selected row's single recipe or the entry at its index, reports what that very run ends with, or -2 without a row or a recipe between 1 and 7, and moves a rotating row on, around its end, exactly when that run succeeded |
| ScenarioTable.LatchedMoves | provisioner_network_setup/src/mesh_net_cfg.c:504-515 | a recipe latched earlier moves the device's row on exactly when it is the entry at that row's index now |
| ScenarioTable.RotationIndex | provisioner_network_setup/src/mesh_net_cfg.c:144-155 | over every run a row's index is its start plus its advances modulo its length, and nothing else about the row changes |
| ScenarioTable.AdvancesMatchSuccesses | provisioner_network_setup/src/mesh_net_cfg.c:144-155 | advances never exceed successes, and equal them exactly when every success applied the row's then current recipe |
| ScenarioTable.StaleSuccessDoesNotAdvance | provisioner_network_setup/src/mesh_net_cfg.c:150-152 | the success of a recipe latched earlier that is no longer the row's current one advances nothing |
| ScenarioTable.TableAttemptsAreCurrent | provisioner_network_setup/src/mesh_net_cfg.c:459-483 | attempts that choose their recipe through the table always apply the current one |
| ScenarioTable.RotationAssigns | provisioner_network_setup/src/provisioner_handler.c:285-294 | when every success on a row applied its current recipe, chosen there and then or latched before, the j-th success used slot (start + j) mod length; failures use none |
| ScenarioTable.RotationIsEven | provisioner_network_setup/include/mesh_config_types.h:211-219 | under the same condition any two slots of a rotating row have been used equally often, give or take one |
| RecipeConvergence.ExpansionHolds | provisioner_network_setup/include/mesh_config_types.h:36-50 | a recipe expands to exactly one message per step and element concerned: the one at the offset, or every element with the model |
| RecipeConvergence.StepsInOrder | provisioner_network_setup/src/mesh_net_cfg.c:448-454 | the messages of a list of steps are those of its front followed by those of its rest, and stop at the first step that addresses a missing element |
| RecipeConvergence.StepSends | provisioner_network_setup/src/mesh_net_cfg.c:299-300 | one step sends one message to each of its targets, in their order, or none and an error when there is no such element |
| RecipeConvergence.TargetsInOrder | provisioner_network_setup/src/mesh_net_cfg.c:274-294 | a step's targets ascend from the primary, each once, and are missing exactly when its offset is beyond the node |
| RecipeConvergence.HasModelMeans | provisioner_network_setup/src/mesh_net_cfg.c:191-204 | a reference with company 0xffff names a SIG model by its number, any other a vendor model by number and company |
| RecipeConvergence.AddrHasModelMeans | provisioner_network_setup/src/mesh_net_cfg.c:166-189 | an address has a model exactly when it is that of one of the first five elements of the page and that element has the model |
| RecipeConvergence.AckedMeans | provisioner_network_setup/src/mesh_net_cfg.c:31-34 | a message is acknowledged by status 0, and a key also by status 6, nothing else |
| RecipeConvergence.ErrorMeans | provisioner_network_setup/src/mesh_net_cfg.c:303-337 | the error of a message is 0 exactly when it was acknowledged, -5 for another status, -2 for a missing key, else the stack's own |
| RecipeConvergence.DeliverMeans | provisioner_network_setup/src/mesh_net_cfg.c:303-337 | a node has afterwards what it had and, exactly when the message was acknowledged or only its answer lost, what the message asks for; only a missing key keeps a message from being sent |
| RecipeConvergence.RunErrors | provisioner_network_setup/src/mesh_net_cfg.c:425-457 | the error of a run, in the order of the tests: -2 for no such recipe, the request's own, -5 for another page, -12 for more than five elements, -22 for a wrong number, the first failed message's, and -22 for a step beyond the node; nothing is sent before the messages |
| RecipeConvergence.SentIsPrefix | provisioner_network_setup/src/mesh_net_cfg.c:299-423 | what a run sends is a prefix of its messages, all but the last acknowledged, all of it on success |
| RecipeConvergence.RunAppliesPrefix | provisioner_network_setup/src/mesh_net_cfg.c:299-423 | a run leaves the node as some prefix of its messages does, even if an answer was lost |
| RecipeConvergence.AttemptSendsPrefix | provisioner_network_setup/src/mesh_net_cfg.c:425-457 | an attempt sends a prefix of the recipe's expansion over the fetched composition, and on success all of it, every message acknowledged |
| RecipeConvergence.SuccessConfigures | provisioner_network_setup/src/mesh_net_cfg.c:339-380 | after success every key, binding and subscription the recipe asks for is in place on every element concerned |
| RecipeConvergence.SuccessAddsNoMore | provisioner_network_setup/src/mesh_net_cfg.c:339-380 | and whatever is on the node then was there before or is asked for by some step on an element it concerns |
| RecipeConvergence.SuccessPublishes | provisioner_network_setup/src/mesh_net_cfg.c:381-416 | after success a model publishes with the step's address, key and parameters, unless the recipe sets it twice |
| RecipeConvergence.RetryConverges | provisioner_network_setup/src/mesh_net_cfg.c:425-457 | after any number of attempts a successful one leaves the node exactly as one clean run from the start would |
| RecipeRunner.ConfigClient.Send | provisioner_network_setup/src/mesh_net_cfg.c:303-317 | one message: sent unless the key is missing, applied if acknowledged or only the answer was lost, with the error the caller sees |
| RecipeRunner.MeshNetCfg.CompElemHasModel | provisioner_network_setup/src/mesh_net_cfg.c:157-208 | the scan of the stored page finds a SIG or vendor model exactly when the addressed element has it |
| RecipeRunner.MeshNetCfg.CompDataFetch | provisioner_network_setup/src/mesh_net_cfg.c:210-261 | on success the stored page has at most five elements and each gets its consecutive 16-bit address |
| RecipeRunner.MeshNetCfg.ApplyStep | provisioner_network_setup/src/mesh_net_cfg.c:263-423 | a step sends its message to each target in order up to the first error, or nothing when its offset is out of range |
| RecipeRunner.MeshNetCfg.ApplyRecipe | provisioner_network_setup/src/mesh_net_cfg.c:425-457 | the step loop equals sending the expansion until the first error |
| AutoSpec.Pass | provisioner_network_setup/src/prov_shell.c:128-156 | a pass visits slots in increasing order and ends with its first accepted request |
| AutoSpec.RequestAnswers | provisioner_network_setup/src/provisioner_handler.c:524-541 | a request is refused with -19 exactly before ready, with -16 exactly while ready and busy, changing nothing; else it is accepted with its UUID and recipe and the provisioner is busy |
| AutoPass.PassVisitsOnce | provisioner_network_setup/src/prov_shell.c:128-156 | with other threads changing anything between its calls, a pass still ends, visits each slot at most once and submits at most one request |
| AutoPass.PassWhenFree | provisioner_network_setup/src/prov_shell.c:128-156 | undisturbed, free and ready: one device is requested, eligible when tried, and no earlier slot was eligible at the start; else nothing changes |
| AutoPass.RetryPassFree | provisioner_network_setup/src/prov_shell.c:128-156 | at one instant: exactly the first retry-ready slot with a recipe is requested and stamped |
| AutoPass.PassWhenBusy | provisioner_network_setup/src/prov_shell.c:98-102 | undisturbed and busy: nothing is accepted, every slot eligible throughout is stamped, none never eligible |
| AutoPass.RetryPassBusy | provisioner_network_setup/src/prov_shell.c:98-102 | at one instant: exactly the retry-ready slots with a recipe are stamped |
| AutoCooldown.CooldownHolds | provisioner_network_setup/src/prov_shell.c:69-109 | two attempts at one UUID that returned 0 or -EBUSY are at least the retry interval apart, whatever other threads do between and during their calls, unless the record was dropped or another attempt stamped it while one was under way |
| AutoCooldown.OverlappingAttemptsBothCount | provisioner_network_setup/src/prov_shell.c:77-101 | from every state in which an attempt would count, with another thread's attempt at that UUID before the j-th of its five calls: both count, at the same instant, if and only if the other falls between the test and the stamp |
| ProvShell.RequestPort.RequestProvision | provisioner_network_setup/src/provisioner_handler.c:524-541 | -ENODEV before ready, -EBUSY while busy, and then nothing changes; else the flag is taken, the pair latched whole and the semaphore given |
| ProvShell.ProvShell.AutoTryUuid | provisioner_network_setup/src/prov_shell.c:69-109 | the calls in sequence have the effect and answer of one attempt |
| ProvShell.ProvShell.AutoRetryWork | provisioner_network_setup/src/prov_shell.c:135-156 | the loop performs one pass, and none while automatic mode is off |
| ProvShell.ProvShell.FeedBeacon | provisioner_network_setup/src/prov_shell.c:116-126 | a beacon's UUID is cached, announced with the line that it causes, and attempted in automatic mode |
| ProvShell.ProvShell.ScanPrintList | provisioner_network_setup/src/prov_shell.c:213-244 | on an unchanged cache the listing prints exactly the visible devices, in order, each under its index and with its name |
| ShellTarget.PrintedTargetsParse | provisioner_network_setup/src/prov_shell.c:262-287 | an index or a hex UUID printed by the listing names that device again as a target |
| ShellTarget.IndexPastEnd | provisioner_network_setup/src/prov_shell.c:275-286 | an index past the list is reported as out of range (-2), unless written with 32 digits |
| ShellTarget.SignedIndex | provisioner_network_setup/src/prov_shell.c:275-284 | white space or a plus before an index changes nothing; a minus makes it malformed, except before 0 |
| ShellTarget.Malformed | provisioner_network_setup/src/prov_shell.c:262-280 | an argument that is empty, does not end in a digit or does not start with a digit, white space or a sign is malformed, and so are 32 characters that are not all hex digits |
| ProvisionerRequests.SessionsServeAcceptedRequests | provisioner_network_setup/src/provisioner_handler.c:461-541 | in all interleavings from the first power-up on, power cuts included: since the last one sessions never outnumber accepted requests, and each serves a UUID and recipe that one accepted request had written together |
| ProvisionerRequests.ExclusiveOutsideWindows | provisioner_network_setup/src/provisioner_handler.c:461-541 | in every run that accepts nothing inside a window at most one request is outstanding and the sessions are the accepted requests in order, one each |
| ProvisionerWindows.AcceptInWindowOverlaps | provisioner_network_setup/src/provisioner_handler.c:461-507 | after an acceptance inside a window there is a run, itself clear of windows, with two requests outstanding |
| ProvisionerWindows.AcceptInWindowCanLose | provisioner_network_setup/src/provisioner_handler.c:477-541 | after an acceptance inside a window there is a run, itself clear of windows, in which both callers are told 0, the first request is never copied and the second is served twice |
| ProvisionerWindows.LostForGood | provisioner_network_setup/src/provisioner_handler.c:477-541 | a request so lost is served by no later session before a power cut |
| ProvisionerWindows.WindowsAreExactlyTheRisk | provisioner_network_setup/src/provisioner_handler.c:461-541 | in every state reached without accepting inside a window: accepting keeps exclusivity, and serves every request once and in order, in every later run clear of windows if and only if it happens outside a window |
| ProvisionerRaces.WindowOpens | provisioner_network_setup/src/provisioner_handler.c:496-508 | a run from the first power-up, itself clear of windows, to a point inside a window at which a second request is accepted |
| ProvisionerThread.ResumeMeans | provisioner_network_setup/src/provisioner_handler.c:359-388 | the boot code attempts the node that the record names if it is known and not configured, clears the record in RAM and flash if it is not known or is configured, and does nothing without a pending node |
| ProvisionerThread.PendingNodeIsResumed | provisioner_network_setup/src/provisioner_handler.c:386-387 | in every run a pending, unconfigured node is attempted at boot before the provisioner is ready to take requests |
| ProvisionerThread.NoNodeIsPassedOver | provisioner_network_setup/src/provisioner_handler.c:439-466 | in every run without a power cut, whatever callers and stack do, each node not configured at a point outside a sweep is attempted before the thread next clears the busy flag |
| ProvisionerThread.SessionIsFollowedUp | provisioner_network_setup/src/provisioner_handler.c:495-513 | so a node provisioned in a session is attempted before the busy flag is cleared after it |
| ProvisionerThread.SessionEnds | provisioner_network_setup/src/provisioner_handler.c:495-513 | a session that fails or times out releases the busy flag before the sweep, so the next request is accepted inside a window; one that succeeds keeps it |
| ProvisionerThread.SuccessNeedsAnnouncement | provisioner_network_setup/src/provisioner_handler.c:462-503 | in every run, once a sweep has begun, a session has succeeded or the power was cut, no session succeeds before a node is announced anew |
| ProvisionerThread.SuccessClearsRecord | provisioner_network_setup/src/provisioner_handler.c:302-307 | after a success the record is cleared, in RAM and then in flash, exactly if it names the node |
| ProvisionerThread.PickMeans | provisioner_network_setup/src/provisioner_handler.c:255-259 | in every reachable state an attempt starts with the record's recipe for the node it names, that of the request copied last for the node announced last, and none otherwise |
| ProvisionerThread.AnnouncementTakesEffect | provisioner_network_setup/src/provisioner_handler.c:329-335 | the callback's three parts: the record names the node in RAM, then in flash, then the node is announced and an attempt on it starts with the session's recipe |
| ProvisionerLatch.FlashFollowsRam | provisioner_network_setup/src/provisioner_handler.c:296-300 | in every reachable state flash knows no more than RAM, and an unsaved configured flag was set since the last power-up |
| ProvisionerLatch.CrashConsistentLatch | provisioner_network_setup/src/provisioner_handler.c:241-388 | in every run: once saved, and until another node is announced or its address reused, the record's recipe is used by every attempt on its node across any power cuts, and the record is cleared only for a configured or absent node, in flash only once flash knows; provided the node's flag reaches flash before a record is written |
| ProvisionerLatch.NodeGetsItsRecipe | provisioner_network_setup/src/provisioner_handler.c:241-388 | a node latched with recipe r, not yet configured and with no attempt under way, is later configured only by a complete, acknowledged run of r, after whatever failures and power cuts, under the same proviso |
| ProvisionerLatch.CallbackLatches | provisioner_network_setup/src/provisioner_handler.c:324-336 | the callback's save starts the latch, during a session with no attempt under way; for a node added for the session copied last it records that request's recipe |
| ProvisionerRaces.RecordedForItsSession | provisioner_network_setup/src/provisioner_handler.c:324-336 | the callback records the recipe of the session copied last, which is the one its node was added for if and only if no pair has been copied since the stack was started for it |
| ProvisionerRaces.LateCallbackTakesNextRecipe | provisioner_network_setup/src/provisioner_handler.c:477-508 | a run clear of all windows in which the first request's node is recorded with the second request's recipe |
| ProvisionerRaces.WriteOrderDecides | provisioner_network_setup/src/provisioner_handler.c:296-307 | writing the cleared record keeps the recipe for every later attempt if and only if flash no longer holds the node as not configured |
| ProvisionerRaces.RecipeIsForgotten | provisioner_network_setup/src/provisioner_handler.c:296-307 | a run in which a node is configured with its recipe, the record is cleared before the flag is written, the power is cut, and the next attempt has no recipe |
| ProvisionerLatch.FlagsNeverRevert | provisioner_network_setup/src/provisioner_handler.c:296-300 | over every run a configured flag reverts only by a power cut, and once in flash not even then |
| ProvisionerLatch.ConfiguredMeansAcknowledged | provisioner_network_setup/src/provisioner_handler.c:241-313 | in every reachable state a configured node has a complete, acknowledged run of one recipe behind it, and no node is configured twice between power cuts |
| DimmerHandler.DimmerCtx.WorkReschedule | DimmerWithSerial/src/model_handler.c:191-202 | a delay replaces the item's timer; no delay puts it on the queue, once |
| DimmerHandler.DimmerCtx.TimerExpiry | DimmerWithSerial/src/model_handler.c:107 | the item's timer is done and the item is on the queue, once |
| DimmerHandler.DimmerCtx.WorkCancel | DimmerWithSerial/src/model_handler.c:213 | the item is neither timed nor queued, and the other one is as before |
| DimmerHandler.DimmerCtx.RunQueued | DimmerWithSerial/src/model_handler.c:85-125 | the first item leaves the queue and its handler runs |
| DimmerHandler.DimmerCtx.DimmerStart | DimmerWithSerial/src/model_handler.c:85-108 | the start work publishes a move in the current direction and times the stop for 20 s later; a stop on the queue stays there |
| DimmerHandler.DimmerCtx.DimmerStop | DimmerWithSerial/src/model_handler.c:110-125 | the stop work publishes a zero move |
| DimmerHandler.DimmerCtx.CancelPendingWork | DimmerWithSerial/src/model_handler.c:134-138 | both work items are neither timed nor queued afterwards |
| DimmerHandler.DimmerCtx.ButtonHandler | DimmerWithSerial/src/model_handler.c:183-222 | a press reverses the direction and times the start; a long release queues the stop at once, a short one cancels the start and toggles |
| DimmerHandler.DimmerCtx.OnOffSet | DimmerWithSerial/src/model_handler.c:346-354 | serial on/off: -11 and no change when unprovisioned, else pending work is cancelled and the message sent (`SerialSends`) |
| DimmerHandler.DimmerCtx.DimStep | DimmerWithSerial/src/model_handler.c:356-368 | serial step: the two error cases (-11, -22) change nothing, else pending work is cancelled and the rounded step sent (`SerialSteps`) |
| DimmerEvents.SerialSends | DimmerWithSerial/src/model_handler.c:346-354 | in every reachable state a serial on/off command sends exactly that and leaves nothing timed or queued, and nothing else changes |
| DimmerEvents.SerialSteps | DimmerWithSerial/src/model_handler.c:356-368 | in every reachable state a serial step of 1 to 100 percent sends that share of 65535, to the nearest integer, positive for up and negative for down, and leaves nothing timed or queued; any other percentage does nothing |
| DimmerEvents.PressTimesStart | DimmerWithSerial/src/model_handler.c:187-192 | a press reverses the direction and times the start for 300 ms later, sends nothing and leaves the stop alone |
| DimmerEvents.ReleaseSends | DimmerWithSerial/src/model_handler.c:197-215 | in every reachable state a release within 300 ms sends on or off by the direction and takes only the start off timer and queue; a later one sends nothing and queues the stop unless it is queued |
| DimmerEvents.WorkSends | DimmerWithSerial/src/model_handler.c:85-125 | the start sends a move of 1000 in the current direction and times the stop for 20 s later, the stop sends a move of zero |
| DimmerEvents.ExpiryQueues | DimmerWithSerial/src/model_handler.c:107 | a timer that runs out puts its item on the queue, unless it is there, and does nothing else |
| DimmerEvents.OthersChangeNothing | DimmerWithSerial/src/model_handler.c:348-350 | without a network no user event changes anything |
| DimmerSafety.MovesAlwaysEnd | DimmerWithSerial/src/model_handler.c:85-222 | in every run, however late queued work runs, while the last message is a non-zero move the stop work is queued or timed for at most 20 s after it |
| DimmerSafety.NoMoveOutlasts | DimmerWithSerial/src/model_handler.c:85-222 | when the work queue keeps up no move lasts longer than 20 s |
| DimmerRelease.ReleaseExactly | DimmerWithSerial/src/model_handler.c:197-206 | in every reachable state a long release stops the lights, in whatever order the work due then runs, if and only if no start timer runs and the start is not queued behind a stop; and leaves them moving, in whatever order, if and only if it is so queued, or its timer runs and it is not queued |
| DimmerRelease.PromptReleaseDecided | DimmerWithSerial/src/model_handler.c:197-206 | the work due at a release can always run to its end; when the work queue keeps up one of the two holds, and after more than 300 ms the lights stop |
| DimmerRelease.ThresholdReleaseKeepsMoving | DimmerWithSerial/src/model_handler.c:187-206 | a run in which a press released at the threshold, its start timer still running, leaves the lights moving for 20 s |
| DimmerRelease.QueuedStopIsNotRenewed | DimmerWithSerial/src/model_handler.c:197-206 | a run in which the release finds the stop queued before the start, adds nothing, and the start runs last |
| DimmerSafety.PressesAlternate | DimmerWithSerial/src/model_handler.c:187-215 | presses alternate the direction, so holds dim up and down in turn and taps switch on and off in turn |

## Left out

- Mesh stack internals: PB-ADV, key generation and export, CDB allocation and the decoding of composition
  pages are environment steps; composition data is a sequence of elements.
- Liveness: no claim that a device is eventually provisioned, and no thread priorities.
- Settings: the version 1 migration branch, and errors from `settings_save_one`.
- `configure_self` and the provisioner's own node, health callbacks, logging and shell text.
- A node leaving the database other than by a power cut before its first save.
- The advance of a rotating row by a configuration with a latched recipe is in `ScenarioTable` (event
  `Latched`), not in the transition system of `Provisioner.dfy`; a successful configuration need not advance a
  row, as when an older node is retried (`ScenarioTable.StaleSuccessDoesNotAdvance`), and when all do is
  `ScenarioTable.AdvancesMatchSuccesses`.
- Recipe and scenario contents: tables are parameters, so nothing depends on the shipped ones.
- Enumerators outside their declared values (`-ENOTSUP` in `apply_step`), and rotating rows with no recipes.
- The scene button, LED attention, USB line state and parsing of percentages.
- ScanParser.ScanParser.ParseAdvInd: the scan display flag is fixed for the duration of one packet, and other
  threads do not touch the cache between its structures.
- ProvShell.ProvShell.AutoRetryWork: the class runs alone; interference between its calls is covered on
  values by `AutoPass.PassVisitsOnce`.
