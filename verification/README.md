# MarinaTB core: a verified model

MarinaTB runs network experiments on a testbed. A *blueprint* describes virtual
computers and networks and the links between them; a *topology* describes physical
hosts and switches. This project models, in Dafny 4.11, the part of the core that decides
where a blueprint's computers and networks go and what the host controllers then keep
track of, and proves what that code guarantees.

`dafny verify dfyconfig.toml` checks everything.

## How the model is laid out

| file | what it models |
|---|---|
| `Units`, `Blueprints`, `Topologies`, `TestbedTopologies` | sizes, blueprint values and graph queries, topology queries and the topology object |
| `Connections` | what the graph queries answer, in terms of the links alone |
| `Loads` | load arithmetic in four dimensions, sums over hash maps |
| `Sorting`, `WorkLists` | `std::sort`, and the order in which computers are placed |
| `Placements` | `pack` and the two placement loops as a state machine over runs |
| `Embeddings` | what `embed` and `unembed` may return, and what every such result satisfies |
| `Choices`, `SwitchRules` | which switch and host `embed` takes next, what its failure means, and which networks go on which switches, in terms of machines, hosts and links |
| `SharedHosts` | small testbeds on which every call of `embed` comes out the same way |
| `ChartHistories` | a chart over sequences of `embed` and `unembed` |
| `Embedder` | the loops of `embed` and `unembed`, proved to return only what `Embeddings` allows |
| `IdCaches`, `HostStates`, `HostControl` | id maps, what launching and terminating does, and the loops that do it |
| `HostRuns` | a host controller over sequences of `construct` and `destruct`, failed calls included |
| `HostCommands` | the commands of each call and the machines over runs, in terms of computers, interfaces and links |
| `Addresses`, `Materialization` | IPv4 arithmetic, the closed form of the address loop, and the loops over a blueprint |
| `BlueprintJson`, `JsonFormat`, `BlueprintEquality` | JSON round trip, the documents as they are spelled, and the source's equality |
| `BlueprintEdits`, `BlueprintClones`, `EditLaws` | the setters and `clone` on values, and which changes equality sees |
| `BlueprintStore` | the shared records behind the handles: setters, removal and clones in place |

Two ideas carry the embedder. First, everything the source leaves open (hash map order,
ties in `sort`, which host an ambiguous lookup finds) is left open: `EmbedRun` is a
relation, the method `Embed` is proved to return only results in it, and the theorems hold
of every result in it. Second, the placement loops are a machine whose runs are lists of
picked hosts; the machine keeps a record of where each computer went and which switch's
turn last wrote each host, and an invariant over all runs says exactly what each host
holds. The host controller is treated alike: its methods are proved to do what
`Constructed`, `HalfConstructed`, `Destructed` and `HalfDestructed` say, and runs are
sequences of such steps. What these definitions say is proved again in terms that do not
use them: loads and free shares as sums over the machines' own fields (`WithinHost`,
`FillOf`), connections and switches as statements about links (`Leads`, `Joined`), started
machines as statements about the command and the id map (`HasMachine`).

What the proofs bring out about the code:

- Host embeddings are copied for every switch before placement starts. A host on two
  switches can therefore lose a computer although everything was packed: on a chart whose
  switches all have the same one host, with room for either of two linked computers but
  not for both, `embed` runs out of room if there is one switch and fails to find the first
  computer if there are more (`SharedHostLosesComputer`). `embed` looks every linked
  computer up once more before it returns, so a *returned* chart never misses one. A
  caller can rule the failure out beforehand by checking `SingleHomedIn`
  (`OnlyRoomStopsEmbed`). That condition is sufficient, not necessary.
- `unembed` succeeds exactly when every computer is linked to a network, because only
  linked computers are ever placed.
- No sequence of embeddings and unembeddings, with whatever ids, overloads a host. When
  blueprints do not share ids, the chart shows just those that are up, in whatever order
  they came and went, and is the empty one again when none is.
- The address loop stays in the network's block exactly as long as the block has numbers
  left that do not end in .0; one of the example networks starts inside its block, so the
  bound is stated for any base.
- A blueprint equals what is read back from its JSON exactly when all disks have the
  default size. The clone of a blueprint is the same in every field exactly when all
  networks have the default address space, no interface has an address and every computer
  has a control interface (`CloneIsCopyIff`); the source's equality only sees the last.
- A failed `construct` leaves keys behind, and a failed `destruct` may: live keys are
  between those of the blueprints that are up and those up or left half done. Ids stay
  unique whatever fails.
- `destruct` does not take the blueprint out of `live_blueprints`, which therefore holds
  just the blueprints that are up exactly when everything ever constructed is
  (`LiveNeverForgets`).

Assumptions. Doubles are exact reals. Sizes and counters do not leave 64 bits; addresses do
wrap at 32. `reduce(plus)` of an empty list is 0 (the `pipes` library is not part of this
model). Commands run on the host succeed. Generated ids and macs are parameters. Each
operation of the id maps is one atomic step. `nameHash` is the standard library's string
hash, about which nothing is assumed.

## Model

| member | source | states |
|---|---|---|
| `Units.MegabytesIsFloor` | core/blueprint.cxx:786-808 | in every unit the megabytes of a size are its bytes rounded down |
| `Units.MemoryUnits` | core/blueprint.cxx:786-796 | each unit of size is 1024 of the next smaller, down to the byte |
| `Units.BandwidthUnits` | core/blueprint.cxx:810-820 | the same for rates, counted in megabits rounded down |
| `Units.LatencyUnits` | core/blueprint.cxx:538-548 | each unit of time is 1000 of the next smaller, counted in milliseconds |
| `Blueprints.AttachmentsExact` | core/blueprint.cxx:146-192 | reading succeeds exactly when every computer end has the mac of an interface of its computer; then it gives each of them in link order, otherwise the error of the first bad end |
| `Connections.RowFollowsLinks` | core/blueprint.cxx:146-192 | the connections of a network can be read exactly when every link to a computer has the mac of one of its interfaces, and are these links one by one, in order |
| `Connections.ErrorsNameLinks` | core/blueprint.cxx:177-187 | an error names the computer of a link without a mac, or with a mac that none of its interfaces has |
| `Connections.LinkedByLinks` | core/blueprint.cxx:146-192 | a computer is linked exactly when some link joins it to a network of the blueprint, whichever end is which |
| `Connections.ConnectAttaches` | core/blueprint.cxx:285-288 | connecting an interface appends its attachment to the connections of that network and changes those of no other |
| `Connections.ConnectNetworksAttachesNothing` | core/blueprint.cxx:290-293 | a link between networks connects no computer |
| `Topologies.OneSidedEndpoints` | core/util.cxx:109-118 | endpoint equality looks at the left mac only; both directions together are equality |
| `Topologies.InsertedIsAllIffDistinct` | core/topo.cxx:36-46 | a set that compares name hashes keeps one element of each hash, and keeps all exactly when the hashes differ |
| `Topologies.ConnectedHostsExact` | core/topo.cxx:312-343 | only hosts joined to the switch are found, and all of them exactly when their names hash apart |
| `Topologies.ConnectedSwitchesExact` | core/topo.cxx:345-363 | the same for a host's switches, and the out-of-bounds endpoint is never read in a topology built with the constructors |
| `Topologies.ConnectionIsSymmetric` | core/topo.cxx:312-363 | with names that hash apart the two queries are inverse to each other |
| `TestbedTopologies.TestbedTopology.AddSwitch` | core/topo.cxx:279-284 | inserts the switch under its fresh id and keeps the topology well built |
| `TestbedTopologies.TestbedTopology.AddHost` | core/topo.cxx:305-310 | inserts the host under its fresh id and keeps the topology well built |
| `TestbedTopologies.TestbedTopology.ConnectSwitches` | core/topo.cxx:365-368 | appends the link and keeps hosts off its second end |
| `TestbedTopologies.TestbedTopology.ConnectHost` | core/topo.cxx:370-373 | appends the link with the host and its mac at the first end |
| `TestbedTopologies.TestbedTopology.ConnectedHosts` | core/topo.cxx:312-343 | the loop over the links computes the specified set |
| `TestbedTopologies.TestbedTopology.ConnectedSwitches` | core/topo.cxx:345-363 | the loop over the links computes the specified set |
| `Loads.SumInAnyOrder` | core/embed.cxx:137-156 | summing over a map gives the same in every iteration order |
| `Loads.AddThenRemove` | core/embed.cxx:161-173 | a new machine raises each used figure by exactly its demand, never frees the host, and removing it restores the embedding |
| `Loads.RemoveKeepsCapacity` | core/embed.cxx:168-173 | taking a machine off never overloads a host |
| `Loads.FreeNormAntitone` | core/embed.cxx:114-121 | on one host, using no less in any dimension means being no freer |
| `Loads.OverloadedIff` | core/embed.cxx:60-67 | a host is overloaded exactly when its machines' cores, megabytes of memory or disk, or megabits of interfaces add up to more than its own |
| `Loads.FreeNormIs` | core/embed.cxx:114-121 | the free norm is one less the average share of the four figures that the machines take |
| `Loads.FreeNormLaws` | core/embed.cxx:114-121 | an empty host is all free, and a new machine takes a quarter of the sum of its own four shares |
| `Loads.BytesAboveMegabytes` | core/embed.cxx:141-144 | the megabyte sums hide less than one megabyte per machine, and nothing for whole megabytes |
| `Loads.MemoryBound` | core/embed.cxx:141-144 | how far the machines of a host that is not overloaded can exceed its bytes |
| `Loads.SumCapacities` | core/embed.cxx:151-152 | the loop over the interfaces adds up their capacities |
| `Loads.ComputeLoad` | core/embed.cxx:133-159 | walking machines and interfaces in any order computes the load |
| `Sorting.Sort` | core/embed.cxx:267-270 | a permutation in which keys do not decrease; ties in any order |
| `WorkLists.WorkListExact` | core/embed.cxx:261-289 | the work list names each computer once and names exactly those linked to some network |
| `WorkLists.LargestNetworkFirst` | core/embed.cxx:261-289 | no computer waits for one whose largest network is smaller |
| `Placements.PackMovesLongestTail` | core/embed.cxx:244-256 | a tail of the list is moved if and only if it fits beside what is on the host; an overloaded host takes nothing |
| `Placements.PackStuck` | core/embed.cxx:244-256 | nothing moves exactly when the next computer does not fit, and then nothing changes |
| `Placements.PackKeepsCapacity` | core/embed.cxx:244-256 | packing never overloads a host, whatever the ids |
| `Placements.InvOverRuns` | core/embed.cxx:323-341 | in every reachable state the computers placed and those left are the ordered work list, and each copy of a host holds exactly what it started with and what was placed on it in that turn |
| `Placements.RunsAreBounded` | core/embed.cxx:323-341 | the two loops take at most as many rounds as there are computers and switches together |
| `Placements.CapacityOverRuns` | core/embed.cxx:323-341 | no reachable state has a newly overloaded host |
| `Placements.TurnEndsStuck` | core/embed.cxx:326-340 | a switch's turn ends exactly when the next computer would overload its freest host |
| `Placements.KeptIffNotOverwritten` | core/embed.cxx:305-337 | a placed computer is on a host of the chart exactly when that host's last write was the turn that placed it there |
| `Placements.NothingLostWhenSingleHomed` | core/embed.cxx:305-337 | with every host on one switch no placed computer is lost |
| `Embeddings.EmbedPlacesOnce` | core/embed.cxx:258-373 | in a returned chart every linked computer is on exactly one host, earlier machines are where they were, nothing else was added |
| `Embeddings.EmbedNeverOverloads` | core/embed.cxx:258-373 | a returned chart has the same hosts and switches, and on every host that was within its four capacities the machines' figures still add up to no more than the host's |
| `Embeddings.CountsTwoLinks` | core/embed.cxx:349-359 | a switch's count passes one exactly when two different links were counted |
| `Embeddings.SwitchRule` | core/embed.cxx:345-370 | a network is on a switch exactly when it was there or at least two of its links lead to computers on hosts attached to the switch |
| `SwitchRules.SwitchIdsByLinks` | core/topo.cxx:345-363 | with names that hash apart the switches looked up for a host are those the testbed's links join to it |
| `SwitchRules.HostIdsByLinks` | core/topo.cxx:312-343 | the same for the hosts of a switch |
| `SwitchRules.SwitchRuleByLinks` | core/embed.cxx:345-370 | a network is on a switch exactly when it was there, or two different links join it to computers on hosts that the testbed's links join to the switch |
| `Embeddings.SwitchesStay` | core/embed.cxx:357-369 | no switch appears or disappears, and only switches of the chart are needed |
| `Embeddings.UnembedUndoesEmbed` | core/embed.cxx:375-395 | on a returned chart `unembed` succeeds exactly when all computers are linked, and then restores the chart entry for entry |
| `Embeddings.LostIffOverwritten` | core/embed.cxx:352-352 | with everything packed the lookup misses a computer exactly when, in the run that packed it, a later turn wrote back its host |
| `SharedHosts.SharedHostLosesComputer` | core/embed.cxx:305-354 | on a chart whose switches all have the one host, two linked computers with room for either but not both make every call fail: for room with one switch, for the lost first computer with more |
| `SharedHosts.OneHostTakesBoth` | core/embed.cxx:258-373 | on one switch with one host that has room for two linked computers every call returns the chart with both on the host and their network on the switch |
| `Choices.AverageIs` | core/embed.cxx:291-302 | the aggregate of a switch is the sum of its hosts' free shares over their number |
| `Choices.HowEmbedChooses` | core/embed.cxx:304-343 | switches take turns in order of these averages, every round packs a host with the smallest share taken, and a call fails for lack of room exactly when computers are left, every switch having had its turn and no room for the next computer on its freest host |
| `Embeddings.OnlyRoomStopsEmbed` | core/embed.cxx:343-363 | with readable links, single-homed hosts and known switches the only failure is running out of room |
| `Embeddings.EveryTurnEndsStuck` | core/embed.cxx:324-341 | every switch that lost its turn lost it with no room for the next computer on its freest host |
| `ChartHistories.NoHistoryOverloads` | core/embed.cxx:258-395 | after any sequence of embeddings and unembeddings from an empty chart, the machines of every host add up to no more than it has in each of the four figures, and the next call is defined |
| `ChartHistories.ChartFollowsBlueprints` | core/embed.cxx:258-395 | over every such sequence without shared ids, hosts hold just the linked computers of the blueprints that are up, each on one host, and switches just the networks two of whose links reach them |
| `ChartHistories.NothingUpNothingLeft` | core/embed.cxx:258-395 | when everything was taken off, in any order, all hosts and switches of the testbed are on the chart and nothing is on them |
| `ChartHistories.CanAlwaysBeTakenOff` | core/embed.cxx:375-395 | a blueprint that is up can be taken off at any time, exactly if all its computers are linked |
| `Embedder.PackHost` | core/embed.cxx:244-256 | the packing loop computes the specified packing |
| `Embedder.WorkList` | core/embed.cxx:261-289 | sorting, merging and reversing yield a work list |
| `Embedder.AverageFreeOf` | core/embed.cxx:291-302 | the aggregate of a switch does not depend on the order of its hosts |
| `Embedder.SortByFree` | core/embed.cxx:328-332 | the list keeps its hosts and its first is the freest |
| `Embedder.CollectSwitches` | core/embed.cxx:305-317 | each switch of the chart once, with its own copies of its hosts |
| `Embedder.TakeTurn` | core/embed.cxx:326-340 | one switch's loop is a run of the machine that ends its turn or the work |
| `Embedder.PlaceAll` | core/embed.cxx:323-341 | the two loops are a run of the machine to its end |
| `Embedder.GetEmbedding` | core/embed.cxx:218-229 | finds a host showing the computer, or there is none |
| `Embedder.AssignNetworks` | core/embed.cxx:345-372 | the network loops return what the switch rule allows |
| `Embedder.Embed` | core/embed.cxx:258-373 | returns a chart or an error that the machine and the switch rule allow |
| `Embedder.Unembed` | core/embed.cxx:375-395 | takes each computer off one host that shows it and each network off all switches, or reports a computer no host shows |
| `IdCaches.LinearIdCacheMap.Create` | core/util.hxx:131-143 | a live key gets its id again, a new one the next id |
| `IdCaches.LinearIdCacheMap.Get` | core/util.hxx:145-151 | the id of a live key, otherwise the exception |
| `IdCaches.LinearIdCacheMap.Erase` | core/util.hxx:153-158 | forgets the key and keeps the counter |
| `IdCaches.SameIdIffHeld` | core/util.hxx:127-165 | over every run two answers agree exactly when they are for one key that was not erased in between |
| `IdCaches.CounterAboveAll` | core/util.hxx:127-165 | the counter exceeds every id ever issued |
| `IdCaches.NoIdIsSkipped` | core/util.hxx:131-143 | every id below the counter was the answer to some `create` |
| `HostControl.HostController.CreateNetworkBridge` | core/host-control.cxx:420-459 | gives the network a bridge id and issues the command for that bridge |
| `HostControl.HostController.CreateComputerPort` | core/host-control.cxx:461-481 | gives the mac a port id and issues the command for the port on the network's bridge, or fails for an unknown network |
| `HostControl.HostController.LaunchNetworks` | core/host-control.cxx:496-507 | succeeds exactly on readable links; the keys added and the commands issued are exactly those of the networks walked, the last of which is the unreadable one on failure |
| `HostControl.HostController.LaunchVm` | core/host-control.cxx:325-417 | succeeds exactly when all ports are known; then the one command issued starts a machine with one device per interface |
| `HostControl.HostController.LaunchComputers` | core/host-control.cxx:509-532 | issues one start command for each computer walked but the one it stops at, which lacks its control interface or a port |
| `HostControl.HostController.Construct` | core/host-control.cxx:534-566 | when construction succeeds, and the keys and commands of a whole or a half construction |
| `HostControl.HostController.TerminateComputers` | core/host-control.cxx:585-605 | issues a stop command for each computer walked and drops just their control macs |
| `HostControl.HostController.TerminateNetworks` | core/host-control.cxx:607-624 | deletes the bridge of each network walked and drops just their bridges and ports; stops at a network without bridge or with an unreadable link |
| `HostControl.HostController.Destruct` | core/host-control.cxx:626-652 | when destruction succeeds, and the keys and commands of a whole or a half destruction |
| `HostRuns.ConstructedIssues` | core/host-control.cxx:496-532 | a successful construction itself issues the commands for every bridge, every port on the right bridge and every machine |
| `HostCommands.ConstructionIssuesAllThat` | core/host-control.cxx:496-532 | a construction issues a bridge for each network, a port on it for each link, and a machine for each computer under its own control id with one device per interface |
| `HostCommands.ConstructionIssuesJustThat` | core/host-control.cxx:496-532 | a whole or half construction issues nothing else, and no port before its bridge |
| `HostCommands.UpHasMachines` | core/host-control.cxx:325-417 | over every run in which destructed blueprints share nothing with others that are up, each computer of a blueprint that is up has a machine started under the id its control mac still has |
| `HostCommands.MachinesHaveTheirOwnIds` | core/host-control.cxx:325-417 | machines that are up with different control macs were started under different ids |
| `HostCommands.DestructionIssuesJustThat` | core/host-control.cxx:585-624 | a destruction stops each computer, then deletes each network's bridge, and issues nothing else |
| `HostCommands.HalfDestructionIssuesOnlyThat` | core/host-control.cxx:585-624 | one that stops half way issues only such commands |
| `HostCommands.DestructionDropsJustThat` | core/host-control.cxx:585-624 | it drops the bridges of the networks, the control macs of the computers and the macs of their links, and nothing else |
| `HostRuns.DevicesArePlugged` | core/host-control.cxx:325-360 | every device of a machine it started uses a port that it put on the bridge of a network the device's mac is linked to |
| `HostRuns.IdsAreNeverShared` | core/host-control.cxx:420-652 | over every run, whatever fails and whatever blueprints share, live keys of a map have different ids and a deleted bridge's id is not used again |
| `HostRuns.KeysBelong` | core/host-control.cxx:420-652 | over every run a live key belongs to a blueprint that is up or was left half done |
| `HostRuns.IdsFollowBlueprints` | core/host-control.cxx:420-652 | if destructed blueprints share nothing with others that are up, all keys of these are live, and the live keys are exactly theirs when nothing is left half done |
| `HostRuns.UpStaysWired` | core/host-control.cxx:420-652 | under the same condition a blueprint that is up keeps its undeleted bridges, the ports on them and its machines' devices, whatever else happens |
| `HostRuns.LiveNeverForgets` | core/host-control.cxx:544-546 | `live_blueprints` holds every blueprint ever constructed, so just those that are up exactly when all of them are |
| `Addresses.AdditionInverse` | core/blueprint.cxx:584-619 | addition and subtraction undo each other, wrap-around included |
| `Addresses.AdditionSteps` | core/blueprint.cxx:584-619 | adding and subtracting are that many steps up and down, and a step wraps only at the top |
| `Addresses.NthExact` | core/materialization-service.cxx:114-123 | the closed form is the k-th number at or above the base that does not end in .0 |
| `Addresses.HandedDistinct` | core/materialization-service.cxx:114-123 | addresses handed out are distinct and do not end in .0 unless they run around the whole space |
| `Addresses.AllInBlockIff` | core/materialization-service.cxx:114-123 | all addresses lie in the CIDR block exactly when the block has enough numbers from the base up |
| `Addresses.BlockIsPrefix` | core/blueprint.cxx:584-619 | the block of a network is the numbers with the same first bits, as many of them as the mask says |
| `Addresses.AlignedRoom` | core/materialization-service.cxx:114-123 | a network that starts its block and has mask at most 24 has room for 255 times 2 to the power 24 minus mask |
| `Materialization.HandlesIffReadable` | core/blueprint.cxx:170-192 | the handles of a network's interfaces exist exactly when its links can be read |
| `Materialization.AssignAddresses` | core/materialization-service.cxx:114-123 | the inner loop gives the k-th handle the k-th number that does not end in .0 |
| `Materialization.AssignAll` | core/materialization-service.cxx:108-124 | the two loops over a blueprint write exactly these addresses, network by network, and stop at the first unreadable network |
| `Materialization.LinkedGetAddresses` | core/materialization-service.cxx:108-124 | afterwards the k-th linked interface of a network has its k-th number, unless the loops come by the interface again |
| `Materialization.OthersKeepAddresses` | core/materialization-service.cxx:108-124 | interfaces on no link keep their addresses |
| `BlueprintJson.SizesRoundTrip` | core/blueprint.cxx:436-461 | sizes, rates and latencies are read back as written |
| `BlueprintJson.InterfaceRoundTrip` | core/blueprint.cxx:869-925 | interfaces with 32-bit addresses are read back as written |
| `BlueprintJson.NetworkRoundTrip` | core/blueprint.cxx:694-731 | networks with 32-bit addresses are read back as written |
| `BlueprintJson.LinkRoundTrip` | core/blueprint.cxx:1249-1263 | links are read back with their ids and macs |
| `BlueprintJson.ComputerRead` | core/blueprint.cxx:1001-1023 | a computer is read back with the default disk and a control interface it may not have had |
| `BlueprintJson.JsonRoundTrip` | core/blueprint.cxx:351-391 | whatever the map orders, reading back succeeds and changes nothing but disks and missing control interfaces, which get the macs generated for them |
| `JsonFormat.UnitNames` | core/blueprint.cxx:436-442 | the fourteen unit names and what they are read as |
| `JsonFormat.OtherUnitsFail` | core/blueprint.cxx:436-442 | any other unit name is an error |
| `JsonFormat.InterfaceDocument` | core/blueprint.cxx:869-884 | a document with these tags is read as that interface |
| `JsonFormat.NetworkDocument` | core/blueprint.cxx:694-713 | the same for a network |
| `JsonFormat.LinkDocument` | core/blueprint.cxx:1249-1256 | the same for a link, whose first end is the computer's |
| `JsonFormat.ComputerDocument` | core/blueprint.cxx:1001-1023 | the same for a computer, with the default disk and control interface |
| `JsonFormat.BlueprintDocument` | core/blueprint.cxx:363-391 | the same for a blueprint of one of each |
| `BlueprintEquality.EqualAfterJson` | core/blueprint.cxx:393-424 | under the source's equality a blueprint equals what is read back exactly when all disks have the default size |
| `EditLaws.SameLatencyIff` | core/blueprint.cxx:538-553 | latencies are taken for equal exactly when they are the same number of nanoseconds |
| `EditLaws.ComputerSeen` | core/blueprint.cxx:1161-1177 | a computer equals itself after a change exactly when the change keeps names, system, cores, sizes, rates and times and takes no interface away |
| `EditLaws.NetworkSeen` | core/blueprint.cxx:743-751 | the same for a network, whose address space is not compared |
| `EditLaws.BlueprintSeen` | core/blueprint.cxx:393-424 | the same for a blueprint, whose links and id are not compared |
| `EditLaws.SettersSetOneField` | core/blueprint.cxx:1026-1084 | each setter of a computer sets its field, and setting it back undoes it |
| `EditLaws.InterfaceSetters` | core/blueprint.cxx:886-914 | the same for an interface |
| `EditLaws.NetworkSetters` | core/blueprint.cxx:650-681 | the same for a network |
| `EditLaws.BlueprintSetters` | core/blueprint.cxx:104-293 | the name and the links, with the computer's end first |
| `EditLaws.NetworksChanged` | core/blueprint.cxx:121-126 | networks are added under their ids, removed by name and changed alone |
| `EditLaws.ComputersChanged` | core/blueprint.cxx:128-133 | the same for computers |
| `EditLaws.InterfaceAdded` | core/blueprint.cxx:1070-1078 | an interface that is there keeps mac and address, a new one gets the generated mac |
| `EditLaws.NewComputerDemands` | core/blueprint.cxx:68-80 | what a new computer takes of a host |
| `EditLaws.NewNetworkHas` | core/blueprint.cxx:56-66 | the rate and the address space of a new network |
| `BlueprintEquality.ConnectionsSurviveJson` | core/blueprint.cxx:363-391 | every network attaches the same computers by the same macs in the same order afterwards, or fails with the same error, except exactly when the missing mac is the one generated for the computer's control interface |
| `BlueprintClones.EqualAfterClone` | core/blueprint.cxx:335-349 | a blueprint equals its clone; the other way round exactly when each computer has a control interface |
| `BlueprintClones.CloneIsCopyIff` | core/blueprint.cxx:335-349 | the clone is the same in every field exactly when address spaces are the default, interfaces have no address and computers have control interfaces |
| `BlueprintClones.CloneKeepsTheRest` | core/blueprint.cxx:335-349 | everything but addresses, address spaces and missing control interfaces is copied |
| `BlueprintClones.ConnectionsSurviveClone` | core/blueprint.cxx:335-349 | every network of the clone attaches the same computers by the same macs in the same order, or fails with the same error, except exactly when the missing mac is the one generated for the computer's control interface |
| `BlueprintEdits.RemovalFilters` | core/blueprint.cxx:253-264 | after removal the attachments of every network are the old ones without the removed computers, in order |
| `BlueprintStore.ComputerRecord.Clone` | core/blueprint.cxx:1121-1137 | a new computer with new interfaces and the specified value |
| `BlueprintStore.BlueprintRecord.Clone` | core/blueprint.cxx:335-349 | every record the clone reaches is new and reached in one way, and its value is the specified one |
| `BlueprintStore.ComputerRecord.Edit` | core/blueprint.cxx:1026-1084 | the setters of a computer and its interfaces change what they name and nothing else |
| `BlueprintStore.BlueprintRecord.Edit` | core/blueprint.cxx:104-294 | every setter changes the blueprint as specified, and brings in only new records |
| `BlueprintStore.EditClone` | core/blueprint.cxx:335-349 | any number of any changes made through a clone leave the original as it was |
| `BlueprintStore.EditBoth` | core/blueprint.cxx:335-349 | with changes on both sides in any order, original and clone each become what their own changes make of them |
| `BlueprintStore.BlueprintRecord.RemoveComputer` | core/blueprint.cxx:253-264 | the search-and-erase loop ends and keeps exactly the computers of other names |

## Left out

- Blueprints.ConnectedComputers: an attachment names its interface by the mac it was found by; when two interfaces of one computer share a mac the source returns either.
- BlueprintJson.FromJson: reads into values by recursion over the arrays; the loops that fill records in `fromJson` are not modelled, and an endpoint array shorter than two, which the source indexes unchecked, is an error here.
- Materialization.AssignAll: models the addresses only, not the vxlan numbers or the rest of the materializer.
- BlueprintStore.EditClone: changes go through setters; the map references that `computers()` and `networks()` return could also put a record of the original into the clone, and that is not modelled.
- Embeddings.LostIffOverwritten: the condition is read off the run; what a caller can check beforehand is `SingleHomedIn`, and the converse is not claimed, because a shared host that is full or never the freest loses nothing.
- HostControl.HostController.Construct: commands are assumed to succeed and their text, the disk images and the files written are not modelled.
- Embedder.Embed: does not claim to find every feasible embedding; placement tries only the freest host of the switch whose turn it is.
- Embedder.Embed: requires what the source needs to stay defined: every switch of the chart has a host, those hosts are in the chart, and no host is the second end of a link.
- Thread interleavings inside the id maps and `live_blueprints`: operations are atomic.
- Text of ids and of addresses: an id in JSON stands for its printed form, an address for its host-order number.
- `removeHost`, `removeSw`, topology JSON and topology clones: host and switch JSON carry no id and removal only drops links (core/topo.cxx:386-424), although test/core/jsonification.cxx:154-176 expects removal to restore equality.
- `norm`, `inf_norm` and the other figures of a load that embedding does not use, and `LoadVector + HwSpec`, whose memory is in bytes where loads count megabytes.
- Lookups by name: they would add only easy members.
- HTTP services, TLS, the database, the command line client and netlink.
