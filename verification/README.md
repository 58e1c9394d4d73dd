# Verified models of rk8s

This project models five parts of rk8s, a Kubernetes-like system written in Rust, and proves what they are for.

- **Secret sharing** (`Gf256`, `Polynomial`, `Interpolation`, `Shamir`). Shares over GF(256) with the program's own
  tables. The tables are proved to be the field of FIPS 197; interpolation exists and is unique; any threshold shares of
  a split give back the secret, and fewer say nothing about it.
- **Seal and unseal** (`VaultModel`, `Core`, `VaultSafety`, `VaultAnswers`, `VaultUnseal`, `VaultReach`,
  `VaultSecrecy`). The vault core and its barrier as classes, every operation proved against a function on the vault's state. Calls into storage, cryptography and module set-up
  fail or succeed as an arbitrary set of faults says. Safety holds over all runs, initialisation followed by
  submitting shares unseals end to end, and it is settled which vaults open again after a one-time unseal.
- **nftables compiler** (`NftNames`, `NftModel`, `NftCompiler`, `NftDiscovery`, `NftInstall`, `NftMaps`, `NftCorrect`,
  `NftTheorem`, `NftMeaning`, `NftBackends`, `NftSpelling`, `NftUpdates`, `NftShadow`, `NftInStep`, `NftGone`, `NftHistory`). Generators of commands, an
  interpreter for them that fails where nft fails, and a packet evaluator. The compiled rules do to every packet what the
  services ask, the incremental forms equal the full one, and so does every history of them that is accepted.
- **Scheduler** (`SchedulerCache`, `GangStore`, `GangProtocol`, `GangWhole`, `GangPlaces`, `GangSafety`,
  `GangDeclared`, `GangAccounts`, `GangLoss`). The cache and
  its resource counters, the store of waiting gangs, and the scheduling loop and the timeout watchdog as a state machine
  over their lock sections, with the calls from outside as steps of their own. Plugins appear as an arbitrary choice of
  node, the clock as an arbitrary advance.
- **Routing and addresses** (`PathTrie`, `Router`, `Subnets`, `SubnetWalk`, `ServiceIps`). The longest-prefix router and
  its path patterns, the subnet ranges, and the rebuild of the service-address registry.

Classes and loops follow the program; each is tied to a function or a property of the old state, and the theorems are
about those. `dafny verify dfyconfig.toml` checks everything.

These expectations do not hold of the program as it stands. Each has an input on which it fails, and the exact condition
under which it holds:

- A vault that was initialised can be opened: not with 1 share and threshold 0 (`VaultReach.ThresholdZeroNeverOpens`,
  `VaultReach.OpensExactly`). And a vault that was opened can be opened again: not with threshold 1 after a one-time
  unseal, which moreover answers with an error (`VaultReach.SingleShareOpensOnce`, `VaultReach.OpenedForTheLastTime`,
  `VaultReach.NewSharesOpenAgain`).
- Core and barrier are sealed together: a failed completion of an unseal leaves the barrier open
  (`VaultReach.BarrierLeftOpen`, `VaultSafety.AgreementLostExactly`), and so does a failed key derivation during
  initialisation (`VaultReach.InitBarrierLeftOpen`, `VaultSafety.InitAgreementLostExactly`).
- A failed initialisation leaves the vault sealed: not when the shares cannot be dealt (`VaultReach.InitLeftOpen`,
  `VaultSafety.InitLeavesOpenExactly`).
- Packets reach the service they are for: not when two services share a chain name (`NftMeaning.MisdirectedPacket`,
  `NftMeaning.MeaningExactly`, `NftMeaning.MeaningForAnyEndpoints`).
- Every set of services can be deployed: not one port with TCP and another protocol (`NftMeaning.MixedPortsRefused`,
  `NftTheorem.CompilerExact`, `NftMaps.ConsistentExactly`).
- A deleted service is cleaned up incrementally: its transaction is refused when a later service has an address and port,
  or a node port, of the deleted one that no earlier service has; the snapshot rebuilt for the delta lists the deleted
  service last (`NftHistory.SharedAddressRefused`, `NftGone.GoneExactly`).
- Members of a gang are placed when it goes out: not when one was removed meanwhile (`GangSafety.RemovedMemberGoesOut`,
  `GangSafety.OutsideExactly`).
- A pod that is not placed will be scheduled: not when its priority is changed while it is queued
  (`GangLoss.RaisedPriorityIsLost`, `GangLoss.NewPriorityDoomsExactly`, `GangLoss.DroppedExactly`).
- A failed mount or unmount leaves the router as it was: not when only the saving, respectively the clearing, fails
  (`Router.CoreMountExactly`, `Router.CoreUnmountExactly`).
- A path that a listed pattern matches passes the pattern test: not when an exact pattern hides a wildcard
  (`PathTrie.ShadowedExample`, `PathTrie.AcceptsIffNotShadowed`).
- Accepted subnet ranges lie in the network: not when the network is not written by its base address
  (`SubnetWalk.RangeOutsideNetwork`, `SubnetWalk.DefaultRange`). The order of given ends is never looked at
  (`SubnetWalk.AcceptedExactly`).

## Model

| member | source | states |
|---|---|---|
| `Gf256.ExpStep` | project/libvault/src/shamir.rs:37-55 | Each exponent-table entry is the previous one times the generator 0xe5, by shift-and-xor arithmetic |
| `Gf256.LogExp` | project/libvault/src/shamir.rs:37-73 | The logarithm table undoes the exponent table |
| `Gf256.ExpLog` | project/libvault/src/shamir.rs:37-73 | The exponent table undoes the logarithm table on nonzero bytes |
| `Gf256.MulIsFieldProduct` | project/libvault/src/shamir.rs:248-256 | The table product equals the shift-and-xor product of section 4.2 of FIPS 197 for all bytes |
| `Gf256.MulDistributes` | project/libvault/src/shamir.rs:248-256 | The table product distributes over xor |
| `Gf256.MulAssociates` | project/libvault/src/shamir.rs:248-256 | The table product is associative |
| `Gf256.MulNonZero` | project/libvault/src/shamir.rs:248-256 | A product is zero exactly when a factor is |
| `Gf256.DivCorrect` | project/libvault/src/shamir.rs:258-274 | Division fails exactly for a nonzero dividend over zero (0 / 0 is 0); otherwise multiplying back gives the dividend |
| `Polynomial.AddPolynomials` | project/libvault/src/shamir.rs:293-315 | The padded loop computes the coefficient-wise sum for all lengths |
| `Polynomial.MultiplyPolynomials` | project/libvault/src/shamir.rs:276-291 | The nested loops compute the accumulated product for all lengths |
| `Polynomial.EvalAdd` | project/libvault/src/shamir.rs:293-315 | Evaluation of a sum is the sum of the evaluations |
| `Polynomial.EvalMul` | project/libvault/src/shamir.rs:276-291 | Evaluation of a product is the product of the evaluations |
| `Interpolation.ManyRootsIsZero` | project/libvault/src/shamir.rs:205-235 | A polynomial with as many distinct roots as coefficients is zero |
| `Interpolation.InterpolantIsUnique` | project/libvault/src/shamir.rs:205-235 | Through distinct points there is at most one polynomial of that length |
| `Interpolation.InterpolantExists` | project/libvault/src/shamir.rs:205-235 | Through distinct points there is a polynomial of that length |
| `Interpolation.LagrangeBasis` | project/libvault/src/shamir.rs:210-225 | For distinct points the basis loop never fails and gives the polynomial that is 1 at its own point and 0 at the others |
| `Interpolation.FullLagrange` | project/libvault/src/shamir.rs:205-235 | For distinct points it returns the interpolating polynomial of the same length; it fails exactly when two points coincide |
| `Shamir.WithSecret` | project/libvault/src/shamir.rs:82-96 | One polynomial per secret byte: the byte first, then threshold - 1 noise bytes |
| `Shamir.AccumulateShareBytes` | project/libvault/src/shamir.rs:189-203 | Rejects id 0; otherwise evaluates the polynomial at the id |
| `Shamir.GetShare` | project/libvault/src/shamir.rs:98-111 | Rejects id 0; otherwise the evaluations followed by the id |
| `Shamir.Split` | project/libvault/src/shamir.rs:167-183 | Succeeds exactly for 2 <= threshold <= part < 255, and then gives the shares with ids 1 to part |
| `Shamir.Combine` | project/libvault/src/shamir.rs:121-187 | Succeeds exactly for at least two non-empty shares of equal length with distinct ids, and then returns per byte the constant term of the unique interpolant |
| `Shamir.AnyThresholdSharesRecover` | project/libvault/src/shamir.rs:121-165 | Any at least threshold shares with distinct nonzero ids of a dealt secret recover it |
| `Shamir.SplitCombineRoundTrip` | project/libvault/src/shamir.rs:121-187 | Every selection, in any order, of at least threshold distinct shares of a split combines to exactly the secret |
| `Shamir.BelowThresholdAnySecret` | project/libvault/src/shamir.rs:82-111 | Fewer than threshold shares fit every secret: for each candidate there are coefficients that give exactly those shares |
| `Core.Core.constructor` | project/libvault/src/core.rs:104-164 | A new core is sealed, holds nothing and has no barrier key |
| `Core.Core.GenerateUnsealKeys` | project/libvault/src/core.rs:590-606 | New shares of the key in use, or the error of a sealed or unreadable vault |
| `Core.Core.Init` | project/libvault/src/core.rs:206-296 | The whole initialisation against its specification, with every error exit |
| `Core.Core.DoUnseal` | project/libvault/src/core.rs:406-499 | One share submitted, against its specification, with every error exit |
| `Core.Core.UnsealOnce` | project/libvault/src/core.rs:533-540 | A one-time unseal followed by new shares |
| `Core.Core.Seal` | project/libvault/src/core.rs:542-564 | Sealing the core state and the barrier |
| `VaultSafety.StepKeepsInv` | project/libvault/src/core.rs:206-296 | Every operation, with any calls failing, keeps: a sealed state holds no key, hmac key or system view; an unsealed state has an unsealed barrier; collected shares are distinct and fewer than a threshold of at least 1 |
| `VaultSafety.EveryRunIsSafe` | project/libvault/src/core.rs:406-564 | That holds after every run of operations from a fresh vault |
| `VaultSafety.StepGrowsDeprecated` | project/libvault/src/core.rs:484-497 | The set of used shares only grows |
| `VaultSafety.RunKeepsShares` | project/libvault/src/core.rs:406-499 | While the set of used shares is readable, collected shares are never among them |
| `VaultSafety.DeprecatedIsRefused` | project/libvault/src/core.rs:429-434 | A used share is refused and changes nothing |
| `VaultSafety.OneTimeUnsealDeprecates` | project/libvault/src/core.rs:484-497 | A completed one-time unseal puts every share it used in the set |
| `VaultSafety.UsedSharesStayRefused` | project/libvault/src/core.rs:406-499 | A share used in a completed one-time unseal is refused after every later run |
| `VaultSafety.AgreementLostExactly` | project/libvault/src/core.rs:473-482 | From agreement a submission leaves core and barrier in disagreement exactly when the barrier opens and then the key derivation or the module set-up fails |
| `VaultSafety.InitAgreementLostExactly` | project/libvault/src/core.rs:206-259 | Initialisation of a vault without a key leaves a sealed core over an open barrier exactly when everything up to opening the barrier worked and the key derivation failed |
| `VaultSafety.InitLeavesOpenExactly` | project/libvault/src/core.rs:206-296 | A successful initialisation ends sealed; a failed one leaves the core unsealed exactly when everything up to opening the barrier worked and the shares could not be dealt |
| `VaultUnseal.CollectsBelowThreshold` | project/libvault/src/core.rs:422-440 | Shares submitted in any order with repeats are collected once each, and every answer below the threshold is false |
| `VaultUnseal.OpensAtThreshold` | project/libvault/src/core.rs:436-499 | The threshold-th distinct share answers true and restores the key |
| `VaultUnseal.InitDeals` | project/libvault/src/core.rs:206-296 | With no call failing initialisation succeeds exactly for the usable configurations and for 1 share with threshold 0; for a usable one any threshold of the returned shares give back the key, for the other the key itself is returned |
| `VaultSecrecy.DealtSharesHideKey` | project/libvault/src/core.rs:590-606 | An open vault deals any given fewer than threshold shares, at any ids, under any key, for some random bytes |
| `VaultSecrecy.InitSharesHideKey` | project/libvault/src/core.rs:206-296 | So does initialisation |
| `VaultAnswers.InitWritesExactly` | project/libvault/src/core.rs:206-296 | Which entries an initialisation has written when a call fails, when it succeeds, and that a vault with a key is left alone |
| `VaultAnswers.UnsealRefusesExactly` | project/libvault/src/core.rs:406-434 | The refusals of a submission, each exactly under its condition (keys of 16 to 33 bytes), and that they change nothing |
| `VaultAnswers.UnsealCountsExactly` | project/libvault/src/core.rs:436-499 | A counted share is collected below the threshold; at the threshold the vault opens exactly when the shares stand for the key and no call fails |
| `VaultAnswers.LateFailuresExactly` | project/libvault/src/core.rs:462-499 | What each failing call after the opening of the barrier leaves behind |
| `VaultAnswers.FailedAttemptForgets` | project/libvault/src/core.rs:449-461 | A completed attempt that does not open the barrier clears the collected shares and nothing else |
| `VaultAnswers.WrongSharesStartAgain` | project/libvault/src/core.rs:449-461 | After a wrong share the vault waits for its own shares again, from none |
| `VaultAnswers.OnceAnswersExactly` | project/libvault/src/core.rs:533-540 | When a one-time unseal answers with shares, and that it answers so only for an opened vault |
| `VaultAnswers.SealsExactly` | project/libvault/src/core.rs:542-564 | Sealing succeeds exactly for an open barrier with no failing call, and then forgets everything |
| `VaultAnswers.DealsExactly` | project/libvault/src/core.rs:590-606 | Shares are dealt exactly to an open vault with 2 to 254 shares and a threshold of at least 2; each has 33 bytes |
| `VaultReach.KeylessForever` | project/libvault/src/core.rs:442-453 | Initialised with 1 share and threshold 0, the vault stays exactly as it is through every run |
| `VaultReach.OpensExactly` | project/libvault/src/core.rs:206-499 | A successfully initialised vault can be unsealed by some run exactly when its threshold is at least 1 |
| `VaultReach.ThresholdZeroNeverOpens` | project/libvault/src/core.rs:55-62 | The failing configuration: initialisation succeeds and no run opens the vault |
| `VaultReach.BarrierLeftOpen` | project/libvault/src/core.rs:473-482 | A run from a fresh vault, 3 shares with threshold 2 and a failing module set-up on the second, ends with a sealed core over an open barrier |
| `VaultReach.InitBarrierLeftOpen` | project/libvault/src/core.rs:245-251 | 3 shares with threshold 2 and a failing key derivation: initialisation ends with a sealed core over an open barrier, and every later share is refused |
| `VaultReach.InitLeftOpen` | project/libvault/src/core.rs:206-296 | 5 shares with threshold 1: nothing fails and initialisation ends in an error with the vault unsealed |
| `VaultUnseal.InitThenUnseal` | project/libvault/src/core.rs:206-499 | End to end: after initialisation any threshold distinct returned shares, repeats interleaved, unseal exactly at the last one with the original key |
| `VaultReach.OnceSpends` | project/libvault/src/core.rs:533-540 | With threshold 1 a one-time unseal that opens the vault answers with an error and uses up the key |
| `VaultReach.OpenedForTheLastTime` | project/libvault/src/core.rs:406-564 | From then on, once the vault is sealed, no run that reads the set of used shares opens it again |
| `VaultReach.SingleShareOpensOnce` | project/libvault/src/core.rs:533-540 | 1 share with threshold 1: initialise, unseal once, seal; no such run opens the vault |
| `VaultReach.NewSharesOpenAgain` | project/libvault/src/core.rs:484-540 | From threshold 2 on a one-time unseal returns new shares, the used set grows by exactly the submitted ones, and the sealed vault waits for any threshold of the new shares unless one of them is a used one |
| `NftNames.MarkInjective` | project/libnetwork/src/nftables.rs:824-826 | Mark chain names tell service chains apart |
| `NftNames.EndpointInjective` | project/libnetwork/src/nftables.rs:820-822 | Endpoint chain names tell service chain and index apart |
| `NftNames.ProtocolInjective` | project/libnetwork/src/nftables.rs:813-818 | Whatever the services, the chain name tells port and protocol apart when protocols are not empty and hold no dash |
| `NftNames.PortInjective` | project/libnetwork/src/nftables.rs:813-818 | Within a service the chain name tells port and protocol apart when no port is negative, or protocols are not empty and hold no dash |
| `NftNames.PortsCanMeet` | project/libnetwork/src/nftables.rs:813-818 | Otherwise two ports of a service can share a chain name |
| `NftNames.ServiceInjective` | project/libnetwork/src/nftables.rs:813-818 | Across services it tells all four parts apart when namespaces hold no dash either |
| `NftNames.NamesCanMeet` | project/libnetwork/src/nftables.rs:813-818 | With dashes two different services can share a chain name |
| `NftCompiler.BackendElementsForServicePort` | project/libnetwork/src/nftables.rs:1092-1122 | The backends of a service port, as `NftBackends.BackendAt` lists them |
| `NftCompiler.EndpointChainNamesForServicePort` | project/libnetwork/src/nftables.rs:1058-1090 | As many endpoint chain names as the port has backends |
| `NftCompiler.AppendLegacyEndpointChainRules` | project/libnetwork/src/nftables.rs:1187-1266 | One chain per backend and a numbered goto over all of them |
| `NftCompiler.AppendServicePortDnatMapRule` | project/libnetwork/src/nftables.rs:1135-1185 | One rule that maps a random number to a backend |
| `NftCompiler.GenerateServiceUpdateObjects` | project/libnetwork/src/nftables.rs:292-391 | The commands of a full service update |
| `NftCompiler.GenerateServiceBackendOnlyUpdateObjects` | project/libnetwork/src/nftables.rs:393-432 | The commands of an endpoint-only update |
| `NftCompiler.GenerateServiceDetachWithEndpoint` | project/libnetwork/src/nftables.rs:500-553 | The commands that empty a service |
| `NftCompiler.GenerateServiceDeleteWithEndpoint` | project/libnetwork/src/nftables.rs:555-639 | The commands that delete a service |
| `NftDiscovery.BuildServiceLookupMaps` | project/libnetwork/src/nftables.rs:835-886 | The lookup entries by address and by node port, split by transport, first service port first |
| `NftDiscovery.GenerateServicesDiscoveryRefresh` | project/libnetwork/src/nftables.rs:641-719 | The commands that rewrite both lookup maps |
| `NftDiscovery.GenerateServicesDiscoveryDelta` | project/libnetwork/src/nftables.rs:721-803 | Deletes exactly the stale and adds exactly the new entries, in some order |
| `NftDiscovery.GenerateNftablesConfig` | project/libnetwork/src/nftables.rs:103-290 | The commands of the full configuration |
| `NftInstall.ExecUpdateService` | project/libnetwork/src/nftables.rs:292-391 | A full update succeeds on every table and overlays exactly the service's chains |
| `NftMaps.ClusterLookup` | project/libnetwork/src/nftables.rs:835-886 | In a consistent snapshot a lookup leads a packet to the first service port with its address, port and protocol number |
| `NftMaps.NodeLookup` | project/libnetwork/src/nftables.rs:835-886 | The same by node port |
| `NftMaps.ConsistentExactly` | project/libnetwork/src/nftables.rs:835-886 | A snapshot gives every key one target exactly when kept service ports with the same address, port and protocol number have the same chain |
| `NftMaps.TcpOrUdpIsConsistent` | project/libnetwork/src/nftables.rs:835-886 | With TCP and UDP ports only it always does |
| `NftSpelling.TcpOrUdpExactly` | project/libnetwork/src/nftables.rs:840-855 | Ports count as TCP or UDP exactly when their protocol is so written, capitals or not |
| `NftSpelling.ClusterIpExactly` | project/libnetwork/src/nftables.rs:828-833 | A service has an address unless it is missing, empty, or the word none in any spelling |
| `NftSpelling.EntriesHaveAddresses` | project/libnetwork/src/nftables.rs:835-886 | No entry has an empty address or the word none; each has the address of one of the services |
| `NftMaps.ExecRefresh` | project/libnetwork/src/nftables.rs:641-719 | With the target chains in place a refresh succeeds exactly for consistent services, and leaves exactly their entries in both maps |
| `NftMaps.ExecDelta` | project/libnetwork/src/nftables.rs:721-803 | A delta from the held snapshot succeeds, in any element order, exactly when the new snapshot is consistent, and leaves exactly its entries |
| `NftMaps.DeltasEqualRefresh` | project/libnetwork/src/nftables.rs:641-803 | A refresh and any run of deltas succeed exactly when every snapshot is consistent, and end in the table of one refresh with the last snapshot |
| `NftCorrect.FindNumbered` | project/libnetwork/src/nftables.rs:1135-1185 | The numbered keys cover exactly 0 to n - 1 |
| `NftCorrect.EvalServiceChain` | project/libnetwork/src/nftables.rs:1092-1266 | A service chain, in either form, sends a packet to the drawn backend, or rejects it when there is none |
| `NftCorrect.LegacyEqualsMap` | project/libnetwork/src/nftables.rs:1135-1266 | Per-endpoint chains and the single map choose the same backend for every packet and draw |
| `NftCorrect.PairsChainsLookup` | project/libnetwork/src/nftables.rs:103-290 | The last service port with a chain has its chains undisturbed, whatever the others are called |
| `NftCorrect.PairsMarkLookup` | project/libnetwork/src/nftables.rs:103-290 | Mark chains are right for every service port, shared or not |
| `NftCorrect.ExecFullConfig` | project/libnetwork/src/nftables.rs:103-290 | The full configuration succeeds on every table and leaves the base chains and every service's chains |
| `NftTheorem.ConfigThenRefresh` | project/libnetwork/src/nftables.rs:103-290 | The configuration succeeds on every table; the refresh after it succeeds exactly for consistent services, and then every chain and entry is in place |
| `NftTheorem.CompilerExact` | project/libnetwork/src/nftables.rs:103-886 | For all services: success exactly for consistent ones, and then what the rules do to every packet and draw: the first service port with its key is served, marked, by the last one sharing its chain, then node ports, then nothing; no jump dangles |
| `NftMeaning.MeaningExactly` | project/libnetwork/src/nftables.rs:103-886 | With TCP and UDP ports that is what the services ask exactly when the matched service port and the last one sharing its chain draw the same backend |
| `NftMeaning.MeaningForAnyEndpoints` | project/libnetwork/src/nftables.rs:103-886 | For a packet it is so whatever the endpoints and the draw exactly when the two are of the same service and have the same port name |
| `NftMeaning.CompilerCorrect` | project/libnetwork/src/nftables.rs:103-886 | With distinct chain names every packet is sent, for every draw, to a backend of the first service port by cluster address with mark 0x4000, else of the first by node port unmarked, rejected when that has none, else left alone |
| `NftBackends.BackendAt` | project/libnetwork/src/nftables.rs:1092-1122 | The backends by position: the i-th address of the k-th subset follows those of the matching subsets before it, with the port that is first of the service port's name; their number is the sum of the address counts |
| `NftBackends.BackendFrom` | project/libnetwork/src/nftables.rs:1092-1122 | Every backend is one of these |
| `NftBackends.EndpointIsLast` | project/libnetwork/src/nftables.rs:258-275 | A service's endpoint is the last one listed under its name |
| `NftBackends.EveryAddressIsReached` | project/libnetwork/src/nftables.rs:103-886 | After configuration and refresh every address behind the first service port by cluster address is reached by some draw, with mark 0x4000 |
| `NftMeaning.MisdirectedPacket` | project/libnetwork/src/nftables.rs:813-818 | Two services with the same chain name: a packet for one is sent to a backend of the other |
| `NftMeaning.MixedPortsRefused` | project/libnetwork/src/nftables.rs:992-997 | A service with TCP and SCTP on one port cannot be deployed on any table |
| `NftMeaning.IdentifiedServicesCompile` | project/libnetwork/src/nftables.rs:813-818 | TCP and UDP services with dash-free namespaces and distinct ids have distinct chain names |
| `NftUpdates.EndpointRunEqualsFullUpdate` | project/libnetwork/src/nftables.rs:393-452 | In map mode any run of endpoint-only updates leaves the same table as one full update with the last endpoint |
| `NftUpdates.ExecDeletePorts` | project/libnetwork/src/nftables.rs:555-639 | Every delete command meets an existing, empty, unreferenced chain, and exactly the service's chains go |
| `NftUpdates.DeleteUndoesInstallExactly` | project/libnetwork/src/nftables.rs:292-639 | Install, optional detach, delete restores the table when no two ports share a chain, and fails otherwise |
| `NftUpdates.PortsTellApart` | project/libnetwork/src/nftables.rs:813-818 | Distinct (port, protocol) pairs do not share a chain when no port is negative, or protocols are not empty and hold no dash |
| `NftInStep.FullSyncWorks` | project/rks/src/controllers/nftrules_controller.rs:222-258 | A full sync is accepted exactly for consistent services, and then any table is in step with them |
| `NftInStep.SeenWorks` | project/rks/src/controllers/nftrules_controller.rs:297-329 | The transaction for a new service is accepted exactly when the services stay consistent, and then the table is in step |
| `NftInStep.EndpointsWork` | project/rks/src/controllers/nftrules_controller.rs:391-401 | The endpoint-only update is accepted and keeps it in step |
| `NftGone.RebuiltEntries` | project/rks/src/controllers/nftrules_controller.rs:166-173 | The snapshot rebuilt for a deleted service has the entries of the one before exactly when no later service has a key of the deleted one that no earlier service has |
| `NftGone.GoneExactly` | project/rks/src/controllers/nftrules_controller.rs:137-183 | The transaction for a deleted service, with or without a detach first, is accepted exactly under that condition, for cluster addresses and node ports, and then leaves the table in step with the rest |
| `NftHistory.SharedAddressRefused` | project/rks/src/controllers/nftrules_controller.rs:137-183 | Two services on one cluster address and port, deployed on any table: the transaction for deleting the first is refused |
| `NftHistory.EventExactly` | project/rks/src/controllers/nftrules_controller.rs:110-401 | Each event's transaction is carried out exactly when its own condition holds, and then keeps the table in step |
| `NftHistory.HistoryEqualsFullSync` | project/rks/src/controllers/nftrules_controller.rs:110-401 | A history of full syncs, new services, endpoint changes and deleted services is carried out exactly when each event's condition holds, and then every packet meets what a full sync of the final services on any table would give it |
| `SchedulerCache.PodCache.AssumePod` | project/libscheduler/src/cache.rs:38-63 | Placement of a pod and the node's counters |
| `SchedulerCache.PodCache.UnassumePod` | project/libscheduler/src/cache.rs:65-84 | Taking a pod off its node |
| `SchedulerCache.PodCache.UpdatePodInfo` | project/libscheduler/src/cache.rs:86-88 | Replacing a pod |
| `SchedulerCache.PodCache.RemovePodInfo` | project/libscheduler/src/cache.rs:90-104 | Removing a pod and its share |
| `SchedulerCache.PodCache.UpdateNodeInfo` | project/libscheduler/src/cache.rs:106-127 | Replacing a node but not its counters; a known node is returned |
| `SchedulerCache.PodCache.PopPodsOnNode` | project/libscheduler/src/cache.rs:129-140 | Every pod of the node, each once with its priority, is taken off with its attempts cleared |
| `SchedulerCache.PodCache.RemoveNode` | project/libscheduler/src/cache.rs:142-144 | Removing a node |
| `SchedulerCache.AssumeAccounts` | project/libscheduler/src/cache.rs:38-63 | Keeps the accounting exactly unless a pod with a non-empty request is placed again on another node |
| `SchedulerCache.UnassumeAccounts` | project/libscheduler/src/cache.rs:65-84 | Keeps the accounting always |
| `SchedulerCache.RemovePodAccounts` | project/libscheduler/src/cache.rs:90-104 | Keeps the accounting always |
| `SchedulerCache.UpdatePodAccounts` | project/libscheduler/src/cache.rs:86-88 | Keeps the accounting exactly when the new pod names no unknown node and the replaced pod accounted for the same |
| `SchedulerCache.UpdateNodeAccounts` | project/libscheduler/src/cache.rs:106-127 | Keeps the accounting exactly when the node is known or starts with nothing requested |
| `SchedulerCache.RemoveNodeAccounts` | project/libscheduler/src/scheduler.rs:683-691 | Whole-node removal keeps the accounting |
| `SchedulerCache.StepAccounts` | project/libscheduler/src/cache.rs:38-144 | An operation keeps the accounting exactly when its own condition holds |
| `SchedulerCache.EveryRunAccounts` | project/libscheduler/src/cache.rs:38-144 | After every run of allowed operations each counter is the sum over the pods placed there, modulo 2^64 |
| `SchedulerCache.CountersExact` | project/libscheduler/src/cache.rs:38-144 | When the totals fit 64 bits the counters are the sums and no subtraction underflows |
| `SchedulerCache.UpdateNodeExactly` | project/libscheduler/src/cache.rs:106-127 | A known node gets the new information and keeps its counters, a new one comes as it is, nothing else changes |
| `SchedulerCache.RemoveNodeExactly` | project/libscheduler/src/cache.rs:129-144 | Removing a node takes exactly its pods off, attempts cleared, and leaves every other pod and node as it was |
| `GangStore.GangStateStore.AddGangMember` | project/libscheduler/src/gang_state.rs:18-27 | The member joins an entry that keeps its first size; full when the members reach it |
| `GangStore.GangStateStore.TakeGang` | project/libscheduler/src/gang_state.rs:29-32 | The entry is removed and its members returned |
| `GangStore.GangStateStore.TakeTimedOut` | project/libscheduler/src/gang_state.rs:54-68 | Exactly the incomplete entries past the timeout are removed, each returned once |
| `GangWhole.StepKeepsSizes` | project/libscheduler/src/scheduler.rs:504-530 | In every step, whatever happens outside: entries are incomplete, except the one about to be taken, which has exactly its size |
| `GangWhole.GangsGoOutWhole` | project/libscheduler/src/scheduler.rs:504-530 | Over every run and any outside interference: each batch has exactly its recorded size (1 for size 0), and the gang assignments sent are exactly the batches, less the rest of the one being sent |
| `GangDeclared.JoinExactly` | project/libscheduler/src/gang_state.rs:18-27 | The first join records the size the pod declares and the time, later ones keep both and add the pod, and the gang is full exactly when the members reach that size |
| `GangDeclared.BatchesHaveDeclaredSize` | project/libscheduler/src/scheduler.rs:504-530 | Over every run from the empty start, whatever else happens: if all pods put in with a gang's id declare one size, every batch of that gang has exactly so many members (1 for size 0) |
| `GangDeclared.NoMemberGoesOutAlone` | project/libscheduler/src/scheduler.rs:504-530 | With pods that stick to what they declare, a batch holds only pods of its gang and a pod of a gang is never assigned on its own |
| `GangDeclared.WatchTakesExactly` | project/libscheduler/src/gang_state.rs:54-68 | The watchdog takes exactly the incomplete entries whose first join is longer ago than the timeout |
| `GangDeclared.JoinsDoNotExtend` | project/libscheduler/src/gang_state.rs:18-68 | However many members join later and whatever else happens, that time counts from the first join |
| `GangPlaces.TakingMoves` | project/libscheduler/src/gang_state.rs:54-68 | Taking entries moves their members and nothing else |
| `GangPlaces.StepMoves` | project/libscheduler/src/scheduler.rs:417-593 | No step of the loop or the watchdog loses or doubles a known pod |
| `GangPlaces.UnassumeAllEffect` | project/libscheduler/src/scheduler.rs:579-589 | Rolling back placed pods frees exactly those and queues each of them |
| `GangSafety.StepKeepsInv` | project/libscheduler/src/scheduler.rs:417-593 | Every step of the loop and the watchdog keeps: each known pod is in exactly one place, waiting pods are unplaced, and whoever holds a pod agrees with the cache on its node |
| `GangSafety.PodExactly` | project/libscheduler/src/scheduler.rs:535-541 | Removing a pod, or taking it off its node, leaves the holders in agreement exactly when nobody holds it |
| `GangSafety.NodeExactly` | project/libscheduler/src/scheduler.rs:683-691 | Removing a node does exactly when no held pod is on it |
| `GangSafety.OutsideExactly` | project/libscheduler/src/scheduler.rs:535-691 | Every call from outside (add or replace, remove, take off, node update, node removal) keeps the invariant exactly when its own condition holds |
| `GangSafety.EveryRunIsSafe` | project/libscheduler/src/scheduler.rs:417-691 | Over every interleaving of the loop, the watchdog and allowed outside calls from the empty start: that invariant, and gangs going out whole |
| `GangSafety.HandedOutPlaced` | project/libscheduler/src/scheduler.rs:516-528 | After every such run a gang handed out has exactly its size, and each member is placed on the node it is handed out with |
| `GangSafety.SentPlaced` | project/libscheduler/src/scheduler.rs:519-526 | And each member still is when its assignment is sent; then it waits nowhere and is held by nobody |
| `GangSafety.SinglePlaced` | project/libscheduler/src/scheduler.rs:507-514 | After every such run a pod without a gang is sent to the node it is placed on and then waits nowhere |
| `GangSafety.SettledStays` | project/libscheduler/src/scheduler.rs:504-593 | A sent pod keeps its node and neither waits, joins nor is rolled back through every further run whose outside calls spare it |
| `GangSafety.WatchTakesIncomplete` | project/libscheduler/src/scheduler.rs:574-578 | The watchdog never takes a full entry |
| `GangSafety.RollBackReturnsMembers` | project/libscheduler/src/scheduler.rs:579-592 | After every such run each member of a timed-out gang is freed and queued again exactly once, and is in no gang, hand or assignment |
| `GangSafety.RemovedMemberGoesOut` | project/libscheduler/src/scheduler.rs:516-528 | Removing a member of a full gang of any size before it is taken: the gang goes out with a pod the cache no longer has |
| `GangSafety.FullGangIsReached` | project/libscheduler/src/scheduler.rs:417-528 | Such a state is reached from the empty start |
| `GangAccounts.StepAccountsExactly` | project/libscheduler/src/scheduler.rs:417-691 | With right counters and the invariant, a step keeps the counters right exactly when the call, if it is one from outside, meets the cache's own condition |
| `GangAccounts.EveryRunAccounts` | project/libscheduler/src/scheduler.rs:417-691 | Over every interleaving of the loop, the watchdog and such calls from the empty start each node's counters are the sums over the pods placed on it |
| `GangLoss.DroppedExactly` | project/libscheduler/src/scheduler.rs:417-640 | A known pod is lost exactly when it is picked with a priority it was not queued with, forgotten by the clean-up, not placed for want of its node, or kept out of the queue by a plugin |
| `GangLoss.PlacingFailsExactly` | project/libscheduler/src/scheduler.rs:500-504 | A picked pod is lost to a failed placement exactly when the node is gone |
| `GangLoss.PickedIsTakenUp` | project/libscheduler/src/scheduler.rs:425-434 | Over every such run in which no waiting pod is given another priority, a picked pod is never lost for its priority, however it came to be queued |
| `GangLoss.NewPriorityDoomsExactly` | project/libscheduler/src/scheduler.rs:615-640 | A new priority for a waiting pod dooms it exactly when it differs from the one it was queued with |
| `GangLoss.DoomedForever` | project/libscheduler/src/scheduler.rs:425-434 | A doomed pod stays unplaced, in no gang and unassigned through every run whose outside calls are not about it |
| `GangLoss.RaisedPriorityIsLost` | project/libscheduler/src/scheduler.rs:425-434 | A pod reached from the empty start whose priority changes while it is queued is never scheduled |
| `PathTrie.Ancestor` | project/libvault/src/router.rs:117-124 | The stored key that is the longest prefix of a path |
| `PathTrie.NewRadixFromPaths` | project/libvault/src/router.rs:263-277 | Stems with their kind; of equal stems the last counts |
| `PathTrie.AcceptsIsSound` | project/libvault/src/router.rs:149-193 | An accepted path is matched by a listed pattern |
| `PathTrie.AcceptsIffNotShadowed` | project/libvault/src/router.rs:149-193 | The index test equals "some pattern matches" exactly on the paths where no exact pattern hides a wildcard |
| `PathTrie.AcceptsIsExact` | project/libvault/src/router.rs:149-193 | So they agree everywhere when no exact pattern starts with a wildcard stem |
| `PathTrie.ShadowedExample` | project/libvault/src/router.rs:149-193 | Without that condition they differ |
| `Router.RouterTable.MountBackend` | project/libvault/src/router.rs:42-71 | Mounting, refused below an existing mount |
| `Router.RouterTable.Unmount` | project/libvault/src/router.rs:73-78 | Removing a mount |
| `Router.RouterTable.Move` | project/libvault/src/router.rs:80-89 | Moving a mount to another key |
| `Router.RouterTable.Taint` | project/libvault/src/router.rs:97-115 | Marking a mount by its exact key |
| `Router.RouterTable.HandleRequest` | project/libvault/src/router.rs:199-240 | A request reaches the longest mount over its path with the rest of the path, unless that mount is tainted |
| `Router.RouterTable.IsUnauthPath` | project/libvault/src/router.rs:149-170 | The pattern test of the longest mount on the rest of the path |
| `Router.RouterTable.IsRootPath` | project/libvault/src/router.rs:172-193 | The same for root paths |
| `Router.MountCore.MountEntry` | project/libvault/src/mount.rs:520-567 | Mounting through the core, with its checks |
| `Router.MountCore.UnmountEntry` | project/libvault/src/mount.rs:569-599 | Unmounting through the core |
| `Router.MountCore.RemountEntry` | project/libvault/src/mount.rs:601-658 | Remounting through the core, with its checks and failures |
| `Router.MountRoutes` | project/libvault/src/router.rs:42-71 | A mount succeeds exactly when no mount is a prefix of it; then routed paths keep their mount and only unrouted paths under it change |
| `Router.RemountRoutes` | project/libvault/src/router.rs:80-89 | What a move to an unrouted place does to every path |
| `Router.CoreRemountRoutes` | project/libvault/src/mount.rs:601-658 | A remount succeeds exactly under its checks, then changes only paths of the source and unrouted paths under the destination; a failed one changes no route |
| `Router.RemountRefusedExactly` | project/libvault/src/mount.rs:601-658 | Each refusal of a remount exactly under its condition |
| `Router.CoreMountExactly` | project/libvault/src/mount.rs:520-567 | A mount succeeds exactly for an unprotected path with no mount on the way to it, a backend and a saved table; what it leaves, also when only the saving fails; the routes afterwards |
| `Router.CoreUnmountExactly` | project/libvault/src/mount.rs:569-599 | An unmount succeeds exactly for an unprotected mount that can be marked and cleared; the mount is gone, also when only the clearing fails, and every path goes to the longest mount left; any other answer changes nothing |
| `Router.UnmountUndoesMount` | project/libvault/src/mount.rs:520-599 | Mounting and unmounting again restores the router |
| `Router.RunKeepsReserved` | project/libvault/src/mount.rs:520-658 | No run changes anything mounted at sys/, auth/ or audit/ |
| `Router.FailedRemountStops` | project/libvault/src/mount.rs:617-652 | A failed remount changes nothing, except that a failed save leaves the source tainted, and then exactly its paths are no longer served |
| `Router.StepKeepsProper` | project/libvault/src/mount.rs:520-567 | The core never mounts at the empty path and never meets a router conflict |
| `Router.RunKeepsRoute` | project/libvault/src/mount.rs:520-658 | Through every run that neither removes nor moves its mount a path keeps its mount and backend |
| `Subnets.NetworkConfig.ValidateIpv4` | project/libnetwork/src/config.rs:84-140 | The IPv4 settings completed and checked |
| `Subnets.NetworkConfig.ValidateIpv6` | project/libnetwork/src/config.rs:142-200 | The IPv6 settings completed and checked |
| `Subnets.NetworkConfig.ValidateNetworkConfig` | project/libnetwork/src/config.rs:83-200 | IPv6 settings are looked at only when the IPv4 ones are fine |
| `SubnetWalk.NetworkBoundaries` | project/libnetwork/src/config.rs:106-140 | A network starts and ends on subnet boundaries inside the address space |
| `SubnetWalk.AcceptedExactly` | project/libnetwork/src/config.rs:83-200 | Which settings are accepted, with either end of the range given or left out, and the exact range: a given length is kept, else it is the default or two bits more than the network's |
| `SubnetWalk.RefusedExactly` | project/libnetwork/src/config.rs:83-200 | Which complaint is made, each exactly under its condition, in order |
| `SubnetWalk.RefusedKeeps` | project/libnetwork/src/config.rs:83-200 | What a refusal leaves in the settings |
| `SubnetWalk.ContainsExactly` | project/libnetwork/src/config.rs:99-140 | An address is in a network exactly when its prefix bits are the network's |
| `SubnetWalk.GivenEndsInNetwork` | project/libnetwork/src/config.rs:99-140 | Ends that were given and accepted have the network's prefix bits |
| `SubnetWalk.GivenLengthIsKept` | project/libnetwork/src/config.rs:92-98 | 10.0.0.0/16 with subnets of 24 bits: from 10.0.1.0 to 10.0.255.0 |
| `SubnetWalk.DefaultRange` | project/libnetwork/src/config.rs:106-140 | A range nobody gave lies in the network exactly when two subnets fit after the network address |
| `SubnetWalk.RangeOutsideNetwork` | project/libnetwork/src/config.rs:106-140 | 10.0.3.0/22 is accepted with its lowest subnet outside the network and above the highest |
| `SubnetWalk.AcceptedIsWalked` | project/libnetwork/src/ip.rs:46-61 | Every accepted range with its ends in order is walked in (max - min) / size steps and is at max exactly then |
| `SubnetWalk.SubnetsAreWalked` | project/libnetwork/src/ip.rs:46-61 | For a network given by its base address these are all its subnets but the first, 2^(len - prefix) - 2 steps, all inside the network |
| `SubnetWalk.WalkedAreDisjoint` | project/libnetwork/src/ip.rs:46-61 | Any two subnets on such a walk are disjoint |
| `SubnetWalk.FamiliesAreWalked` | project/libnetwork/src/config.rs:83-200 | The same for IPv4 and IPv6 with their own limits and defaults and no settings at all |
| `ServiceIps.FirstClaimIsFirst` | project/rks/src/main.rs:276-326 | The wanted owner of an address is the first listed service that claims it in range |
| `ServiceIps.DesiredByIp` | project/rks/src/main.rs:276-326 | The loop maps exactly the claimed addresses to their first claimants |
| `ServiceIps.Registry.ReleaseIp` | project/rks/src/network/service_ip.rs:181-192 | Deletes a record unless the store fails |
| `ServiceIps.Registry.AllocateIp` | project/rks/src/network/service_ip.rs:143-179 | Creates a record only for a free address |
| `ServiceIps.ReleaseStale` | project/rks/src/main.rs:328-341 | Every listed address nobody wants is released, in any order |
| `ServiceIps.FixWanted` | project/rks/src/main.rs:343-377 | Every wanted address gets its owner unless a call fails, in any order |
| `ServiceIps.Rebuild` | project/rks/src/main.rs:256-384 | When records and services can be listed: the exact record of every address afterwards, whichever calls fail, and no call about an address that is already right; otherwise nothing is touched |
| `ServiceIps.EndsRightExactly` | project/rks/src/main.rs:308-384 | An address ends with the record its first claim asks for exactly when it had it, or was free and could be allocated, or had another readable record that could be replaced; else it keeps its record or has lost it |
| `ServiceIps.RebuildTwice` | project/rks/src/main.rs:256-384 | With working calls and readable records the registry ends as the first claims exactly, and a second rebuild makes no calls |

## Left out

- JSON and serde shapes of the nftables commands, and the raw verdict-map set-up: commands are values, and expression
  identity is equality. A protocol string other than `tcp` and `udp` matches no TCP or UDP packet.
- Ciphers, key derivation, storage formats and module set-up behind the barrier: the barrier accepts exactly the key it
  was initialised with, and every call may fail. The hash under which used shares are stored is taken as injective.
- Root token and handler chain of `init`, and everything in the vault core after routing.
- Lowercasing outside ASCII in protocols and addresses, and 32-bit limits on the number of backends.
- The branch of `generate_service_update_with_old_endpoint` that deletes old per-endpoint chains by index.
- NftMeaning.MeaningExactly: asks for TCP or UDP ports; what the rules do with any protocol is `NftTheorem.CompilerExact`.
- NftMeaning.MeaningForAnyEndpoints: asks for TCP or UDP ports, as above.
- NftInStep.FullSyncWorks: asks that no two service ports share a chain name, as do the events after it; what the rules of
  a full sync do when they share one is `NftTheorem.CompilerExact`.
- NftInStep.SeenWorks: asks for distinct chain names, as above.
- NftInStep.EndpointsWork: without per-endpoint chains; with them the branch above would be needed. Distinct chain names.
- NftGone.GoneExactly: asks for distinct chain names, as above.
- NftHistory.HistoryEqualsFullSync: asks for distinct chain names, as above.
- The order inside the scheduling queues and the plugins' bodies.
- SchedulerCache.PodCache.AssumePod: GPU counters are not modelled.
- SchedulerCache.PodCache.UnassumePod: GPU counters are not modelled.
- SchedulerCache.PodCache.RemovePodInfo: GPU counters are not modelled.
- SchedulerCache.PodCache.UpdateNodeInfo: GPU counters are not modelled.
- `set_nodes`, which bypasses the accounting.
- Router.RouterTable.HandleRequest: the connection and the token a request carries are not modelled.
- Router.MountCore.MountEntry: the mount table's own entry is not modelled, only the router.
- Router.MountCore.UnmountEntry: the mount table's own entry is not modelled, only the router.
- Router.MountCore.RemountEntry: the mount table's own entry and its keys are not modelled, only the router.
- Overflow of IPv4 address arithmetic is an error of its own here; a build without overflow checks wraps instead.
- Validation of the service CIDR.
- The inside of the radix trie: it is a map with a longest-prefix lookup.
- Parsing of addresses in `rebuild_service_ip_registry_from_services`: a service claims a number or nothing.
- CLI, transport, container runtime, FUSE, CNI and netlink code.
