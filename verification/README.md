# Verification of the LoRaWAN roaming system

This project models the parts of the roaming system whose correctness spans several
calls, several parties or whole inputs, and proves what they guarantee.

* **SLA contracts.** Every provider deploys the same contract. The forwarder's copy
  negotiates with the home provider's copy, counts accepted packets and, at the agreed
  threshold, asks for the payment, after which it resets its counter or bans. The home
  copy keeps a counter of its own and pays only above a tolerance. `SlaContract` has each
  call as a function from one state of the chain to the next, where a failed call changes
  nothing; `SlaLaws` says from outside when each call commits and what it then changes;
  `SlaChain` has the same calls as methods that overwrite global values, boxes and
  balances; `SlaHistory` adds what an observer sees (accepts, resets, payments,
  packets) and the invariant of every run; `SlaGuarantees` and `SlaRuns` state what follows
  for every run; `SlaUnenforcedPrice` shows the deployed prices failing a guarantee.
  `Catalogue` is the registry that the contracts check their callers against.
* **Radio placement.** `Sx1301v1` places two radios over the channels of a concentrator;
  `Piercing` is the same algorithm on intervals of whole numbers; `RouterConfig` fills the
  slots of Basic Station concentrators from it; `PfConfig` is the packet forwarder's own
  allocator.
* **Downlink retries.** `Downlink` tries the items of a downlink one after the other,
  driven by TX_ACKs (PULL_RESP and TX_ACK, sections 5.4 and 5.5 of the Semtech
  packet-forwarder protocol); `Registry` and `Stats` keep one collector per gateway.
* **Subscriptions.** `Reconciler` moves the recorded MQTT subscriptions towards the wanted
  ones.
* **Catalogue lookup.** `CatalogLookup` is a cache over an index over a direct search.
* **Parsers.** `CommandLine` splits commands into arguments, `Eui64` reads ID6 identifiers.

State that the source changes in place is a class here, loops are loops, and each such
method is proved against a function on values. The theorems are about those functions.

## Assumptions

* The catalogue does not change while SLAs run, and no two registered accounts share a NetID
  or a contract (the catalogue does not enforce this: see `Catalogue.EntryKeepsCatalogueOkIff`).
  Accounts that have opted in and not registered may be in it.
* Callers of `sla_check` take the home provider's NetID and contract from one registered row
  and pass their own account as provider, as smart_contracts/deploy_SC_forwarder.py:497-505
  does. Creators of contracts are user accounts. Users may call `handshake` and `pay`
  themselves, but not for an account that has opted in without registering: its row lists
  the contract 0, which is also what a call by a user shows as its caller.
* Transactions are atomic; so are the handlers of one TX_ACK and one subscription pass.
  Lookups, rebuilds and invalidations follow one another; each may take up to a given time.
* Theorems on radio placement that say "ordinary" are about channels between 1 MHz and
  4290 MHz that are at most 1000 kHz wide and no wider than what their radio serves. The
  lemmas `GreedyFailsIff`, `VerdictIsRightIff` and `WideChannelIsNotNoticed` say what happens
  without the last condition.
* Every command topic belongs to one gateway, and the event functions are set.

## Where the code and its documentation differ

The model follows the code.

* README.md:38 says that an SLA whose payment fails becomes Banned. If the home contract owes
  a payment that it cannot fund, the whole check aborts and nothing changes
  (`SlaGuarantees.UnfundedHomeBlocksTheCheck`).
* smart_contracts/README.md:242 shows the first check answering Accept; it answers
  "Active SLA". smart_contracts/README.md:306 says that receiving the last packet triggers the
  payment; only a check by the forwarder does.
* The defaults of Tolerance and Payment_Tolerance (smart_contracts/_SC.py:42-51) never apply:
  `create` initialises nothing, and `init` sets both.
* At the price 1 and the payment tolerance 95 of config_deploy.yaml the minimum payment
  rounds down to 0, so that unpaid packets are accepted for ever
  (`SlaRuns.WaivedForever`, `SlaUnenforcedPrice.NeverPaidNeverBanned`).
* A subscription pass can leave a wanted gateway unsubscribed for good
  (`Reconciler.WantedAgainIsNeverSubscribed`), and a lookup after a failed rebuild can return
  entries of any age (`CatalogLookup.FailedRebuildsHaveNoBound`).
* The command-line parser starts as after a backslash: a command name of one letter is glued
  to its first argument, and a quoted one is lost (`CommandLine.RoundTripIff`). Any bare argument
  of escaped bytes only is glued to the next one as well.

## Model

| member | source | states |
|---|---|---|
| `SlaContract.BoxNamesAreInjective` | smart_contracts/_SC.py:209 | Box names of different NetIDs differ, and a forward box is never a home box. |
| `SlaChain.Chain.Init` | smart_contracts/_SC.py:94-130 | Only the creator, with nonzero price and threshold and percentages up to 100, replaces all settings; otherwise nothing changes. Repeatable. |
| `SlaChain.Chain.SlaCheck` | smart_contracts/_SC.py:193-331 | The whole new state and answer of every branch, and that an abort after inner calls leaves no trace of them. |
| `SlaChain.Chain.Handshake` | smart_contracts/_SC.py:333-415 | The home side's verification of the caller, the negotiated entry with the forwarder's offer, and no change when a box exists already. |
| `SlaChain.Chain.Pay` | smart_contracts/_SC.py:470-548 | Pays the contracted price and resets the counter exactly when the box is active and has counted enough; aborts when unfunded. |
| `SlaChain.Chain.ReceivePacket` | smart_contracts/_SC.py:421-468 | Adds one to the counter of an active home box and touches nothing else. |
| `SlaChain.Chain.BanHome` | smart_contracts/_SC.py:558-604 | Only an active home box becomes Banned; its counter and terms stay. |
| `SlaChain.Chain.DeleteSla` | smart_contracts/_SC.py:166-187 | Removes exactly the named box, and only one of the two kinds. |
| `SlaLaws.SettingsAreTheLastGiven` | smart_contracts/_SC.py:94-130 | In every run the settings are those of the last `init` by the creator with nonzero values and percentages up to 100, in full. |
| `SlaLaws.HandshakeOpensABox` | smart_contracts/_SC.py:343-413 | When a handshake commits; it then opens one box with the offer, Active if and only if price and threshold suit, and answers its state with token and gateway, "None" and "None" if rejected. |
| `SlaLaws.PayNeedsItsCaller` | smart_contracts/_SC.py:472-502 | A payment commits only for the contract that the catalogue lists for the receiver, with the catalogue both sides know and a home box. |
| `SlaLaws.PaysIffCountedEnough` | smart_contracts/_SC.py:513-547 | Exactly the price moves and the counter becomes 0 if and only if the box is active and 100 * (counter + 1) > threshold * tolerance; it aborts if the price cannot be paid, and otherwise changes nothing. |
| `SlaLaws.CreatorCallsCommitIff` | smart_contracts/_SC.py:166-187 | When `deleteSLA`, `receive_packet_from_forwarder` (:421-442) and `ban_home_function` (:558-578) commit. |
| `SlaLaws.CheckNeedsItsCreator` | smart_contracts/_SC.py:193 | Only the creator of a contract can check. |
| `SlaLaws.NoSlaWithItself` | smart_contracts/_SC.py:234-238 | A contract that is its own home contract neither negotiates nor settles. |
| `SlaLaws.CheckBelowTheThreshold` | smart_contracts/_SC.py:272-297 | Below the threshold an active box counts one packet and accepts it; an inactive one rejects and keeps everything. |
| `SlaLaws.CheckAtTheThreshold` | smart_contracts/_SC.py:240-288 | With x arrived, the check accepts and starts anew if and only if 100 * (x + 1) > price * payment tolerance, and bans otherwise. |
| `SlaHistory.PeerIsUnique` | smart_contracts/_SC.py:209-372 | Each forward box has one home box as its peer and vice versa, and the two never coincide. |
| `SlaHistory.InvStep` | smart_contracts/_SC.py:94-604 | Every call, committed or aborted, keeps the accounting of both boxes and the agreement between them. |
| `SlaHistory.InvRun` | smart_contracts/_SC.py:94-604 | So does every run of calls in any order, with accounts in the catalogue that have only opted in. |
| `SlaHistory.PaidRecord` | smart_contracts/_SC.py:228-293 | A paid settlement resets both counters, moves the price once and is recorded as one payment on either side. |
| `SlaGuarantees.ReachableInv` | smart_contracts/_SC.py:94-604 | Every state reached from a fresh deployment satisfies the invariant that the lemmas on single calls assume. |
| `SlaGuarantees.LedgersAgree` | smart_contracts/_SC.py:299-415 | In every reachable state two existing boxes of an SLA stem from the same handshake and agree on price, threshold, token, gateway and rejection, one-sided deletions and new settings included. |
| `SlaGuarantees.FirstCheckNegotiates` | smart_contracts/_SC.py:299-415 | A first check opens both boxes with the forwarder's terms, active if and only if these suit the home provider, and answers the state, token and gateway it has written, the home provider's or "None"; while a home box from before remains, it aborts. |
| `SlaGuarantees.AcceptsAreAccountedFor` | smart_contracts/_SC.py:223-293 | In every reachable state, a ban included: accepts = (threshold + 1) * resets + counter, counter <= threshold, resets = payments + waived resets, income = price * payments. |
| `SlaGuarantees.BannedIffHomeDeclinesToPay` | smart_contracts/_SC.py:228-271 | A check bans if and only if the counter is at the threshold, the home box is not active or 100 * (counter + 1) <= threshold * tolerance there, the arithmetic fits uint64 and price * payment tolerance >= 100. |
| `SlaGuarantees.PayingIsNoBan` | smart_contracts/_SC.py:228-271 | An active home box that counted enough packets is never banned by a settlement. |
| `SlaGuarantees.EarnedPaymentIsMade` | smart_contracts/_SC.py:228-288 | A home provider that has counted enough and can pay does: the check commits and accepts, the price moves once, and both counters become 0. |
| `SlaGuarantees.UnfundedHomeBlocksTheCheck` | smart_contracts/_SC.py:525-531 | A home contract that owes a payment it cannot fund makes the check abort instead. |
| `SlaGuarantees.UnpaidResetIffMinimumRoundsToZero` | smart_contracts/_SC.py:243-253 | Without a payment the settlement still accepts and resets if and only if price * payment tolerance < 100. |
| `SlaGuarantees.CheckLeavesOthers` | smart_contracts/_SC.py:209-331 | A check touches no box but its own and its peer. |
| `SlaRuns.OwnCheckWhenStalled` | smart_contracts/_SC.py:223-288 | Once the home box is gone or inactive, a check uses up room or, at the threshold, ends in Banned. |
| `SlaRuns.StalledRun` | smart_contracts/_SC.py:193-604 | From then on, over every run: accepts plus remaining room are constant, nothing more is paid, terms stay. |
| `SlaRuns.NoRoomEndsInBan` | smart_contracts/_SC.py:223-288 | At the threshold such a check commits, answers Reject and bans, if only the home contract gets to decide and the arithmetic fits uint64. |
| `SlaRuns.AfterHomeBan` | smart_contracts/_SC.py:513-604 | After a ban by the home side the forwarder accepts exactly the room it uses up, at most threshold - counter more packets, receives nothing, and every check at the threshold that the home contract answers bans. |
| `SlaRuns.FrozenUntilDeleted` | smart_contracts/_SC.py:221-298 | Banned and rejected boxes of either side keep contents and history until deleted. |
| `SlaRuns.UnpaidAcceptsAreBounded` | smart_contracts/_SC.py:223-293 | While every price ever given to `init` times every payment tolerance ever given is at least 100: resets = payments, each of exactly the price, and accepted packets not paid for never exceed the threshold. |
| `SlaRuns.NothingWaivedRun` | smart_contracts/_SC.py:248-260 | No reset without a payment occurs while prices and payment tolerances stay above bounds that multiply to 100. |
| `SlaRuns.WaivedForever` | smart_contracts/_SC.py:223-288 | With a minimum payment of 0 and a home side that does not pay, n checks are n accepts without any payment, for every n. |
| `SlaRuns.HomeLedgerIsConserved` | smart_contracts/_SC.py:421-548 | Received = consumed by payments + counter; for every share with 100 * share <= threshold * tolerance, payments * share + counter <= received; money out = price * payments. |
| `SlaRuns.EarnedRun` | smart_contracts/_SC.py:513-547 | In every run each payment used up at least the tolerated share of the threshold. |
| `SlaRuns.MoneyIsConserved` | smart_contracts/_SC.py:525-531 | The total of all balances never changes, in any run, of any callers. |
| `SlaUnenforcedPrice.Handshaken` | config_deploy.yaml:15-26 | The deployed settings lead to an active SLA at price 1. |
| `SlaUnenforcedPrice.OpenedIsWaiving` | config_deploy.yaml:15-19 | The deployed prices and tolerances lead to exactly that situation. |
| `SlaUnenforcedPrice.NeverPaidNeverBanned` | config_deploy.yaml:16-19 | For every n, n checks after the handshake are all accepted, with no payment and no ban. |
| `Catalogue.Endpoints.OptIn` | smart_contracts/_catalogo.py:69-81 | Opts in exactly for a sufficient payment to the creator, with an empty entry. |
| `Catalogue.Endpoints.SetEntryProvider` | smart_contracts/_catalogo.py:90-127 | Sets the sender's own entry, exactly when opted in and with nonempty fields, and no other. |
| `Catalogue.Endpoints.GetEntryProvider` | smart_contracts/_catalogo.py:129-140 | Returns what the account set last, or nothing. |
| `Catalogue.Endpoints.DeleteEndpoint` | smart_contracts/_catalogo.py:142-163 | Removes the sender's entry, exactly when there is one. |
| `Catalogue.EntryKeepsCatalogueOkIff` | smart_contracts/_catalogo.py:99-117 | An accepted entry keeps NetIDs and contracts distinct if and only if no other registered account uses them. |
| `Catalogue.OptInKeepsCatalogueOk` | smart_contracts/_catalogo.py:80 | An account that only opted in is not registered and disturbs no one's entry. |
| `Catalogue.DeletionKeepsCatalogueOk` | smart_contracts/_catalogo.py:142-160 | Deleting an entry or leaving keeps NetIDs and contracts distinct. |
| `Channels.CoversIsAnInterval` | chirpstack-gateway-bridge/internal/config/sx1301v1/sx1301v1.go:133-136 | The centres that serve a channel form an interval. |
| `Channels.NarrowIffCoverable` | chirpstack-gateway-bridge/internal/config/sx1301v1/sx1301v1.go:45-53 | A channel has such a centre if and only if it is no wider than its radio. |
| `Channels.ServedIff` | chirpstack-gateway-bridge/internal/config/sx1301v1/sx1301v1.go:14-23 | A centre serves a channel if and only if it is at most 400 kHz away at 125 kHz, 375 kHz at 250 kHz, 300 kHz at 500 kHz, and 462.5 kHz less half the bandwidth otherwise. |
| `Channels.MultiSFMembers` | chirpstack-gateway-bridge/internal/backend/semtechudp/pf_config.go:231-247 | The multi-SF channels are the LoRa channels for none or several spreading factors. |
| `ChannelSort.Sort` | chirpstack-gateway-bridge/internal/config/sx1301v1/sx1301v1.go:62 | The slice becomes a sorted permutation of itself. |
| `Sx1301v1.GetRadioFrequencies` | chirpstack-gateway-bridge/internal/config/sx1301v1/sx1301v1.go:58-107 | For ordinary channels in any order: no error if and only if some two centres serve all of them, and the radios are the least right ends; the slice is sorted in place. |
| `Sx1301v1.Serve` | chirpstack-gateway-bridge/internal/config/sx1301v1/sx1301v1.go:87-104 | One channel takes the first radio that is unset or reaches it, and fails after the second. |
| `Sx1301v1.GetRadioForChannel` | chirpstack-gateway-bridge/internal/config/sx1301v1/sx1301v1.go:110-139 | The first radio whose band holds the channel, or an error if there is none. |
| `Sx1301v1.NoWrapAround` | chirpstack-gateway-bridge/internal/config/sx1301v1/sx1301v1.go:36-54 | In band, no uint32 computation wraps. |
| `Sx1301v1.GreedyPlaces` | chirpstack-gateway-bridge/internal/config/sx1301v1/sx1301v1.go:58-107 | Where the radios stand after any sorted prefix, and which channels justify them. |
| `Sx1301v1.PlacementCovers` | chirpstack-gateway-bridge/internal/config/sx1301v1/sx1301v1.go:58-107 | After success every channel lies within one of the two radios, mixed bandwidths included. |
| `Sx1301v1.FailureIsJustified` | chirpstack-gateway-bridge/internal/config/sx1301v1/sx1301v1.go:98-102 | After an error no two centres whatever serve all channels. |
| `Sx1301v1.GreedyIsOptimal` | chirpstack-gateway-bridge/internal/config/sx1301v1/sx1301v1.go:58-107 | Both directions together. |
| `Sx1301v1.ErrorNamesTheFirst` | chirpstack-gateway-bridge/internal/config/sx1301v1/sx1301v1.go:98-102 | The error names a channel such that two centres suffice for those sorted before it and do not with it. |
| `Sx1301v1.RadiosAreLeastRights` | chirpstack-gateway-bridge/internal/config/sx1301v1/sx1301v1.go:87-107 | Radio 0 is the least right end; radio 1 is the least right end among intervals beyond radio 0, or 0. |
| `Sx1301v1.OrderDoesNotMatter` | chirpstack-gateway-bridge/internal/config/sx1301v1/sx1301v1.go:62-107 | Radios and verdict are the same for every sorted arrangement of the same channels. |
| `Sx1301v1.OneRadioSuffices` | chirpstack-gateway-bridge/internal/config/sx1301v1/sx1301v1.go:87-104 | The second radio stays unset if and only if one centre serves everything. |
| `Sx1301v1.EveryChannelHasARadio` | chirpstack-gateway-bridge/internal/config/sx1301v1/sx1301v1.go:110-139 | After a successful placement no channel is without a radio. |
| `Piercing.FailsIff` | chirpstack-gateway-bridge/internal/config/sx1301v1/sx1301v1.go:87-104 | On sorted intervals, empty ones included, two greedy points fail if and only if there are three intervals, each starting beyond the end of the one before. |
| `Sx1301v1.GreedyFailsIff` | chirpstack-gateway-bridge/internal/config/sx1301v1/sx1301v1.go:58-107 | For channels of any width in band: an error if and only if there are three such channels. |
| `Sx1301v1.VerdictIsRightIff` | chirpstack-gateway-bridge/internal/config/sx1301v1/sx1301v1.go:58-107 | For channels of any width in band the verdict is right if and only if no channel is wider than its radio or there are three such channels. |
| `Sx1301v1.WideChannelIsNotNoticed` | chirpstack-gateway-bridge/internal/config/sx1301v1/sx1301v1.go:88-94 | A 1000 kHz channel is placed without an error, and no radio serves it. |
| `RouterConfig.CollectChannels` | chirpstack-gateway-bridge/internal/backend/basicstation/structs/router_config.go:135-174 | All multi-SF channels, then FSK and LoRa-STD if configured. |
| `RouterConfig.AssignChannels` | chirpstack-gateway-bridge/internal/backend/basicstation/structs/router_config.go:194-246 | An error if and only if some channel has no radio; otherwise all slots of this concentrator, and no other concentrator changes. |
| `RouterConfig.ConfigureConcentrator` | chirpstack-gateway-bridge/internal/backend/basicstation/structs/router_config.go:134-246 | For ordinary channels it fails exactly when two radios cannot serve them, never in the second step; a channel wider than its radio always fails. |
| `RouterConfig.GetRouterConfig` | chirpstack-gateway-bridge/internal/backend/basicstation/structs/router_config.go:134-250 | All concentrators configured, or the first that two radios cannot serve is the one reported. |
| `RouterConfig.SlotsInOrder` | chirpstack-gateway-bridge/internal/backend/basicstation/structs/router_config.go:219-240 | Slot k < 8 holds the k-th multi-SF channel in sorted order; further channels are dropped, unused slots stay off. |
| `RouterConfig.OneLoraStd` | chirpstack-gateway-bridge/internal/backend/basicstation/structs/router_config.go:209-216 | The LoRa-STD slot holds the LoRa-STD channel, wherever it is sorted. |
| `RouterConfig.SlotIsExact` | chirpstack-gateway-bridge/internal/backend/basicstation/structs/router_config.go:219-223 | Radio frequency plus IF is the channel's frequency, on an enabled radio, within that radio's band. |
| `RouterConfig.ConfiguredSlots` | chirpstack-gateway-bridge/internal/backend/basicstation/structs/router_config.go:176-250 | In a successful configuration every used slot is exact with IF within 400 kHz, and the slots hold, up to the eighth, a sorted arrangement of the multi-SF channels, repeated ones as often as configured. |
| `RouterConfig.MultiSFOfConcentrator` | chirpstack-gateway-bridge/internal/backend/basicstation/structs/router_config.go:137-148 | The multi-SF channels are the configured ones and nothing else. |
| `RouterConfig.ConfiguredStd` | chirpstack-gateway-bridge/internal/backend/basicstation/structs/router_config.go:209-216 | The LoRa-STD slot is exact, with the configured spreading factor and the bandwidth in whole kHz, IF within 400 kHz at 125 kHz, 375 kHz at 250 kHz and 300 kHz at 500 kHz; it is off when none is configured. |
| `RouterConfig.ConfiguredFsk` | chirpstack-gateway-bridge/internal/backend/basicstation/structs/router_config.go:242-245 | The FSK channel is on if and only if one is configured, and then an enabled radio is within 400 kHz of it. |
| `RouterConfig.WideChannelHasNoRadio` | chirpstack-gateway-bridge/internal/backend/basicstation/structs/router_config.go:197-200 | The error of the second step happens for channels wider than their radio, whatever the radio. |
| `PfConfig.GetGatewayConfig` | chirpstack-gateway-bridge/internal/backend/semtechudp/pf_config.go:126-267 | Sorts in place; radios, slots and error are those of the sorted channels, and every slot of a configuration without an error is exact. |
| `PfConfig.PlaceRadio` | chirpstack-gateway-bridge/internal/backend/semtechudp/pf_config.go:157-168 | The first radio that is off is placed, the first that reaches the channel keeps it, and a third need is ignored. |
| `PfConfig.FindRadio` | chirpstack-gateway-bridge/internal/backend/semtechudp/pf_config.go:197-203 | The first radio that serves the channel, and radio 0 when none does. |
| `PfConfig.AssignChannel` | chirpstack-gateway-bridge/internal/backend/semtechudp/pf_config.go:205-263 | Which slot a channel takes and which of the six errors it raises. |
| `PfConfig.SameRadios` | chirpstack-gateway-bridge/internal/backend/semtechudp/pf_config.go:133-169 | Both allocators place the same radios for every sorted list of ordinary channels, errors included. |
| `PfConfig.AllocatorsAgree` | chirpstack-gateway-bridge/internal/backend/semtechudp/pf_config.go:126-203 | When the other allocator succeeds, radios and every channel's radio are the same in both, however each sorted. |
| `PfConfig.AssignmentsAreSoundIff` | chirpstack-gateway-bridge/internal/backend/semtechudp/pf_config.go:197-203 | Every channel lies within its assigned radio if and only if two centres suffice. |
| `PfConfig.SucceedsIff` | chirpstack-gateway-bridge/internal/backend/semtechudp/pf_config.go:205-263 | No error if and only if every channel is complete, with at most 8 multi-SF, one LoRa-STD and one FSK. |
| `PfConfig.SlotsArePacked` | chirpstack-gateway-bridge/internal/backend/semtechudp/pf_config.go:246-259 | Slots are filled in sorted order from 0, the rest stay off. |
| `PfConfig.SlotsAreExact` | chirpstack-gateway-bridge/internal/backend/semtechudp/pf_config.go:213-259 | Without an error, slot k has the frequency of the k-th multi-SF channel, LoRa-STD and FSK those of the only such channel with its bandwidth and rate, and centre + IF is that frequency on a radio that is on; for channels of any width. |
| `PfConfig.SlotsAreWithin` | chirpstack-gateway-bridge/internal/backend/semtechudp/pf_config.go:197-259 | Where two centres serve ordinary channels, every IF keeps its channel within the band of its radio. |
| `PfConfig.ErrorsAreRight` | chirpstack-gateway-bridge/internal/backend/semtechudp/pf_config.go:205-263 | An error is that of the first channel that cannot be added and says what is wrong with it. |
| `Downlink.ShapeIsKeptIff` | chirpstack-gateway-bridge/internal/backend/semtechudp/backend.go:398-450 | Items before the current one are failures and later ones IGNORED, after every TX_ACK if and only if it does not retry on an error named OK or IGNORED. |
| `Downlink.TwoSuccesses` | chirpstack-gateway-bridge/internal/backend/semtechudp/backend.go:404-408 | An error named OK leads to a report with two successes. |
| `Downlink.ReportIsRewrittenIff` | chirpstack-gateway-bridge/internal/backend/semtechudp/backend.go:398-446 | The slice of a report changes later if and only if a further TX_ACK of the token brings another status for the current item. |
| `Downlink.RetriesAreConsecutive` | chirpstack-gateway-bridge/internal/backend/semtechudp/backend.go:354-450 | For any sequence of TX_ACKs, duplicates included, items are sent in order, each once, never more than there are. |
| `Downlink.ReportsAreSound` | chirpstack-gateway-bridge/internal/backend/semtechudp/backend.go:419-446 | In any report, every item before the one sent last has the status named by a TX_ACK that came while it was current, the one sent last OK or the status named now, and all after it IGNORED; at most one is OK if no error is named so. |
| `Downlink.ReportedIff` | chirpstack-gateway-bridge/internal/backend/semtechudp/backend.go:395-450 | A report is made if and only if the TX_ACK has no error or one for the last item; any other named error sends the next item, and an unknown name changes nothing. |
| `Downlink.SuccessIsCounted` | chirpstack-gateway-bridge/internal/backend/semtechudp/backend.go:428-442 | A success counts one transmission, of the item sent last, and the status of each item tried. |
| `Downlink.Backend.SendDownlinkFrame` | chirpstack-gateway-bridge/internal/backend/semtechudp/backend.go:159-178 | A fresh record for the token cut to 16 bits, a random one if it is 0, with all items IGNORED, other tokens untouched, and the first item sent if and only if the gateway is known and encoding succeeds. |
| `Downlink.Backend.Send` | chirpstack-gateway-bridge/internal/backend/semtechudp/backend.go:180-214 | Records the item as the one sent last even when sending then fails. |
| `Downlink.Backend.HandleTxAck` | chirpstack-gateway-bridge/internal/backend/semtechudp/backend.go:354-450 | Only the token's own record advances, and only reports that share its slice change; exactly which packet is sent and what is reported; "out of sync" never happens; a success from a registered gateway adds exactly one transmission and the status of each item tried. |
| `Registry.Gateways.Set` | chirpstack-gateway-bridge/internal/backend/semtechudp/registry.go:56-77 | Re-registration keeps the collector; a new gateway gets one of its own; the subscribe event is emitted. |
| `Registry.Gateways.Cleanup` | chirpstack-gateway-bridge/internal/backend/semtechudp/registry.go:80-99 | Keeps exactly the gateways seen in time, in any order of iteration, and the events tell which remain. |
| `Stats.TallyCounts` | chirpstack-gateway-bridge/internal/backend/stats/stats.go:32-104 | Counting one by one leaves, for each key, how often it occurred. |
| `Stats.TallyAddsUp` | chirpstack-gateway-bridge/internal/backend/stats/stats.go:32-104 | The counts add up to the number of events, up to multiples of 2^32. |
| `Stats.CountedIsModulo` | chirpstack-gateway-bridge/internal/backend/stats/stats.go:36 | A uint32 counter shows the number of events modulo 2^32. |
| `Stats.CountsAddUp` | chirpstack-gateway-bridge/internal/backend/stats/stats.go:106-158 | Below 2^32 events, rx and tx counts equal the sums of their per-frequency and per-modulation counts. |
| `Stats.CountsAddUpModulo` | chirpstack-gateway-bridge/internal/backend/stats/stats.go:106-158 | Beyond that they agree modulo 2^32. |
| `Stats.StatsAreCounts` | chirpstack-gateway-bridge/internal/backend/stats/stats.go:106-158 | Every exported number is the number of logged events of its frequency, modulation or status, modulo 2^32. |
| `Stats.AcknowledgementIsCounted` | chirpstack-gateway-bridge/internal/backend/stats/stats.go:70-103 | An acknowledgement counts each status but IGNORED as often as it occurs, and a transmission for each OK, with frequency and modulation of the item at its place and LR-FHSS left out. |
| `Stats.Collector.CountUplink` | chirpstack-gateway-bridge/internal/backend/stats/stats.go:32-64 | Adds exactly one uplink, with its frequency and modulation, to what is pending. |
| `Stats.Collector.CountDownlink` | chirpstack-gateway-bridge/internal/backend/stats/stats.go:66-104 | Adds the transmissions and statuses of the acknowledgement, skipping IGNORED items and items past the frame's. |
| `Stats.Collector.ExportStats` | chirpstack-gateway-bridge/internal/backend/stats/stats.go:106-158 | Exports the statistics of exactly the pending events; exported plus pending is everything counted. |
| `Stats.Collector.Reset` | chirpstack-gateway-bridge/internal/backend/stats/stats.go:160-169 | Nothing remains pending. |
| `Reconciler.Subscriptions.SetGatewaySubscription` | chirpstack-gateway-bridge/internal/integration/mqtt/backend.go:251-282 | Changes the wish for one gateway, except the authenticated one. |
| `Reconciler.Subscriptions.OnConnected` | chirpstack-gateway-bridge/internal/integration/mqtt/backend.go:439-453 | Forgets the record and nothing else. |
| `Reconciler.Subscriptions.SubscribePass` | chirpstack-gateway-bridge/internal/integration/mqtt/backend.go:465-526 | One pass, for any iteration order and any outcome of every call and publication. |
| `Reconciler.PassShrinksTheDifference` | chirpstack-gateway-bridge/internal/integration/mqtt/backend.go:473-523 | The difference between record and wish shrinks by exactly the gateways that succeeded. |
| `Reconciler.PassCompletesIff` | chirpstack-gateway-bridge/internal/integration/mqtt/backend.go:473-523 | The record equals the wish after a pass if and only if nothing in the pass failed. |
| `Reconciler.CompletePassIsIdle` | chirpstack-gateway-bridge/internal/integration/mqtt/backend.go:473-523 | A pass over a complete record does nothing. |
| `Reconciler.RecordConverges` | chirpstack-gateway-bridge/internal/integration/mqtt/backend.go:455-527 | As many passes with a success as there are differences complete the record. |
| `Reconciler.RecordIsTracked` | chirpstack-gateway-bridge/internal/integration/mqtt/backend.go:439-527 | In every run, while connected, the last attempt for a gateway on this connection that reached the broker decides whether it is subscribed, and whether that attempt was completed decides the record; without one it is not recorded, and subscribed only if the broker had kept it. |
| `Reconciler.BrokerMeetsTheWishIff` | chirpstack-gateway-bridge/internal/integration/mqtt/backend.go:455-527 | After a failure-free pass the broker matches the wish if and only if no wanted gateway was unsubscribed last without completion, and no unwanted one subscribed so or kept from before the connection. |
| `Reconciler.ReconnectingSubscribesAgain` | chirpstack-gateway-bridge/internal/integration/mqtt/backend.go:439-453 | After any run, a lost connection and a new one, the record is empty, and a failure-free pass leaves the broker with the wish and what it had kept: the wish alone for a clean session. |
| `Reconciler.WantedAgainIsNeverSubscribed` | chirpstack-gateway-bridge/internal/integration/mqtt/backend.go:508-522 | A run after which a wanted gateway is recorded, not subscribed, and every pass is idle. |
| `Reconciler.WishFollowsTheRegistry` | chirpstack-gateway-bridge/internal/integration/mqtt/backend.go:251-282 | In every run the wish is the registry's set as told by its events, plus the authenticated gateway. |
| `Reconciler.LastEventDecides` | chirpstack-gateway-bridge/internal/backend/semtechudp/registry.go:68-93 | Whether a gateway is wanted depends on its own last event only. |
| `Reconciler.OvertakingIsHarmlessIff` | chirpstack-gateway-bridge/internal/forwarder/forwarder.go:45-51 | Events delivered in another order give the same wish if and only if every gateway's own events still end alike. |
| `Reconciler.OwnOrderIsHarmless` | chirpstack-gateway-bridge/internal/forwarder/forwarder.go:45-51 | They do whenever each gateway's own events arrive in their order. |
| `Reconciler.ReversedEventsAreHarmful` | chirpstack-gateway-bridge/internal/forwarder/forwarder.go:45-51 | A gateway whose two events overtake each other stays wanted although it has gone. |
| `CatalogLookup.RowReads` | blockchain_service.py:172-185 | NetID, name and endpoint of an entry are each the value of the last key-value of that kind, or absent if there is none; the address is the account's. |
| `CatalogLookup.RowsAreTheStates` | blockchain_service.py:160-185 | There is exactly one row for each state of the catalogue's application, in the order of accounts and states. |
| `CatalogLookup.IndexHoldsTheLast` | blockchain_service.py:154-192 | The index holds the last entry of every nonempty NetID, and no other key. |
| `CatalogLookup.SearchFindsTheFirst` | blockchain_service.py:273-314 | The search finds the first entry with the NetID, if there is any. |
| `CatalogLookup.LookupsAgreeIff` | blockchain_service.py:147-314 | Index and search agree on a NetID if and only if its first and last entry are of the same provider, and on the empty NetID if and only if no entry has it; always with unique nonempty NetIDs. |
| `CatalogLookup.LookupIsLazy` | blockchain_service.py:240-314 | A cached answer counts for less than 300 s and an index for up to 300 s, and then nothing else is asked; found answers are cached; entries of a search are never missed; "not found" and failure are what they say. |
| `CatalogLookup.InvalidatedIsForgotten` | blockchain_service.py:110-117 | One NetID is forgotten and no other, or all of them. |
| `CatalogLookup.AnswersAreEntries` | blockchain_service.py:240-314 | Every answer is from the cache, from the old index, or an entry of what the indexer has answered, in all its fields. |
| `CatalogLookup.OnlyEntryIsFound` | blockchain_service.py:240-314 | A lookup that asks the indexer answers with the only entry for the NetID, in all its fields, or says that there is none. |
| `CatalogLookup.AnswerIsTheEntry` | blockchain_service.py:240-314 | With unique NetIDs, a lookup that asks the indexer answers with the entry or says there is none. |
| `CatalogLookup.AnswersAreRecent` | blockchain_service.py:240-314 | In every run of lookups, rebuilds and invalidations that take up to a duration each, an answer was listed less than the age bound of answering indexes, 300 s and two durations earlier. |
| `CatalogLookup.AnswersWithinTenMinutes` | blockchain_service.py:240-314 | If no rebuild of a lookup fails, less than 600 s and two durations earlier. |
| `CatalogLookup.BoundIsTight` | blockchain_service.py:62-74 | For every bound there are runs of lookups without duration whose cached answers come as close to it as one likes. |
| `CatalogLookup.UncachedIsFreshIff` | blockchain_service.py:248-271 | An uncached answer is sure to have been listed in the 300 s (and the last update's own time) before the check if and only if it does not come from an old index after a failed rebuild. |
| `CatalogLookup.FailedRebuildsHaveNoBound` | blockchain_service.py:257-268 | For every age there is a run that returns and caches an entry of that age, long unlisted. |
| `CatalogLookup.CacheManager.GetCatalog` | blockchain_service.py:62-74 | A cached entry younger than 300 s, or nothing. |
| `CatalogLookup.CacheManager.InvalidateCatalog` | blockchain_service.py:110-117 | Forgets one NetID, or everything for an absent or empty one. |
| `CatalogLookup.CatalogIndex.BuildIndex` | blockchain_service.py:147-200 | The nested loops build the index of all entries; a failure changes nothing. |
| `CatalogLookup.ReadEntry` | blockchain_service.py:172-185 | Of a repeated key the last value counts, for each of the three keys; missing keys stay absent. |
| `CatalogLookup.Directory.FindProvider` | blockchain_service.py:240-271 | Cache, index, rebuild and search in that order, each with its own reading of the clock, with the new state of all three; what is found is cached, indexed or an entry of the answers. |
| `CatalogLookup.Directory.FirstWith` | blockchain_service.py:286-312 | Stopping at the first match finds what a search of all entries finds. |
| `CommandLine.ParseCommandLine` | chirpstack-gateway-bridge/internal/commands/commands.go:164-227 | The loop is the byte-by-byte automaton, for every input. |
| `CommandLine.RoundTripIff` | chirpstack-gateway-bridge/internal/commands/commands.go:164-227 | Arguments of any bytes, bare with backslashes where needed or in a quote they do not contain, with any blanks between them, come back if and only if: the first is bare and begins with a plain byte after any number of backslashes; no bare one but the last lacks plain bytes, where that byte of the first does not count; and all are ASCII. |
| `CommandLine.LineIsRead` | chirpstack-gateway-bridge/internal/commands/commands.go:164-227 | What any such line with such a first argument is parsed to: bytes beyond ASCII as two each, arguments without plain bytes glued to the next. |
| `CommandLine.ShortFirstIsGlued` | chirpstack-gateway-bridge/internal/commands/commands.go:169-186 | A bare first argument of one plain byte becomes the start of the second. |
| `CommandLine.QuotedFirstIsLost` | chirpstack-gateway-bridge/internal/commands/commands.go:169-186 | A quoted first argument never comes back: the first result starts with the quote, or parsing fails. |
| `CommandLine.OpenQuoteFails` | chirpstack-gateway-bridge/internal/commands/commands.go:218-220 | A quote that is not closed is an error. |
| `CommandLine.RuneIsUtf8` | chirpstack-gateway-bridge/internal/commands/commands.go:174-176 | A byte beyond ASCII becomes the two bytes of the UTF-8 encoding of its number. |
| `Eui64.BlockIsNumber` | chirpstack-gateway-bridge/internal/backend/basicstation/structs/eui64.go:43-47 | A block of up to four hexadecimal digits is the two bytes of its number, anything else of that length an error. |
| `Eui64.RemainingBlocks` | chirpstack-gateway-bridge/internal/backend/basicstation/structs/eui64.go:62-70 | The number of nonempty blocks. |
| `Eui64.UnmarshalText` | chirpstack-gateway-bridge/internal/backend/basicstation/structs/eui64.go:25-60 | Terminates on every text, with identifier, error or index panic: dashed texts as the other library decodes them, all others as the block reader says. |
| `Eui64.ReadBlocks` | chirpstack-gateway-bridge/internal/backend/basicstation/structs/eui64.go:34-55 | The loop over the blocks is the block reader, for any blocks. |
| `Eui64.ReadEmpty` | chirpstack-gateway-bridge/internal/backend/basicstation/structs/eui64.go:38-41 | An empty block always moves forward, to the last nonempty blocks' number of places from the end. |
| `Eui64.RoundTrip` | chirpstack-gateway-bridge/internal/backend/basicstation/structs/eui64.go:19-60 | Unmarshalling undoes marshalling for every identifier. |
| `Eui64.MarshalledIsLower` | chirpstack-gateway-bridge/internal/backend/basicstation/structs/eui64.go:20-22 | Identifiers are written in lower case. |
| `Eui64.DashedFormIsRead` | chirpstack-gateway-bridge/internal/backend/basicstation/structs/eui64.go:29-33 | An identifier with dashes is passed on as its sixteen digits and read back if these are decoded. |
| `Eui64.FullFormIsRead` | chirpstack-gateway-bridge/internal/backend/basicstation/structs/eui64.go:34-59 | So it does with any leading zeros left out. |
| `Eui64.ShortFormIsReadIff` | chirpstack-gateway-bridge/internal/backend/basicstation/structs/eui64.go:34-59 | With "::" for a run of blocks, anywhere, if and only if those blocks are zero. |
| `Eui64.ReadAroundGap` | chirpstack-gateway-bridge/internal/backend/basicstation/structs/eui64.go:37-55 | Blocks left of "::" count from the front, blocks right of it to the end, even if they overlap. |
| `Eui64.FewBlocksAreReadIff` | chirpstack-gateway-bridge/internal/backend/basicstation/structs/eui64.go:37-55 | Without "::", a text is read if and only if it has at most four blocks of one to four digits; missing ones are zero. |
| `Eui64.SecondGapHidesABlock` | chirpstack-gateway-bridge/internal/backend/basicstation/structs/eui64.go:38-41 | A second "::" is accepted, and a single block between the two is ignored. |
| `Eui64.GapsAreReadIff` | chirpstack-gateway-bridge/internal/backend/basicstation/structs/eui64.go:34-55 | A text with any number of gaps is read if and only if each block is jumped over or is a word for one of the four places, counted from the front before the first gap and from the end after it; otherwise the first block that is neither decides between a decoding error and a stop. |

## Left out

- SlaChain.Chain.Pay: fees, minimum balances and box storage limits, which can make further calls abort.
- SlaHistory.InvRun: changes of the catalogue while SLAs exist, since the contracts look rows up anew at every call.
- SlaGuarantees.BannedIffHomeDeclinesToPay: is about one check in a state that satisfies the invariant, which `SlaGuarantees.ReachableInv` gives for every reachable state.
- ABI encodings, logs, `delete`, `update`, opt-in, close-out and clear-state of both contracts' applications as far as they are not named above, and their read-only functions.
- Callers that break the assumptions above.
- The SLA answer cache and the counter route of blockchain_service.py: with a cached answer the contract is not called, so that its counters count calls, not packets.
- ChannelSort.Sort: is an insertion sort in place of the library's; users rely on its contract only.
- Sx1301v1.GetRadioFrequencies: error values beyond the frequency of the first channel that does not fit.
- RouterConfig.GetRouterConfig: regions, join EUIs, NetIDs and data rates.
- PfConfig.GetGatewayConfig: merging into the configuration file and restarting the packet forwarder.
- Downlink.Backend.HandleTxAck: two handlers for one token at the same time, and expiry of single cache keys; `Expire` removes a whole record. When the published report reads the shared slice: `Downlink.ReportIsRewrittenIff` says what a TX_ACK before that changes.
- Downlink.Backend.SendDownlinkFrame: the packet's contents, and a failure of the random number generator.
- Registry.Gateways.Cleanup: real time; seconds are integers.
- Stats.Collector.CountUplink: the encoding of a modulation as a map key is taken to be injective.
- Reconciler.Subscriptions.SubscribePass: a connection lost in the middle of a pass counts as lost before or after it.
- CatalogLookup.Directory.FindProvider: lookups in parallel, and entries that cannot be decoded.
- Eui64.UnmarshalText: how dashed texts are decoded; another library does that, and it is a parameter here.
- The HTTP routing of api.go, the websocket and ZeroMQ backends, filters, metadata and the deployment scripts.
