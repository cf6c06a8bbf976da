# TLC bookkeeping of a Fiber payment channel

This project models how a Fiber Network node tracks the TLCs (time-locked
contracts) of one payment channel, as `fiber/src/fiber/channel.rs` does it,
and proves properties of that model in Dafny.

- **Ids and records** (`tlc_types.dfy`, module `TlcTypes`):
  - a `TLCId` is tagged with the side that offered it;
  - `CommitmentNumbers` count the local and the remote commitment transactions;
  - an `AddTlcInfo` carries a TLC's amount, payment hash, expiry and hash algorithm, plus its `removed_at` stamp once removed;
  - the `htlc_type` byte of the commitment witness is computed from an `AddTlcInfo`.
- **Ordered map** (`tlc_map.dfy`, module `TlcMap`): the `BTreeMap<TLCId, _>` the channel collects TLCs into. It is a sequence sorted strictly by the order Rust derives for `TLCId`. `filter_add_tlcs` collects the live additions of a list into it.
- **Pending list** (`pending_tlcs.dfy`, module `Pending`): `PendingTlcs` is one side's list of TLC operations. `committed_index` splits it into a committed prefix and a staging suffix. It supports:
  - `push`, `is_tlc_present` and `commit_tlcs`;
  - `get_mut`;
  - `drop_remove_tlc` and `shrink_removed_tlc`.
- **TLC state** (`tlc_state.dfy`, module `TlcStates`): `TlcState` holds the local and the remote `PendingTlcs`, the queue of removals to retry, and the `waiting_ack` flag. Its operations are:
  - `unify_tlcs`, which builds the TLC set of one commitment transaction, with `get_tlcs_for_local` / `get_tlcs_for_remote`;
  - `commit_local_tlcs` / `commit_remote_tlcs`;
  - `all_tlcs` / `all_commited_tlcs`;
  - `mark_tlc_remove` and `apply_remove_tlc`;
  - the retry queue.
- **Channel checks** (`channel_state.dfy`, module `Channel`): the TLC-related part of `ChannelActorState`. It covers:
  - the admission checks `check_insert_tlc`, `check_tlc_limits`, `check_for_tlc_update` and `check_tlc_expiry`;
  - the balance transfer in `remove_tlc_with_reason`;
  - the two-entry window of `save_remote_nonce`;
  - the `update_our_*` setters of the public channel info;
  - the order rule `should_local_send_tx_signatures_first`;
  - the free function `get_funding_and_reserved_amount`.
- **Helpers** (`seq_util.dfy`, module `SeqUtil`): `Retain` and `Sum` stand in for `Vec::retain` and `Iterator::sum`.

Where the source mutates, the model mutates: `PendingTlcs`, `TlcState` and `ChannelActorState` are classes whose methods modify their fields. The loops of `is_tlc_present`, `commit_tlcs` and `unify_tlcs` are loops with invariants.

Each method is proved against a specification function:
- `AppendAbsent` specifies `commit_tlcs`;
- `Unified` specifies `unify_tlcs`;
- `MarkRemoved` specifies `mark_tlc_remove`;
- `Retain` specifies `drop_remove_tlc` / `shrink_removed_tlc`.

The meaning of each specification function is then proved per TLC id. The key result is that `unify_tlcs` returns, for every id:
- nothing, if a staged removal names it;
- otherwise the last live committed addition of it;
- otherwise its first staged addition.

The results come out in ascending id order.

The lowest bit of the `htlc_type` byte is 0 exactly for an `Offered` id (`fiber/src/fiber/channel.rs:2231-2234`). Its only caller, `get_active_htlcs`, first puts the ids into the frame of whoever holds the commitment, flipping them for our own commitment (`fiber/src/fiber/channel.rs:4608-4611`). So the bit is relative to the commitment holder, as the doc comment at 2226-2230 describes; `get_active_htlcs` itself is not part of this model.

## Model

| member | source | states |
|---|---|---|
| TlcTypes.TLCId.Flip | fiber/src/fiber/channel.rs:2150-2155 | flipping keeps the number and swaps offered and received |
| TlcTypes.FlipInvolutive | fiber/src/fiber/channel.rs:2150-2155 | flipping twice gives back the id; flipping never yields the same id |
| TlcTypes.IdLessStrictTotal | fiber/src/fiber/channel.rs:2126-2130 | the derived order on `TLCId` (every `Offered` before every `Received`, then by number) is a strict total order, so the maps keyed by it have one iteration order |
| TlcTypes.CommitmentNumbers.Flip | fiber/src/fiber/channel.rs:2118-2123 | the local and the remote numbers swap |
| TlcTypes.CommitmentFlipInvolutive | fiber/src/fiber/channel.rs:2118-2123 | flipping commitment numbers twice is the identity |
| TlcTypes.CommitmentNumbers.IncrementLocal | fiber/src/fiber/channel.rs:2110-2112 | the local number grows by one; the remote one is unchanged |
| TlcTypes.CommitmentNumbers.IncrementRemote | fiber/src/fiber/channel.rs:2114-2116 | the remote number grows by one; the local one is unchanged |
| TlcTypes.InitialCommitmentNumbers | fiber/src/fiber/channel.rs:2095-2100 | both numbers start at `INITIAL_COMMITMENT_NUMBER` (0) |
| TlcTypes.HtlcType | fiber/src/fiber/channel.rs:2231-2234 | the byte is below 4; its low bit is 0 exactly for an offered TLC; the bits above hold the hash algorithm |
| TlcTypes.HtlcTypeRoundTrip | fiber/src/fiber/channel.rs:2226-2234 | decoding the `htlc_type` byte gives back the hash algorithm and the direction |
| TlcMap.Lookup | fiber/src/fiber/channel.rs:2536 | a found entry is in the map under that key; a missing key has no entry |
| TlcMap.Insert | fiber/src/fiber/channel.rs:2523 | `BTreeMap::insert` keeps the map sorted; afterwards the key maps to the new value and every other key keeps its value |
| TlcMap.RemoveKey | fiber/src/fiber/channel.rs:2546 | `BTreeMap::remove` keeps the map sorted; afterwards the key is absent and every other key keeps its value |
| TlcMap.FilterAddTlcs | fiber/src/fiber/channel.rs:2589-2606 | the collected map is sorted by id |
| TlcMap.FilterAddTlcsLookup | fiber/src/fiber/channel.rs:2589-2606 | an id is in the result iff the list has a live addition of it, and then it maps to the last such addition |
| TlcMap.FilterAddTlcsFrom | fiber/src/fiber/channel.rs:2592-2601 | every collected entry is an addition of the input with `removed_at` unset |
| Pending.FirstAddIndex | fiber/src/fiber/channel.rs:2346-2351 | `get_mut` finds the first addition with the id, or reports that none has it |
| Pending.AppendAbsent | fiber/src/fiber/channel.rs:2337-2342 | the list keeps its prefix; each counterparty entry ends up present; only counterparty entries are appended; the list stays free of duplicates |
| Pending.AppendAbsentFresh | fiber/src/fiber/channel.rs:2337-2342 | when no counterparty entry is already present and they hold no duplicates, all of them are appended, in the counterparty's order |
| Pending.RetainUnique | fiber/src/fiber/channel.rs:2353-2376 | deleting entries never introduces a duplicate |
| Pending.StampRemoved | fiber/src/fiber/channel.rs:2634-2640 | stamping `removed_at` through `get_mut` sets the stamp on that one addition and keeps its amount, hash and expiry, leaves every other entry as it was, keeps every entry's kind and id, and so keeps the list duplicate-free |
| Pending.PendingTlcs.constructor | fiber/src/fiber/channel.rs:2282-2288 | an empty list, nothing committed, next id 0 |
| Pending.PendingTlcs.IncrementNextTlcId | fiber/src/fiber/channel.rs:2294-2296 | the next TLC id grows by one |
| Pending.PendingTlcs.CommittedTlcs | fiber/src/fiber/channel.rs:2306-2308 | the committed part is the prefix of length `committed_index` |
| Pending.PendingTlcs.StagingTlcs | fiber/src/fiber/channel.rs:2302-2304 | committed part followed by staging part is the whole list |
| Pending.PendingTlcs.IsTlcPresent | fiber/src/fiber/channel.rs:2327-2333 | true iff an entry of the same kind (addition or removal) and the same id is in the list |
| Pending.PendingTlcs.Push | fiber/src/fiber/channel.rs:2322-2325 | with the asserted absence, the entry is appended and the list stays duplicate-free |
| Pending.PendingTlcs.CommitTlcs | fiber/src/fiber/channel.rs:2335-2344 | returns the old staging part; the list becomes `AppendAbsent` of the counterparty's committed entries; everything is committed |
| Pending.PendingTlcs.DropRemoveTlc | fiber/src/fiber/channel.rs:2353-2359 | exactly the removals of the id are deleted, in order; everything is committed |
| Pending.PendingTlcs.ShrinkRemovedTlc | fiber/src/fiber/channel.rs:2361-2376 | with everything committed, exactly the additions marked removed are deleted and the committed index counts the survivors |
| Pending.DropRemoveTlcExact | fiber/src/fiber/channel.rs:2353-2359 | an entry survives `drop_remove_tlc` iff it is not a removal of the id, and the deletion distributes over committed and staging parts |
| Pending.ShrinkRemovedTlcExact | fiber/src/fiber/channel.rs:2361-2376 | an entry survives `shrink_removed_tlc` iff it is not an addition marked removed, and the deletion distributes over any split of the list |
| TlcStates.StageAdds | fiber/src/fiber/channel.rs:2532-2542 | the staging loop keeps the map sorted |
| TlcStates.RemoveAll | fiber/src/fiber/channel.rs:2544-2547 | the removal loop keeps the map sorted |
| TlcStates.Unified | fiber/src/fiber/channel.rs:2512-2549 | the TLC set of a commitment transaction is sorted by id |
| TlcStates.StageAddsLookup | fiber/src/fiber/channel.rs:2532-2542 | after the staging loop, an id already in the map keeps its entry, and any other id maps to its first staged addition |
| TlcStates.RemoveAllLookup | fiber/src/fiber/channel.rs:2544-2547 | after the removal loop, an id named by a removal (`NamesId`) is absent; every other id keeps its entry |
| TlcStates.UnifiedLookup | fiber/src/fiber/channel.rs:2512-2549 | for every id, `unify_tlcs` yields `Expected`: nothing if a staged removal names it, else the last live committed addition, else the first staged addition |
| TlcStates.UnifiedMatchesExpected | fiber/src/fiber/channel.rs:2512-2549 | the same for all ids at once |
| TlcStates.UnifiedProperties | fiber/src/fiber/channel.rs:2512-2549 | a staged removal hides its TLC; a committed addition marked removed appears only if it is also staged; a live committed addition wins over a staged one |
| TlcStates.UnifyTlcs | fiber/src/fiber/channel.rs:2512-2549 | the three loops compute exactly `Unified`, as additions in ascending id order; committed entries must be additions (`unreachable!`) |
| TlcStates.ApplyRemoveErasesId | fiber/src/fiber/channel.rs:2644-2660 | on a duplicate-free list, marking a TLC removed and then shrinking leaves no entry with its id |
| TlcStates.TlcState.constructor | fiber/src/fiber/channel.rs:2385-2394 | both lists empty with nothing committed and both next TLC ids 0, as `Default` gives; no queued removals, not waiting for an ack |
| TlcStates.TlcState.SetWaitingAck | fiber/src/fiber/channel.rs:2412-2414 | sets `waiting_ack` |
| TlcStates.TlcState.IncrementOffering | fiber/src/fiber/channel.rs:2404-2406 | the local list's next id grows by one |
| TlcStates.TlcState.IncrementReceived | fiber/src/fiber/channel.rs:2408-2410 | the remote list's next id grows by one |
| TlcStates.TlcState.SetTlcPendingRemove | fiber/src/fiber/channel.rs:2416-2419 | a retry of the removal is appended to the queue |
| TlcStates.TlcState.InsertRelayTlcRemove | fiber/src/fiber/channel.rs:2421-2431 | a relayed removal is appended to the queue |
| TlcStates.TlcState.RemovePendingRemoveTlc | fiber/src/fiber/channel.rs:2437-2440 | every copy of the entry leaves the queue; every other entry stays |
| TlcStates.TlcState.Get | fiber/src/fiber/channel.rs:2442-2463 | an offered id is looked up in the local list, a received one in the remote list; a result is an addition of that id there, and no result means there is none |
| TlcStates.TlcState.AddLocalTlc | fiber/src/fiber/channel.rs:2488-2490 | appends to the local list, keeping it duplicate-free |
| TlcStates.TlcState.AddRemoteTlc | fiber/src/fiber/channel.rs:2492-2494 | appends to the remote list, keeping it duplicate-free |
| TlcStates.TlcState.GetTlcsForLocal | fiber/src/fiber/channel.rs:2551-2559 | our commitment holds `Unified` of our staging part over both committed parts |
| TlcStates.TlcState.GetTlcsForRemote | fiber/src/fiber/channel.rs:2561-2569 | the counterparty's commitment holds `Unified` of its staging part over both committed parts |
| TlcStates.TlcState.CommitLocalTlcs | fiber/src/fiber/channel.rs:2579-2582 | commits the local list, merging in the remote committed part |
| TlcStates.TlcState.CommitRemoteTlcs | fiber/src/fiber/channel.rs:2584-2587 | commits the remote list, merging in the local committed part |
| TlcStates.TlcState.AllCommittedTlcs | fiber/src/fiber/channel.rs:2608-2615 | sorted by id; every entry is a live addition of one of the committed parts; an id is present iff the committed parts hold a live addition of it, and it then maps to the last such addition |
| TlcStates.TlcState.AllTlcs | fiber/src/fiber/channel.rs:2617-2624 | sorted by id; every entry is a live addition of one of the lists; an id is present iff the lists hold a live addition of it, and it then maps to the last such addition |
| TlcStates.TlcState.MarkTlcRemove | fiber/src/fiber/channel.rs:2626-2642 | each list loses the removals of the id, is fully committed, and has its addition of the id stamped `removed_at` |
| TlcStates.TlcState.ApplyRemoveTlc | fiber/src/fiber/channel.rs:2644-2660 | marks the TLC removed in both lists and shrinks the offering side's list, which then holds no entry with the id |
| Channel.GetFundingAndReservedAmount | fiber/src/fiber/channel.rs:3132-3156 | without UDT: succeeds iff the reserve is covered and the amount is below `u64::MAX`, and balance plus reserve equals the amount; with UDT: the amount is returned whole |
| Channel.BalancesAfterRemoval | fiber/src/fiber/channel.rs:4302-4313 | a fulfilment moves the TLC's amount from the side that offered it to the other side, a failure moves nothing; the total of both balances is preserved |
| Channel.FindByPaymentHash | fiber/src/fiber/channel.rs:4237-4241 | finds the first TLC with the payment hash (no earlier one has it), or reports that none has it |
| Channel.ChannelActorState.constructor | fiber/src/fiber/channel.rs:3551-3608 | the TLC-related fields of `new_outbound_channel`: a default TLC state (empty lists, nothing committed, both next TLC ids 0, no queued removals, not waiting for an ack), initial commitment numbers, no remote nonces |
| Channel.ChannelActorState.NewInboundChannel | fiber/src/fiber/channel.rs:3461-3548 | `new_inbound_channel` is the same fresh channel, with the same default TLC state, followed by `SaveRemoteNonce`: the only remote nonce is the counterparty's one for commitment 0 |
| Channel.ChannelActorState.OfferedTlcs | fiber/src/fiber/channel.rs:4538-4540 | exactly the live TLCs we offered: every returned entry is an offered entry of `AllTlcs`, and every offered entry of `AllTlcs` is returned |
| Channel.ChannelActorState.ReceivedTlcs | fiber/src/fiber/channel.rs:4534-4536 | exactly the live TLCs the counterparty offered: every returned entry is a received entry of `AllTlcs`, and every received entry of `AllTlcs` is returned |
| Channel.ChannelActorState.CheckInsertTlc | fiber/src/fiber/channel.rs:4235-4267 | `RepeatedProcessing` iff a live TLC has the payment hash; otherwise success iff the live TLCs of the direction plus this one fit the paying side's balance, else `TlcAmountExceedLimit` |
| Channel.ChannelActorState.CheckTlcLimits | fiber/src/fiber/channel.rs:4762-4799 | `TlcAmountIsTooLow` iff the amount is zero; otherwise `TlcNumberExceedLimit` iff the live TLCs of the direction plus this one exceed the count limit, else `TlcValueInflightExceedLimit` iff their sum exceeds the value limit (ours when sent, the counterparty's when received); success iff within both |
| Channel.ChannelActorState.CheckForTlcUpdate | fiber/src/fiber/channel.rs:4731-4760 | a command while waiting for an ack is `WaitingTlcAck`; otherwise a wrong state (not ready, nor shutting down for a removal) is `InvalidState`; otherwise an addition answers exactly what `check_tlc_limits` answers; success iff all three pass |
| Channel.ChannelActorState.CheckTlcExpiry | fiber/src/fiber/channel.rs:4684-4701 | success iff `now < expiry < now + limit`; a passed expiry is `TlcExpirySoon`, a far one `TlcExpiryTooFar` |
| Channel.ChannelActorState.RemovalOutcome | fiber/src/fiber/channel.rs:4280-4300 | a repeat with the same reason at the same commitment numbers is `RepeatedProcessing`, any other second removal `InvalidParameter`, a fulfilment with a wrong preimage `FinalIncorrectPreimage`; it goes ahead iff the TLC is not removed and, for a fulfilment, the preimage hashes to the payment hash |
| Channel.ChannelActorState.RemoveTlcWithReason | fiber/src/fiber/channel.rs:4272-4324 | answers `RemovalOutcome`; a refused removal changes nothing; an accepted one returns the TLC, sets the balances to `BalancesAfterRemoval` (total preserved), and leaves both TLC lists as `apply_remove_tlc` does (`RemoveApplied`: both marked, the offering side's shrunk, everything committed), so no entry of the TLC is left in the offering side's list |
| Channel.ChannelActorState.CheckRemoveTlcWithReason | fiber/src/fiber/channel.rs:4704-4729 | a missing TLC is `InvalidParameter`, an already removed one `RepeatedProcessing`, a live one with a wrong preimage `FinalIncorrectPreimage`; accepted iff the TLC exists, is not removed, and a fulfilment's preimage hashes to its payment hash |
| Channel.ChannelActorState.SaveRemoteNonce | fiber/src/fiber/channel.rs:4146-4156 | the nonce is appended for commitment 0 if none is stored, else for the next remote number; the oldest entry is dropped once there are more than two, so a window of at most two stays one, and the earlier entries kept are the newest old ones, in order |
| Channel.ChannelActorState.IncrementLocalCommitmentNumber | fiber/src/fiber/channel.rs:4185-4187 | the local commitment number grows by one |
| Channel.ChannelActorState.IncrementRemoteCommitmentNumber | fiber/src/fiber/channel.rs:4189-4191 | the remote commitment number grows by one |
| Channel.ChannelActorState.UpdateOurTlcFeeProportionalMillionths | fiber/src/fiber/channel.rs:3894-3904 | reports a change iff the fee differs; the fee is set and the other settings are untouched |
| Channel.ChannelActorState.UpdateOurTlcMinValue | fiber/src/fiber/channel.rs:3912-3921 | reports a change iff the value differs; the value is set and the other settings are untouched |
| Channel.ChannelActorState.UpdateOurEnabled | fiber/src/fiber/channel.rs:3927-3936 | reports a change iff the flag differs; the flag is set and the other settings are untouched |
| Channel.ChannelActorState.UpdateOurTlcExpiryDelta | fiber/src/fiber/channel.rs:3944-3953 | reports a change iff the delta differs; the delta is set and the other settings are untouched |
| Channel.CheckedRemovalGoesAhead | fiber/src/fiber/channel.rs:4704-4729 | whatever the commitment numbers, a removal `check_remove_tlc_with_reason` accepts is one `remove_tlc_with_reason` carries out |
| Channel.ChannelActorState.ShouldLocalGoFirstInMusig2 | fiber/src/fiber/channel.rs:6021-6025 | with distinct funding keys, the side with the smaller key goes first and the counterparty, seeing the keys swapped, gets the opposite answer |
| Channel.ChannelActorState.ShouldLocalSendTxSignaturesFirst | fiber/src/fiber/channel.rs:6036-6047 | the side with the smaller balance sends first; on equal balances, the musig2 order decides; see `SignaturesOrderBreaksDeadlock` |
| Channel.SignaturesOrderBreaksDeadlock | fiber/src/fiber/channel.rs:6036-6047 | the two ends of a channel see mirrored balances and keys; with distinct funding keys, exactly one of them sends `tx_signatures` first |
| Channel.AdmissionCovers | fiber/src/fiber/channel.rs:4246-4265 | at the moment `check_insert_tlc` admits a TLC, the paying side's balance covers its amount on top of every live TLC of its direction |

## Left out

- Integer widths:
  - `u64`/`u128` are unbounded naturals, so overflow in `+=`, `-=` and `current_time + MAX_PAYMENT_TLC_EXPIRY_LIMIT` (a panic with overflow checks on, a silent wrap without them) is not modelled;
  - `GetFundingAndReservedAmount` keeps the `u64::MAX` bound the source checks;
  - `RemoveTlcWithReason` requires the paying balance to cover a valid fulfilment, which is the subtraction that would otherwise underflow; `BalancesAfterRemoval` requires the same.
- Panics are preconditions: an `assert!`, `assert_eq!`, `expect` or `unreachable!` of the source becomes a `requires` that callers must meet. This covers the `assert!` in `push` (`Push`, `AddLocalTlc`, `AddRemoteTlc`), the `assert_eq!` in `shrink_removed_tlc`, the `unreachable!` in `unify_tlcs`, the `expect("TLC exists")` in `remove_tlc_with_reason` (`RemoveTlcWithReason` requires `Get(tlcId).Some?`), and the `expect` in `public_channel_state_mut` (the four `UpdateOur*` methods require `publicChannelInfo.Some?`).
- AdmissionCovers: holds when a TLC is admitted; `ChannelActorState.Valid` carries no invariant tying the balances to the live TLCs, so the cover a later fulfilment needs is a precondition of `RemoveTlcWithReason` rather than a consequence of admission.
- Channel.ChannelActorState.CheckInsertTlc: the `debug_assert!`s that a balance covers its live TLCs (debug builds only) are not modelled; the release behaviour is.
- Parameters and constants:
  - The hash function of a preimage is a parameter of `RemoveTlcWithReason`.
  - The wall clock and `MAX_PAYMENT_TLC_EXPIRY_LIMIT` are parameters of `CheckTlcExpiry`; the constant is defined outside `channel.rs`.
  - `reserved_capacity` is a parameter of `GetFundingAndReservedAmount`. It is a cell's occupied capacity computed from the shutdown script plus `DEFAULT_MIN_SHUTDOWN_FEE` (`fiber/src/fiber/channel.rs:3158-3164`), and the CKB types it needs are not part of this model. So is its capacity-overflow error path.
- Keys and encodings:
  - Funding public keys are natural numbers; compressed secp256k1 keys compare byte-wise, like big-endian numbers.
  - `HashAlgorithm` is defined outside `channel.rs`. The model takes its discriminants (0 for CKB hash, 1 for SHA-256) from the `get_htlc_type` doc comment.
- TlcStates.UnifyTlcs: its `ensures` ties the result to `Unified`; the per-id characterisation is proved separately in `UnifiedLookup` / `UnifiedMatchesExpected` rather than repeated on the method.
- Fields and accessors:
  - Fields of `AddTlcInfo` that the modelled code never reads are omitted: channel id, onion packet, shared secret, previous TLC.
  - `RemoveTlcInfo` drops its channel id for the same reason (`fiber/src/fiber/channel.rs:2244-2248`).
  - Channel-state flags are omitted.
  - Most of `ChannelActorState` is omitted: keys, signatures, transactions, the network actor.
  - Accessors that only return a field are omitted: `next_tlc_id`, `get_next_offering`, `get_pending_remove`, `tlcs`, `get_local_commitment_number`.
  - `get_offered_tlc_balance` and `get_received_tlc_balance` (`fiber/src/fiber/channel.rs:3762-3772`) are not separate members: they are the sums of the `Amounts` of `OfferedTlcs()` and `ReceivedTlcs()` inside `CheckInsertTlc`.
- `get_tlcs_with(b)` is not modelled separately: it returns `GetTlcsForLocal` when `b` holds and `GetTlcsForRemote` otherwise (`fiber/src/fiber/channel.rs:2571-2577`).
- `add_tlc_operation`, `tlcs_mut` and `get_committed_tlcs_mut` are not modelled: nothing in `channel.rs` calls them.
- `TLCId::flip_mut` and `AddTlcInfo::flip_mut` are the in-place forms of `Flip`.
- `Valid` invariants:
  - `PendingTlcs.Valid` (no two entries share kind and id) is an invariant the model keeps; the source only asserts it in `push`.
  - `ChannelActorState.Valid` bounds the nonce window at two, the bound `get_remote_nonce` asserts (`fiber/src/fiber/channel.rs:4132`) and `save_remote_nonce` maintains.
- Serialization, persistence, logging and the actor's message handling are out of scope.
