/** The TLC-related part of `ChannelActorState`: channel balances, in-flight
    limits, the admission checks for a new TLC, the balance transfer when a
    TLC is removed, the remote nonce window, the public-channel setters, and
    the rule that decides who sends `tx_signatures` first. */
module Channel {
  import opened TlcTypes
  import opened SeqUtil
  import opened TlcMap
  import opened Pending
  import opened TlcStates

  /** The channel's life-cycle state; the flags some variants carry do not
      matter to the TLC checks and are not modelled. */
  datatype ChannelState =
    | NegotiatingFunding
    | CollaboratingFundingTx
    | SigningCommitment
    | AwaitingTxSignatures
    | AwaitingChannelReady
    | ChannelReady
    | ShuttingDown
    | Closed

  datatype ChannelConstraints = ChannelConstraints(maxTlcValueInFlight: nat, maxTlcNumberInFlight: nat)

  /** The settings of a public channel that `update_our_*` change; the
      announcement signatures and messages are not modelled. */
  datatype PublicChannelInfo = PublicChannelInfo(
    enabled: bool,
    tlcFeeProportionalMillionths: nat,
    tlcExpiryDelta: nat,
    tlcMinValue: nat)

  type PubNonce = seq<bv8>

  const U64Max: nat := 0xFFFF_FFFF_FFFF_FFFF

  /** `get_funding_and_reserved_amount`: splits a funding amount into the
      spendable balance and the reserved capacity. Without a UDT type script
      the reserve comes out of the amount, which must cover it and stay below
      `u64::MAX`; with one, the amount is token units and is returned whole. */
  function GetFundingAndReservedAmount(totalAmount: nat, reservedCapacity: nat, hasUdtTypeScript: bool)
    : (r: Result<(nat, nat)>)
    requires reservedCapacity <= U64Max
    ensures r.Ok? ==> r.value.1 == reservedCapacity
    ensures !hasUdtTypeScript ==> (r.Ok? <==> reservedCapacity <= totalAmount < U64Max)
    ensures !hasUdtTypeScript && r.Ok? ==> r.value.0 + r.value.1 == totalAmount
    ensures !hasUdtTypeScript && r.Err? ==> r.error == InvalidParameter
    ensures hasUdtTypeScript ==> r.Ok? && r.value.0 == totalAmount
  {
    if !hasUdtTypeScript then
      if totalAmount < reservedCapacity then Err(InvalidParameter)
      else if totalAmount >= U64Max then Err(InvalidParameter)
      else Ok((totalAmount - reservedCapacity, reservedCapacity))
    else Ok((totalAmount, reservedCapacity))
  }

  function Amounts(infos: seq<AddTlcInfo>): (r: seq<nat>)
    ensures |r| == |infos| && forall i :: 0 <= i < |r| ==> r[i] == infos[i].amount
  {
    seq(|infos|, i requires 0 <= i < |infos| => infos[i].amount)
  }

  function OfferedOnly(): AddTlcInfo -> bool
  {
    (info: AddTlcInfo) => info.IsOffered()
  }

  function ReceivedOnly(): AddTlcInfo -> bool
  {
    (info: AddTlcInfo) => !info.IsOffered()
  }

  /** The in-flight limits a set of live TLC amounts must respect. */
  predicate WithinInflightLimits(amounts: seq<nat>, c: ChannelConstraints)
  {
    |amounts| <= c.maxTlcNumberInFlight && Sum(amounts) <= c.maxTlcValueInFlight
  }

  /** The balances after a TLC is removed: a fulfilment pays the TLC's
      amount from the side that offered it to the other side, a failure
      leaves both balances alone; either way no amount is created or lost. */
  function BalancesAfterRemoval(toLocal: nat, toRemote: nat, tlc: AddTlcInfo, reason: RemoveTlcReason): (r: (nat, nat))
    requires reason.RemoveTlcFulfill? ==> tlc.amount <= if tlc.IsOffered() then toLocal else toRemote
    ensures r.0 + r.1 == toLocal + toRemote
    ensures reason.RemoveTlcFail? ==> r == (toLocal, toRemote)
    ensures reason.RemoveTlcFulfill? && tlc.IsOffered() ==> r.0 + tlc.amount == toLocal
    ensures reason.RemoveTlcFulfill? && !tlc.IsOffered() ==> r.1 + tlc.amount == toRemote
  {
    if reason.RemoveTlcFulfill? then
      if tlc.IsOffered() then (toLocal - tlc.amount, toRemote + tlc.amount)
      else (toLocal + tlc.amount, toRemote - tlc.amount)
    else (toLocal, toRemote)
  }

  /** The first TLC with the given payment hash (`Iterator::find`). */
  function FindByPaymentHash(infos: seq<AddTlcInfo>, h: Hash256): (r: Option<AddTlcInfo>)
    ensures r.Some? ==> r.value in infos && r.value.paymentHash == h
    ensures r.Some? ==>
      exists i :: 0 <= i < |infos| && infos[i] == r.value && (forall j :: 0 <= j < i ==> infos[j].paymentHash != h)
    ensures r.None? ==> forall i :: 0 <= i < |infos| ==> infos[i].paymentHash != h
  {
    if infos == [] then None
    else if infos[0].paymentHash == h then Some(infos[0])
    else FindByPaymentHash(infos[1..], h)
  }

  class ChannelActorState {
    var state: ChannelState
    var toLocalAmount: nat
    var toRemoteAmount: nat
    const tlcState: TlcState
    var commitmentNumbers: CommitmentNumbers
    var remoteNonces: seq<(nat, PubNonce)>
    var localConstraints: ChannelConstraints
    var remoteConstraints: ChannelConstraints
    var publicChannelInfo: Option<PublicChannelInfo>
    var localFundingPubkey: nat
    var remoteFundingPubkey: nat

    ghost predicate Valid()
      reads this, tlcState, tlcState.local, tlcState.remote
    {
      tlcState.Valid() && |remoteNonces| <= 2
    }

    constructor (state: ChannelState, toLocalAmount: nat, toRemoteAmount: nat,
                 localConstraints: ChannelConstraints, remoteConstraints: ChannelConstraints,
                 publicChannelInfo: Option<PublicChannelInfo>,
                 localFundingPubkey: nat, remoteFundingPubkey: nat)
      ensures Valid() && fresh(tlcState) && fresh(tlcState.local) && fresh(tlcState.remote)
      ensures tlcState.local.tlcs == [] && tlcState.remote.tlcs == [] && !tlcState.waitingAck
      ensures tlcState.local.committedIndex == 0 && tlcState.remote.committedIndex == 0
      ensures tlcState.local.nextTlcId == 0 && tlcState.remote.nextTlcId == 0 && tlcState.retryableRemoveTlcs == []
      ensures this.state == state && this.toLocalAmount == toLocalAmount && this.toRemoteAmount == toRemoteAmount
      ensures this.localConstraints == localConstraints && this.remoteConstraints == remoteConstraints
      ensures this.publicChannelInfo == publicChannelInfo
      ensures this.localFundingPubkey == localFundingPubkey && this.remoteFundingPubkey == remoteFundingPubkey
      ensures commitmentNumbers == InitialCommitmentNumbers() && remoteNonces == []
    {
      this.state := state;
      this.toLocalAmount := toLocalAmount;
      this.toRemoteAmount := toRemoteAmount;
      tlcState := new TlcState();
      commitmentNumbers := InitialCommitmentNumbers();
      remoteNonces := [];
      this.localConstraints := localConstraints;
      this.remoteConstraints := remoteConstraints;
      this.publicChannelInfo := publicChannelInfo;
      this.localFundingPubkey := localFundingPubkey;
      this.remoteFundingPubkey := remoteFundingPubkey;
    }

    /** `new_inbound_channel`: as a fresh channel, except that the opening
        message already carried the counterparty's nonce for commitment 0. */
    static method NewInboundChannel(state: ChannelState, toLocalAmount: nat, toRemoteAmount: nat,
                                    localConstraints: ChannelConstraints, remoteConstraints: ChannelConstraints,
                                    publicChannelInfo: Option<PublicChannelInfo>,
                                    localFundingPubkey: nat, remoteFundingPubkey: nat, remoteNonce: PubNonce)
      returns (c: ChannelActorState)
      ensures c.Valid() && fresh(c) && fresh(c.tlcState) && fresh(c.tlcState.local) && fresh(c.tlcState.remote)
      ensures c.tlcState.local.tlcs == [] && c.tlcState.remote.tlcs == [] && !c.tlcState.waitingAck
      ensures c.tlcState.local.committedIndex == 0 && c.tlcState.remote.committedIndex == 0
      ensures c.tlcState.local.nextTlcId == 0 && c.tlcState.remote.nextTlcId == 0
      ensures c.tlcState.retryableRemoveTlcs == []
      ensures c.state == state && c.toLocalAmount == toLocalAmount && c.toRemoteAmount == toRemoteAmount
      ensures c.localConstraints == localConstraints && c.remoteConstraints == remoteConstraints
      ensures c.publicChannelInfo == publicChannelInfo
      ensures c.localFundingPubkey == localFundingPubkey && c.remoteFundingPubkey == remoteFundingPubkey
      ensures c.commitmentNumbers == InitialCommitmentNumbers() && c.remoteNonces == [(0, remoteNonce)]
    {
      c := new ChannelActorState(state, toLocalAmount, toRemoteAmount, localConstraints, remoteConstraints,
                                 publicChannelInfo, localFundingPubkey, remoteFundingPubkey);
      c.SaveRemoteNonce(remoteNonce);
    }

    /** `get_all_offer_tlcs`: live TLCs we offered. */
    function OfferedTlcs(): (r: seq<AddTlcInfo>)
      reads this, tlcState, tlcState.local, tlcState.remote
      ensures forall i :: 0 <= i < |r| ==> r[i].IsOffered() && r[i] in tlcState.AllTlcs()
      ensures forall x :: x in tlcState.AllTlcs() && x.IsOffered() ==> x in r
    {
      Retain(tlcState.AllTlcs(), OfferedOnly())
    }

    /** `get_all_received_tlcs`: live TLCs the counterparty offered. */
    function ReceivedTlcs(): (r: seq<AddTlcInfo>)
      reads this, tlcState, tlcState.local, tlcState.remote
      ensures forall i :: 0 <= i < |r| ==> !r[i].IsOffered() && r[i] in tlcState.AllTlcs()
      ensures forall x :: x in tlcState.AllTlcs() && !x.IsOffered() ==> x in r
    {
      Retain(tlcState.AllTlcs(), ReceivedOnly())
    }

    /** `check_insert_tlc`: a TLC is refused when a live TLC already has its
        payment hash, and otherwise when the live TLCs of its direction plus
        it would exceed the balance of the side that pays it. */
    function CheckInsertTlc(tlc: AddTlcInfo): (r: Result<()>)
      reads this, tlcState, tlcState.local, tlcState.remote
      ensures r == Err(RepeatedProcessing) <==>
        exists i :: 0 <= i < |tlcState.AllTlcs()| && tlcState.AllTlcs()[i].paymentHash == tlc.paymentHash
      ensures r.Ok? <==>
        (forall i :: 0 <= i < |tlcState.AllTlcs()| ==> tlcState.AllTlcs()[i].paymentHash != tlc.paymentHash)
        && (if tlc.IsOffered() then Sum(Amounts(OfferedTlcs()) + [tlc.amount]) <= toLocalAmount
            else Sum(Amounts(ReceivedTlcs()) + [tlc.amount]) <= toRemoteAmount)
      ensures r.Err? ==> r.error == RepeatedProcessing || r.error == TlcAmountExceedLimit
    {
      SumAppend(Amounts(OfferedTlcs()), tlc.amount);
      SumAppend(Amounts(ReceivedTlcs()), tlc.amount);
      if FindByPaymentHash(tlcState.AllTlcs(), tlc.paymentHash).Some? then
        Err(RepeatedProcessing)
      else if tlc.IsOffered() then
        var sentTlcValue := Sum(Amounts(OfferedTlcs()));
        if sentTlcValue + tlc.amount > toLocalAmount then Err(TlcAmountExceedLimit) else Ok(())
      else
        var receivedTlcValue := Sum(Amounts(ReceivedTlcs()));
        if receivedTlcValue + tlc.amount > toRemoteAmount then Err(TlcAmountExceedLimit) else Ok(())
    }

    /** `check_tlc_limits`: a zero amount is too low; otherwise the live TLCs
        of the direction plus the new one must respect the in-flight limits
        of our side (sent) or of the counterparty's (received), the count
        checked before the value. */
    function CheckTlcLimits(addAmount: nat, isSent: bool): (r: Result<()>)
      reads this, tlcState, tlcState.local, tlcState.remote
      ensures r == Err(TlcAmountIsTooLow) <==> addAmount == 0
      ensures var live := if isSent then OfferedTlcs() else ReceivedTlcs();
        var c := if isSent then localConstraints else remoteConstraints;
        (r.Ok? <==> addAmount > 0 && WithinInflightLimits(Amounts(live) + [addAmount], c))
        && (r == Err(TlcNumberExceedLimit) <==> addAmount > 0 && |live| + 1 > c.maxTlcNumberInFlight)
        && (r == Err(TlcValueInflightExceedLimit) <==>
              addAmount > 0 && |live| + 1 <= c.maxTlcNumberInFlight
              && Sum(Amounts(live) + [addAmount]) > c.maxTlcValueInFlight)
      ensures r.Err? ==> r.error in {TlcAmountIsTooLow, TlcNumberExceedLimit, TlcValueInflightExceedLimit}
    {
      var live := if isSent then OfferedTlcs() else ReceivedTlcs();
      var c := if isSent then localConstraints else remoteConstraints;
      SumAppend(Amounts(live), addAmount);
      if addAmount == 0 then Err(TlcAmountIsTooLow)
      else if |live| + 1 > c.maxTlcNumberInFlight then Err(TlcNumberExceedLimit)
      else if Sum(Amounts(live)) + addAmount > c.maxTlcValueInFlight then Err(TlcValueInflightExceedLimit)
      else Ok(())
    }

    /** `check_for_tlc_update`: an update is accepted only when it is not a
        command issued while waiting for an ack, the channel is ready (or
        shutting down, for a removal), and an addition passes the limits. */
    function CheckForTlcUpdate(addTlcAmount: Option<nat>, isTlcCommandMessage: bool, isSent: bool)
      : (r: Result<()>)
      reads this, tlcState, tlcState.local, tlcState.remote
      ensures isTlcCommandMessage && tlcState.waitingAck ==> r == Err(WaitingTlcAck)
      ensures r.Ok? <==>
        !(isTlcCommandMessage && tlcState.waitingAck)
        && (state == ChannelReady || (state == ShuttingDown && addTlcAmount.None?))
        && (addTlcAmount.Some? ==>
              (addTlcAmount.value > 0
               && WithinInflightLimits(
                    Amounts(if isSent then OfferedTlcs() else ReceivedTlcs()) + [addTlcAmount.value],
                    if isSent then localConstraints else remoteConstraints)))
      ensures r.Err? && !(isTlcCommandMessage && tlcState.waitingAck)
        && state != ChannelReady && !(state == ShuttingDown && addTlcAmount.None?)
        ==> r == Err(InvalidState)
      ensures !(isTlcCommandMessage && tlcState.waitingAck)
        && (state == ChannelReady || (state == ShuttingDown && addTlcAmount.None?)) && addTlcAmount.Some?
        ==> r == CheckTlcLimits(addTlcAmount.value, isSent)
    {
      if isTlcCommandMessage && tlcState.waitingAck then Err(WaitingTlcAck)
      else if !(state == ChannelReady || (state == ShuttingDown && addTlcAmount.None?)) then Err(InvalidState)
      else if addTlcAmount.Some? then CheckTlcLimits(addTlcAmount.value, isSent)
      else Ok(())
    }

    /** `check_tlc_expiry`, with the clock and `MAX_PAYMENT_TLC_EXPIRY_LIMIT`
        passed in: the expiry must lie strictly after `now` and strictly
        before `now + maxExpiryLimit`. */
    static function CheckTlcExpiry(expiry: nat, now: nat, maxExpiryLimit: nat): (r: Result<()>)
      ensures r.Ok? <==> now < expiry < now + maxExpiryLimit
      ensures expiry <= now ==> r == Err(TlcExpirySoon)
      ensures now < expiry && r.Err? ==> r == Err(TlcExpiryTooFar)
    {
      if now >= expiry then Err(TlcExpirySoon)
      else if expiry >= now + maxExpiryLimit then Err(TlcExpiryTooFar)
      else Ok(())
    }

    /** `should_local_go_first_in_musig2`: the side with the smaller funding
        key goes first; the counterparty, who sees the keys swapped, gets the
        opposite answer whenever the keys differ. */
    function ShouldLocalGoFirstInMusig2(): (r: bool)
      reads this
      ensures localFundingPubkey != remoteFundingPubkey ==> r != (remoteFundingPubkey <= localFundingPubkey)
    {
      localFundingPubkey <= remoteFundingPubkey
    }

    /** `should_local_send_tx_signatures_first`: the side with the smaller
        balance sends first; on equal balances, the side with the smaller
        funding key. */
    function ShouldLocalSendTxSignaturesFirst(): (r: bool)
      reads this
      ensures toLocalAmount != toRemoteAmount ==> (r <==> toLocalAmount < toRemoteAmount)
      ensures toLocalAmount == toRemoteAmount ==> r == ShouldLocalGoFirstInMusig2()
    {
      toLocalAmount < toRemoteAmount
        || (toLocalAmount == toRemoteAmount && ShouldLocalGoFirstInMusig2())
    }

    /** The answer `remove_tlc_with_reason` gives for a TLC in state `cur`:
        a repeat with the same reason at the same commitment numbers is
        `RepeatedProcessing`, any other second removal `InvalidParameter`, a
        fulfilment whose preimage does not hash to the payment hash
        `FinalIncorrectPreimage`; anything else goes ahead. */
    static function RemovalOutcome(cur: AddTlcInfo, removedAt: CommitmentNumbers, reason: RemoveTlcReason,
                                   hash: (HashAlgorithm, Hash256) -> Hash256): (r: Result<()>)
      ensures r.Ok? <==>
        cur.removedAt.None?
        && (reason.RemoveTlcFulfill? ==> hash(cur.hashAlgorithm, reason.paymentPreimage) == cur.paymentHash)
      ensures cur.removedAt == Some(Removal(removedAt, reason)) ==> r == Err(RepeatedProcessing)
      ensures cur.removedAt.Some? && cur.removedAt != Some(Removal(removedAt, reason)) ==> r == Err(InvalidParameter)
      ensures cur.removedAt.None? && r.Err? ==> r == Err(FinalIncorrectPreimage)
    {
      match cur.removedAt
      case Some(rm) =>
        if rm == Removal(removedAt, reason) then Err(RepeatedProcessing) else Err(InvalidParameter)
      case None =>
        if reason.RemoveTlcFulfill? && cur.paymentHash != hash(cur.hashAlgorithm, reason.paymentPreimage) then
          Err(FinalIncorrectPreimage)
        else Ok(())
    }

    /** `check_remove_tlc_with_reason`: a removal is accepted for a TLC that
        exists, is not removed yet, and, for a fulfilment, whose payment hash
        the preimage hashes to. */
    function CheckRemoveTlcWithReason(tlcId: TLCId, reason: RemoveTlcReason, hash: (HashAlgorithm, Hash256) -> Hash256)
      : (r: Result<()>)
      reads this, tlcState, tlcState.local, tlcState.remote
      ensures tlcState.Get(tlcId).None? ==> r == Err(InvalidParameter)
      ensures tlcState.Get(tlcId).Some? && tlcState.Get(tlcId).value.removedAt.Some? ==> r == Err(RepeatedProcessing)
      ensures r.Ok? <==>
        tlcState.Get(tlcId).Some? && tlcState.Get(tlcId).value.removedAt.None?
        && (reason.RemoveTlcFulfill? ==>
              hash(tlcState.Get(tlcId).value.hashAlgorithm, reason.paymentPreimage)
              == tlcState.Get(tlcId).value.paymentHash)
      ensures tlcState.Get(tlcId).Some? && tlcState.Get(tlcId).value.removedAt.None? && r.Err?
        ==> r == Err(FinalIncorrectPreimage)
    {
      match tlcState.Get(tlcId)
      case None => Err(InvalidParameter)
      case Some(tlc) =>
        if tlc.removedAt.Some? then Err(RepeatedProcessing)
        else if reason.RemoveTlcFulfill? && tlc.paymentHash != hash(tlc.hashAlgorithm, reason.paymentPreimage) then
          Err(FinalIncorrectPreimage)
        else Ok(())
    }

    /** `remove_tlc_with_reason`: removes a TLC once. A refused removal (see
        `RemovalOutcome`) changes nothing. A fulfilment moves the amount to
        the side that was paid. The hash function is passed in. */
    method RemoveTlcWithReason(tlcId: TLCId, reason: RemoveTlcReason, hash: (HashAlgorithm, Hash256) -> Hash256)
      returns (r: Result<AddTlcInfo>)
      requires Valid()
      requires tlcState.Get(tlcId).Some?
      requires var cur := tlcState.Get(tlcId).value;
        cur.removedAt.None? && reason.RemoveTlcFulfill?
        && hash(cur.hashAlgorithm, reason.paymentPreimage) == cur.paymentHash
        ==> cur.amount <= if tlcId.IsOffered() then toLocalAmount else toRemoteAmount
      modifies this`toLocalAmount, this`toRemoteAmount
      modifies tlcState.local`tlcs, tlcState.local`committedIndex
      modifies tlcState.remote`tlcs, tlcState.remote`committedIndex
      ensures Valid()
      ensures toLocalAmount + toRemoteAmount == old(toLocalAmount + toRemoteAmount)
      ensures var cur := old(tlcState.Get(tlcId)).value;
        var outcome := RemovalOutcome(cur, commitmentNumbers, reason, hash);
        (outcome.Err? ==> r == Err(outcome.error)) && (outcome.Ok? ==> r == Ok(cur))
      ensures r.Err? ==>
        toLocalAmount == old(toLocalAmount) && toRemoteAmount == old(toRemoteAmount)
        && unchanged(tlcState.local, tlcState.remote)
      ensures r.Ok? ==>
        if reason.RemoveTlcFulfill? && tlcId.IsOffered() then
          toLocalAmount == old(toLocalAmount) - r.value.amount && toRemoteAmount == old(toRemoteAmount) + r.value.amount
        else if reason.RemoveTlcFulfill? then
          toLocalAmount == old(toLocalAmount) + r.value.amount && toRemoteAmount == old(toRemoteAmount) - r.value.amount
        else
          toLocalAmount == old(toLocalAmount) && toRemoteAmount == old(toRemoteAmount)
      ensures r.Ok? ==>
        RemoveApplied(old(tlcState.local.tlcs), old(tlcState.remote.tlcs), tlcState.local.tlcs, tlcState.remote.tlcs,
                      tlcId, Removal(commitmentNumbers, reason))
      ensures r.Ok? ==>
        tlcState.local.committedIndex == |tlcState.local.tlcs| && tlcState.remote.committedIndex == |tlcState.remote.tlcs|
      ensures r.Ok? ==>
        var owner := if tlcId.IsOffered() then tlcState.local.tlcs else tlcState.remote.tlcs;
        forall i :: 0 <= i < |owner| ==> owner[i].TlcId() != tlcId
    {
      var removedAt := commitmentNumbers;
      var current := tlcState.Get(tlcId).value;
      var outcome := RemovalOutcome(current, removedAt, reason, hash);
      if outcome.Err? {
        return Err(outcome.error);
      }
      var balances := BalancesAfterRemoval(toLocalAmount, toRemoteAmount, current, reason);
      toLocalAmount, toRemoteAmount := balances.0, balances.1;
      tlcState.ApplyRemoveTlc(tlcId, removedAt, reason);
      assert removedAt == commitmentNumbers;
      return Ok(current);
    }

    /** `save_remote_nonce`: records the counterparty's nonce for the next
        remote commitment number (0 for the first); once more than two are
        stored, the oldest is dropped, so a window of at most two stays one. */
    method SaveRemoteNonce(nonce: PubNonce)
      modifies this`remoteNonces
      ensures |old(remoteNonces)| <= 2 ==> |remoteNonces| <= 2
      ensures |remoteNonces| == if |old(remoteNonces)| < 2 then |old(remoteNonces)| + 1 else |old(remoteNonces)|
      ensures remoteNonces[|remoteNonces| - 1]
        == (if old(remoteNonces) == [] then 0 else commitmentNumbers.remote + 1, nonce)
      ensures remoteNonces[..|remoteNonces| - 1]
        == old(remoteNonces)[|old(remoteNonces)| + 1 - |remoteNonces|..]
    {
      var saved := remoteNonces;
      var nextRemoteNumber := if remoteNonces == [] then 0 else commitmentNumbers.remote + 1;
      remoteNonces := remoteNonces + [(nextRemoteNumber, nonce)];
      assert remoteNonces[..|saved|] == saved;
      if |remoteNonces| > 2 {
        remoteNonces := remoteNonces[1..];
        assert remoteNonces[..|remoteNonces| - 1] == saved[1..];
      }
    }

    method IncrementLocalCommitmentNumber()
      modifies this`commitmentNumbers
      ensures commitmentNumbers == old(commitmentNumbers).IncrementLocal()
    {
      commitmentNumbers := commitmentNumbers.IncrementLocal();
    }

    method IncrementRemoteCommitmentNumber()
      modifies this`commitmentNumbers
      ensures commitmentNumbers == old(commitmentNumbers).IncrementRemote()
    {
      commitmentNumbers := commitmentNumbers.IncrementRemote();
    }

    /** `update_our_tlc_fee_proportional_millionths`: sets the fee rate and
        reports whether it changed. */
    method UpdateOurTlcFeeProportionalMillionths(fee: nat) returns (changed: bool)
      requires publicChannelInfo.Some?
      modifies this`publicChannelInfo
      ensures changed <==> old(publicChannelInfo).value.tlcFeeProportionalMillionths != fee
      ensures publicChannelInfo == Some(old(publicChannelInfo).value.(tlcFeeProportionalMillionths := fee))
    {
      if publicChannelInfo.value.tlcFeeProportionalMillionths == fee {
        return false;
      }
      publicChannelInfo := Some(publicChannelInfo.value.(tlcFeeProportionalMillionths := fee));
      return true;
    }

    /** `update_our_tlc_min_value`: sets the minimal relayed TLC value and
        reports whether it changed. */
    method UpdateOurTlcMinValue(value: nat) returns (changed: bool)
      requires publicChannelInfo.Some?
      modifies this`publicChannelInfo
      ensures changed <==> old(publicChannelInfo).value.tlcMinValue != value
      ensures publicChannelInfo == Some(old(publicChannelInfo).value.(tlcMinValue := value))
    {
      if publicChannelInfo.value.tlcMinValue == value {
        return false;
      }
      publicChannelInfo := Some(publicChannelInfo.value.(tlcMinValue := value));
      return true;
    }

    /** `update_our_enabled`: sets the enabled flag and reports whether it
        changed. */
    method UpdateOurEnabled(enabled: bool) returns (changed: bool)
      requires publicChannelInfo.Some?
      modifies this`publicChannelInfo
      ensures changed <==> old(publicChannelInfo).value.enabled != enabled
      ensures publicChannelInfo == Some(old(publicChannelInfo).value.(enabled := enabled))
    {
      if publicChannelInfo.value.enabled == enabled {
        return false;
      }
      publicChannelInfo := Some(publicChannelInfo.value.(enabled := enabled));
      return true;
    }

    /** `update_our_tlc_expiry_delta`: sets the expiry delta and reports
        whether it changed. */
    method UpdateOurTlcExpiryDelta(value: nat) returns (changed: bool)
      requires publicChannelInfo.Some?
      modifies this`publicChannelInfo
      ensures changed <==> old(publicChannelInfo).value.tlcExpiryDelta != value
      ensures publicChannelInfo == Some(old(publicChannelInfo).value.(tlcExpiryDelta := value))
    {
      if publicChannelInfo.value.tlcExpiryDelta == value {
        return false;
      }
      publicChannelInfo := Some(publicChannelInfo.value.(tlcExpiryDelta := value));
      return true;
    }
  }

  /** The two ends of a channel see each other's balances and funding keys
      mirrored; with distinct keys, exactly one of them sends
      `tx_signatures` first, so neither waits forever. */
  lemma SignaturesOrderBreaksDeadlock(a: ChannelActorState, b: ChannelActorState)
    requires a.toLocalAmount == b.toRemoteAmount && a.toRemoteAmount == b.toLocalAmount
    requires a.localFundingPubkey == b.remoteFundingPubkey && a.remoteFundingPubkey == b.localFundingPubkey
    requires a.localFundingPubkey != a.remoteFundingPubkey
    ensures a.ShouldLocalSendTxSignaturesFirst() != b.ShouldLocalSendTxSignaturesFirst()
  {
  }

  /** A removal `check_remove_tlc_with_reason` accepts is one
      `remove_tlc_with_reason` carries out, whatever the commitment numbers. */
  lemma CheckedRemovalGoesAhead(c: ChannelActorState, tlcId: TLCId, reason: RemoveTlcReason,
                                hash: (HashAlgorithm, Hash256) -> Hash256, removedAt: CommitmentNumbers)
    requires c.CheckRemoveTlcWithReason(tlcId, reason, hash).Ok?
    ensures c.tlcState.Get(tlcId).Some?
    ensures ChannelActorState.RemovalOutcome(c.tlcState.Get(tlcId).value, removedAt, reason, hash).Ok?
  {
  }

  /** A TLC that `check_insert_tlc` admits is covered by the balance of the
      side that pays it: that balance holds its amount (which
      `remove_tlc_with_reason` later subtracts) on top of every live TLC of
      the same direction. */
  lemma AdmissionCovers(c: ChannelActorState, tlc: AddTlcInfo)
    requires c.CheckInsertTlc(tlc).Ok?
    ensures tlc.amount <= if tlc.IsOffered() then c.toLocalAmount else c.toRemoteAmount
    ensures if tlc.IsOffered() then Sum(Amounts(c.OfferedTlcs())) <= c.toLocalAmount - tlc.amount
            else Sum(Amounts(c.ReceivedTlcs())) <= c.toRemoteAmount - tlc.amount
  {
    SumAppend(Amounts(c.OfferedTlcs()), tlc.amount);
    SumAppend(Amounts(c.ReceivedTlcs()), tlc.amount);
  }
}
