/** The value types of a channel's TLC (hashed time-locked commitment)
    bookkeeping: identifiers, commitment numbers, the records of an added or
    removed TLC, and the errors the channel reports. */
module TlcTypes {

  datatype Option<T> = None | Some(value: T)

  datatype Result<T> = Ok(value: T) | Err(error: ChannelError)

  /** The subset of `ProcessingChannelError` that the TLC bookkeeping returns;
      the variants' message strings are not modelled. */
  datatype ChannelError =
    | InvalidParameter
    | InvalidState
    | RepeatedProcessing
    | WaitingTlcAck
    | TlcAmountIsTooLow
    | TlcAmountExceedLimit
    | TlcNumberExceedLimit
    | TlcValueInflightExceedLimit
    | TlcExpirySoon
    | TlcExpiryTooFar
    | FinalIncorrectPreimage

  /** 32-byte hashes and preimages; only compared for equality. */
  type Hash256 = seq<bv8>

  /** A TLC id, tagged with the side that offered it. */
  datatype TLCId = Offered(n: nat) | Received(n: nat)
  {
    predicate IsOffered() { Offered? }

    predicate IsReceived() { !IsOffered() }

    /** The same TLC seen from the counterparty. */
    function Flip(): (r: TLCId)
      ensures r.n == n
      ensures r.IsOffered() <==> IsReceived()
    {
      match this
      case Offered(id) => Received(id)
      case Received(id) => Offered(id)
    }
  }

  lemma FlipInvolutive(id: TLCId)
    ensures id.Flip().Flip() == id
    ensures id.Flip() != id
  {
  }

  /** The order Rust derives for `TLCId`: the variant first (every `Offered`
      before every `Received`), then the number. */
  predicate IdLess(a: TLCId, b: TLCId)
  {
    (a.Offered? && b.Received?) || (a.Offered? == b.Offered? && a.n < b.n)
  }

  /** `IdLess` is a strict total order, so a map keyed by `TLCId` has one
      well-defined iteration order. */
  lemma IdLessStrictTotal(a: TLCId, b: TLCId, c: TLCId)
    ensures !IdLess(a, a)
    ensures IdLess(a, b) ==> !IdLess(b, a)
    ensures IdLess(a, b) && IdLess(b, c) ==> IdLess(a, c)
    ensures a == b || IdLess(a, b) || IdLess(b, a)
  {
  }

  /** Commitment numbers of the local and the remote commitment transaction. */
  datatype CommitmentNumbers = CommitmentNumbers(local: nat, remote: nat)
  {
    function Flip(): (r: CommitmentNumbers)
      ensures r.local == remote && r.remote == local
    {
      CommitmentNumbers(remote, local)
    }

    function IncrementLocal(): (r: CommitmentNumbers)
      ensures r.local == local + 1 && r.remote == remote
    {
      this.(local := local + 1)
    }

    function IncrementRemote(): (r: CommitmentNumbers)
      ensures r.remote == remote + 1 && r.local == local
    {
      this.(remote := remote + 1)
    }
  }

  const InitialCommitmentNumber: nat := 0

  function InitialCommitmentNumbers(): (r: CommitmentNumbers)
    ensures r.local == r.remote == InitialCommitmentNumber
  {
    CommitmentNumbers(InitialCommitmentNumber, InitialCommitmentNumber)
  }

  lemma CommitmentFlipInvolutive(c: CommitmentNumbers)
    ensures c.Flip().Flip() == c
  {
  }

  /** The hash a TLC's payment hash is computed with; its discriminant is
      what `as u8` yields. */
  datatype HashAlgorithm = CkbHash | Sha256
  {
    function Code(): nat
    {
      match this
      case CkbHash => 0
      case Sha256 => 1
    }
  }

  datatype RemoveTlcReason =
    | RemoveTlcFulfill(paymentPreimage: Hash256)
    | RemoveTlcFail(errorPacket: seq<bv8>)

  /** The `removed_at` stamp: the commitment numbers current when the TLC was
      removed, and why. */
  datatype Removal = Removal(at: CommitmentNumbers, reason: RemoveTlcReason)

  /** An added TLC. The onion packet, shared secret, channel id and previous
      hop link are routing data the bookkeeping never inspects, and are not
      modelled. */
  datatype AddTlcInfo = AddTlcInfo(
    tlcId: TLCId,
    amount: nat,
    paymentHash: Hash256,
    expiry: nat,
    hashAlgorithm: HashAlgorithm,
    createdAt: CommitmentNumbers,
    removedAt: Option<Removal>,
    paymentPreimage: Option<Hash256>)
  {
    predicate IsOffered() { tlcId.IsOffered() }
  }

  /** The `htlc_type` byte of the commitment lock witness: the lowest bit is
      0 for an offered TLC and 1 for a received one, the bits above hold the
      hash algorithm. */
  function HtlcType(info: AddTlcInfo): (r: nat)
    ensures r < 4
    ensures r % 2 == 0 <==> info.IsOffered()
    ensures r / 2 == info.hashAlgorithm.Code()
  {
    var offeredFlag := if info.IsOffered() then 0 else 1;
    info.hashAlgorithm.Code() * 2 + offeredFlag
  }

  /** Reads an `htlc_type` byte back: the hash algorithm and whether the TLC
      was offered. */
  function ParseHtlcType(b: nat): Option<(HashAlgorithm, bool)>
  {
    if b >= 4 then None
    else Some((if b / 2 == 0 then CkbHash else Sha256, b % 2 == 0))
  }

  /** Two TLCs that differ in direction or hash algorithm never share an
      `htlc_type`: it round-trips. */
  lemma HtlcTypeRoundTrip(info: AddTlcInfo)
    ensures ParseHtlcType(HtlcType(info)) == Some((info.hashAlgorithm, info.IsOffered()))
  {
  }

  datatype RemoveTlcInfo = RemoveTlcInfo(tlcId: TLCId, reason: RemoveTlcReason)

  /** An entry of a pending TLC list: an addition or a removal. */
  datatype TlcKind = AddTlc(add: AddTlcInfo) | RemoveTlc(remove: RemoveTlcInfo)
  {
    function TlcId(): TLCId
    {
      match this
      case AddTlc(info) => info.tlcId
      case RemoveTlc(info) => info.tlcId
    }
  }

  /** Entries that a pending list may hold only once: the same kind
      (addition or removal) for the same id. */
  predicate SameEntry(a: TlcKind, b: TlcKind)
  {
    a.AddTlc? == b.AddTlc? && a.TlcId() == b.TlcId()
  }

  predicate Present(s: seq<TlcKind>, t: TlcKind)
  {
    exists i :: 0 <= i < |s| && SameEntry(s[i], t)
  }

  /** No two entries of `s` are the same kind for the same id. */
  predicate Unique(s: seq<TlcKind>)
  {
    forall i, j :: 0 <= i < j < |s| ==> !SameEntry(s[i], s[j])
  }

  /** A removal waiting to be retried. */
  datatype RetryableRemoveTlc =
    | RetryRemoveTlc(tlcId: TLCId, reason: RemoveTlcReason)
    | RelayRemoveTlc(channelId: Hash256, relayTlcId: nat, reason: RemoveTlcReason)
}
