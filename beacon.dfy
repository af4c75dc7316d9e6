/**
 * The beacon data model: the `Beacon` record an IPND node advertises, the
 * services it lists, and the two constructors `new` and `next`.
 */
module Beacons {
  import opened Types
  import opened Cbor

  /** The textual identifier (EID) of a DTN node. */
  type NodeIdentifier = string

  const NANOS_PER_SEC: int := 1_000_000_000

  type Nanos = n: int | 0 <= n < 1_000_000_000

  /** `std::time::Duration`: whole seconds plus a sub-second part in nanoseconds. */
  datatype Duration = Duration(secs: uint64, nanos: Nanos)

  /** `Duration::from_secs`. */
  function FromSecs(secs: uint64): Duration {
    Duration(secs, 0)
  }

  /** One capability or attribute a node advertises. */
  datatype Service =
    | TCPCLv4(port: uint16)                     // TCP convergence layer v4 (RFC 9174), its TCP port
    | TCPCLv3(port: uint16)                     // TCP convergence layer v3 (RFC 7242), its TCP port
    | MTCPCL(port: uint16)                      // minimal TCP convergence layer, its TCP port
    | GeoLocation(lat: FloatToken, lon: FloatToken)
    | Address(address: string)                  // the node's physical address
    | Unknown(tag: uint8, value: DataItem)      // a service this implementation does not interpret

  /** The constructor of a service with its payload forgotten (Rust's `mem::discriminant`). */
  datatype ServiceKind = KindTCPCLv4 | KindTCPCLv3 | KindMTCPCL | KindGeoLocation | KindAddress | KindUnknown

  function Kind(s: Service): (r: ServiceKind)
    ensures r == KindUnknown <==> s.Unknown?
  {
    match s
    case TCPCLv4(_) => KindTCPCLv4
    case TCPCLv3(_) => KindTCPCLv3
    case MTCPCL(_) => KindMTCPCL
    case GeoLocation(_, _) => KindGeoLocation
    case Address(_) => KindAddress
    case Unknown(_, _) => KindUnknown
  }

  /** Two services have the same kind exactly when they were built by the same constructor. */
  lemma KindIgnoresPayload(s: Service, t: Service)
    ensures Kind(s) == Kind(t) <==>
      (s.TCPCLv4? && t.TCPCLv4?) || (s.TCPCLv3? && t.TCPCLv3?) || (s.MTCPCL? && t.MTCPCL?) ||
      (s.GeoLocation? && t.GeoLocation?) || (s.Address? && t.Address?) || (s.Unknown? && t.Unknown?)
  {
  }

  /** A beacon sent periodically to advertise a DTN node. */
  datatype Beacon = Beacon(
    version: uint8,
    nodeId: Option<NodeIdentifier>,
    sequenceNumber: uint64,
    services: seq<Service>,
    period: Option<Duration>)

  /** The only beacon version this implementation reads. */
  const SUPPORTED_VERSION: uint8 := 8

  /** `Beacon::new`: a version 8 beacon with every optional part absent. */
  function New(): (r: Beacon)
    ensures r.version == 8 && r.sequenceNumber == 0
    ensures r.nodeId.None? && r.services == [] && r.period.None?
  {
    Beacon(SUPPORTED_VERSION, None, 0, [], None)
  }

  /**
   * `Beacon::next`: a copy of the beacon whose sequence number is one more,
   * wrapping from 2^64 - 1 to 0. The beacon it is applied to is a value and
   * stays as it was.
   */
  function Next(b: Beacon): (r: Beacon)
    ensures r.version == b.version && r.nodeId == b.nodeId && r.services == b.services && r.period == b.period
    ensures b.sequenceNumber < UINT64_MAX ==> r.sequenceNumber == b.sequenceNumber + 1
    ensures b.sequenceNumber == UINT64_MAX ==> r.sequenceNumber == 0
  {
    b.(sequenceNumber := WrappingAdd(b.sequenceNumber, 1))
  }

  /** The beacon after `k` calls of `next`. */
  function Advance(b: Beacon, k: nat): Beacon {
    if k == 0 then b else Next(Advance(b, k - 1))
  }

  /** After `k` calls of `next` only the sequence number has moved, to (s + k) mod 2^64. */
  lemma {:induction false} AdvanceSequence(b: Beacon, k: nat)
    ensures Advance(b, k) == b.(sequenceNumber := (b.sequenceNumber + k) % UINT64_MODULUS)
  {
    if k > 0 {
      AdvanceSequence(b, k - 1);
      var s := (b.sequenceNumber + k - 1) % UINT64_MODULUS;
      assert (s + 1) % UINT64_MODULUS == (b.sequenceNumber + k) % UINT64_MODULUS;
    }
  }
}
