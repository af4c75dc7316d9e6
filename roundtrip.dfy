/** What the encoder and the decoder promise about each other. */
module BeaconCodec {
  import opened Types
  import opened Cbor
  import opened BeaconFlags
  import opened Beacons
  import opened BeaconSerializer
  import opened BeaconDeserializer

  /** A service the decoder gives back as it was encoded: an unknown one must not use a known tag. */
  predicate ServiceRoundTrips(s: Service) {
    s.Unknown? ==> !IsKnownTag(s.tag)
  }

  /**
   * A beacon the decoder gives back as it was encoded: version 8, a period of
   * whole seconds, and no unknown service hiding behind a known tag.
   */
  predicate RoundTrips(b: Beacon) {
    && b.version == SUPPORTED_VERSION
    && (b.period.Some? ==> b.period.value.nanos == 0)
    && forall i :: 0 <= i < |b.services| ==> ServiceRoundTrips(b.services[i])
  }

  /** Decoding an encoded service gives it back. */
  lemma ServiceRoundTrip(s: Service)
    requires ServiceRoundTrips(s)
    ensures DeserializeService(EncodeService(s)) == Success(s)
  {
  }

  /** Decoding an encoded service list gives it back, in order. */
  lemma {:induction false} ServicesRoundTrip(ss: seq<Service>)
    requires forall i :: 0 <= i < |ss| ==> ServiceRoundTrips(ss[i])
    ensures DecodeServiceList(EncodeServices(ss)) == Success(ss)
  {
    if ss != [] {
      ServiceRoundTrip(ss[0]);
      ServicesRoundTrip(ss[1..]);
      assert EncodeServices(ss)[1..] == EncodeServices(ss[1..]);
      assert [ss[0]] + ss[1..] == ss;
    }
  }

  /** Round trip: every beacon that meets `RoundTrips` decodes from its encoding unchanged. */
  lemma BeaconRoundTrip(b: Beacon)
    requires RoundTrips(b)
    ensures DeserializeBeacon(EncodeBeacon(b)) == Success(b)
  {
    var f := Flags(b);
    assert (f as int) as bv8 == f;
    if |b.services| > 0 {
      ServicesRoundTrip(b.services);
    }
    ElementLayout(b);
  }

  /** Every service the decoder produces meets `ServiceRoundTrips`: known tags are always dispatched. */
  lemma DecodedServiceRoundTrips(c: DataItem, s: Service)
    requires DeserializeService(c) == Success(s)
    ensures ServiceRoundTrips(s)
  {
  }

  lemma {:induction false} DecodedServicesRoundTrip(items: seq<DataItem>, ss: seq<Service>)
    requires DecodeServiceList(items) == Success(ss)
    ensures forall i :: 0 <= i < |ss| ==> ServiceRoundTrips(ss[i])
  {
    if items != [] {
      var s := DeserializeService(items[0]).value;
      var rest := DecodeServiceList(items[1..]).value;
      DecodedServiceRoundTrips(items[0], s);
      DecodedServicesRoundTrip(items[1..], rest);
      assert ss == [s] + rest;
    }
  }

  /** Every beacon the decoder produces meets `RoundTrips`. */
  lemma DecodedBeaconRoundTrips(c: DataItem, b: Beacon)
    requires DeserializeBeacon(c) == Success(b)
    ensures RoundTrips(b)
  {
    var rest := c.items[3..];
    var f := (AsU8(c.items[1]).value) as bv8;
    if Has(f, SERVICE_BLOCK_PRESENT) {
      var at := if Has(f, SOURCE_EID_PRESENT) then 1 else 0;
      DecodedServicesRoundTrip(rest[at].items, b.services);
    }
  }

  /** Re-encoding a decoded beacon and decoding again changes nothing. */
  lemma DecodeEncodeDecode(c: DataItem, b: Beacon)
    requires DeserializeBeacon(c) == Success(b)
    ensures DeserializeBeacon(EncodeBeacon(b)) == Success(b)
  {
    DecodedBeaconRoundTrips(c, b);
    BeaconRoundTrip(b);
  }

  /** Services decode and re-encode exactly: the service tuple is a faithful format both ways. */
  lemma ServiceDecodeEncode(c: DataItem, s: Service)
    requires DeserializeService(c) == Success(s)
    ensures EncodeService(s) == c
  {
    var tag := AsU8(c.items[0]).value;
    if tag == 64 {
      assert c.items[1] == Array([Float(s.lat), Float(s.lon)]);
    }
    assert c.items == [UInt(tag), c.items[1]];
  }

  /**
   * Beacons do not re-encode exactly: a set service-block bit with an empty
   * array decodes to no services, which the encoder then writes as absent.
   */
  lemma EmptyServiceBlockNotReproduced()
    ensures var c := Array([UInt(8), UInt(2), UInt(0), Array([])]);
      && DeserializeBeacon(c) == Success(Beacon(8, None, 0, [], None))
      && EncodeBeacon(Beacon(8, None, 0, [], None)) == Array([UInt(8), UInt(0), UInt(0)])
      && EncodeBeacon(Beacon(8, None, 0, [], None)) != c
  {
    var c := Array([UInt(8), UInt(2), UInt(0), Array([])]);
    assert VisitBeacon(c.items) == Success((Beacon(8, None, 0, [], None), 4));
  }

  /** The version gate: any first element other than 8 fails with that version, whatever follows. */
  lemma VersionGate(items: seq<DataItem>, v: uint8)
    requires |items| > 0 && items[0] == UInt(v) && v != SUPPORTED_VERSION
    ensures DeserializeBeacon(Array(items)) == Failure(UnsupportedVersion(v))
  {
  }

  /** A missing version, flags or sequence number is reported as that missing field. */
  lemma MissingHeaderFields(f: uint8)
    ensures DeserializeBeacon(Array([])) == Failure(MissingField("beacon version"))
    ensures DeserializeBeacon(Array([UInt(8)])) == Failure(MissingField("beacon flags"))
    ensures DeserializeBeacon(Array([UInt(8), UInt(f)])) == Failure(MissingField("beacon sequence number"))
  {
  }

  /** An element the decoder accepts for the optional field `field`. */
  predicate FitsField(field: string, c: DataItem) {
    if field == "beacon source node ID" then c.Text?
    else if field == "beacon service block" then c.Array? && DecodeServiceList(c.items).Success?
    else c.UInt?
  }

  /**
   * Fewer elements after the header than flagged fields is an error; when the
   * elements there are all acceptable, it is the missing field of the first
   * flagged field that has no element, in the order node id, services, period.
   */
  lemma FlaggedFieldMissing(f: uint8, s: uint64, rest: seq<DataItem>)
    requires |rest| < |FlaggedFields(f)|
    ensures var r := DeserializeBeacon(Array([UInt(8), UInt(f), UInt(s)] + rest));
      && r.Failure?
      && ((forall j :: 0 <= j < |rest| ==> FitsField(FlaggedFields(f)[j], rest[j])) ==>
            r == Failure(MissingField(FlaggedFields(f)[|rest|])))
  {
    var items := [UInt(8), UInt(f), UInt(s)] + rest;
    assert items[3..] == rest;
  }

  /** With no assigned flag bit set the header is the whole beacon, and anything after it is trailing data. */
  lemma UnflaggedBeacon(f: uint8, s: uint64, rest: seq<DataItem>)
    requires (f as bv8) & ASSIGNED_BITS == 0
    ensures DeserializeBeacon(Array([UInt(8), UInt(f), UInt(s)] + rest))
         == if rest == [] then Success(Beacon(8, None, s, [], None)) else Failure(TrailingData)
  {
    var items := [UInt(8), UInt(f), UInt(s)] + rest;
    assert items[3..] == rest;
    HasIgnoresReservedBits(f as bv8, SOURCE_EID_PRESENT);
    HasIgnoresReservedBits(f as bv8, SERVICE_BLOCK_PRESENT);
    HasIgnoresReservedBits(f as bv8, BEACON_PERIOD_PRESENT);
  }

  /** Two flags bytes that agree on the assigned bits select the same optional fields. */
  lemma OptionalFieldsIgnoreReservedBits(rest: seq<DataItem>, n: uint8, m: uint8)
    requires (n as bv8) & ASSIGNED_BITS == (m as bv8) & ASSIGNED_BITS
    ensures VisitOptionalFields(rest, n) == VisitOptionalFields(rest, m)
  {
    var f, g := n as bv8, m as bv8;
    HasIgnoresReservedBits(f, SOURCE_EID_PRESENT);
    HasIgnoresReservedBits(f, SERVICE_BLOCK_PRESENT);
    HasIgnoresReservedBits(f, BEACON_PERIOD_PRESENT);
    HasIgnoresReservedBits(g, SOURCE_EID_PRESENT);
    HasIgnoresReservedBits(g, SERVICE_BLOCK_PRESENT);
    HasIgnoresReservedBits(g, BEACON_PERIOD_PRESENT);
  }

  /** The flags element reaches the visitor's result only through the optional fields it selects. */
  lemma VisitBeaconThroughOptionalFields(a: seq<DataItem>, b: seq<DataItem>)
    requires |a| == |b| >= 3 && a[0] == b[0] && a[2] == b[2] && a[3..] == b[3..]
    requires AsU8(a[1]).Success? && AsU8(b[1]).Success?
    requires VisitOptionalFields(a[3..], AsU8(a[1]).value) == VisitOptionalFields(b[3..], AsU8(b[1]).value)
    ensures VisitBeacon(a) == VisitBeacon(b)
  {
  }

  /** Bits 3 to 7 of the flags byte have no effect on the decoded beacon. */
  lemma ReservedBitsIgnored(items: seq<DataItem>, n: uint8, m: uint8)
    requires |items| >= 2 && (n as bv8) & ASSIGNED_BITS == (m as bv8) & ASSIGNED_BITS
    ensures DeserializeBeacon(Array(items[1 := UInt(n)])) == DeserializeBeacon(Array(items[1 := UInt(m)]))
  {
    var a, b := items[1 := UInt(n)], items[1 := UInt(m)];
    if |items| >= 3 {
      assert a[3..] == items[3..] == b[3..];
      OptionalFieldsIgnoreReservedBits(items[3..], n, m);
      VisitBeaconThroughOptionalFields(a, b);
    }
  }

  /**
   * Tag dispatch: 0, 1 and 2 are the convergence layers with their port, 64 a
   * location, 65 an address, and any other tag an unknown service holding the
   * tag and the payload exactly as received.
   */
  lemma TagDispatch(tag: uint8, v: DataItem)
    ensures var r := DeserializeService(Array([UInt(tag), v]));
      && (tag == 0 && v.UInt? && v.n < 0x1_0000 ==> r == Success(TCPCLv4(v.n)))
      && (tag == 1 && v.UInt? && v.n < 0x1_0000 ==> r == Success(TCPCLv3(v.n)))
      && (tag == 2 && v.UInt? && v.n < 0x1_0000 ==> r == Success(MTCPCL(v.n)))
      && (tag == 64 && v.Array? && |v.items| == 2 && v.items[0].Float? && v.items[1].Float? ==>
            r == Success(GeoLocation(v.items[0].value, v.items[1].value)))
      && (tag == 65 && v.Text? ==> r == Success(Address(v.text)))
      && (!IsKnownTag(tag) ==> r == Success(Unknown(tag, v)))
  {
  }

  /**
   * An unknown service stored under a known tag never comes back as itself:
   * the decoder either dispatches it to the known service or rejects it.
   */
  lemma UnknownWithKnownTagDoesNotRoundTrip(t: uint8, v: DataItem)
    requires IsKnownTag(t)
    ensures DeserializeService(EncodeService(Unknown(t, v))) != Success(Unknown(t, v))
    ensures t == 0 && v.UInt? && v.n < 0x1_0000 ==>
      DeserializeService(EncodeService(Unknown(t, v))) == Success(TCPCLv4(v.n))
  {
  }

  /** A period with a sub-second part comes back as its whole seconds. */
  lemma PeriodComesBackWhole(b: Beacon, secs: uint64, nanos: Nanos)
    requires RoundTrips(b.(period := None))
    ensures DeserializeBeacon(EncodeBeacon(b.(period := Some(Duration(secs, nanos)))))
         == Success(b.(period := Some(FromSecs(secs))))
  {
    SubSecondPeriodDropped(b, secs, nanos);
    BeaconRoundTrip(b.(period := Some(FromSecs(secs))));
  }

  /** A fresh beacon is the three-element array [8, 0, 0] and decodes back to itself. */
  lemma NewBeaconWire()
    ensures EncodeBeacon(New()) == Array([UInt(8), UInt(0), UInt(0)])
    ensures DeserializeBeacon(EncodeBeacon(New())) == Success(New())
  {
    BeaconRoundTrip(New());
  }

  /**
   * Version 8, flags 0b111, sequence 5, node "node-A", one TCPCLv3 service on
   * port 4556 and a 30 s period make a six-element array that decodes back.
   */
  lemma FullBeaconScenario()
    ensures var b := Beacon(8, Some("node-A"), 5, [TCPCLv3(4556)], Some(FromSecs(30)));
      && EncodeBeacon(b) == Array([UInt(8), UInt(7), UInt(5), Text("node-A"),
                                   Array([Array([UInt(1), UInt(4556)])]), UInt(30)])
      && DeserializeBeacon(EncodeBeacon(b)) == Success(b)
  {
    var b := Beacon(8, Some("node-A"), 5, [TCPCLv3(4556)], Some(FromSecs(30)));
    assert EncodeServices(b.services) == [Array([UInt(1), UInt(4556)])];
    BeaconRoundTrip(b);
  }

  /** `next` keeps a beacon inside `RoundTrips`, so every beacon an announcer derives decodes. */
  lemma AdvanceRoundTrips(b: Beacon, k: nat)
    requires RoundTrips(b)
    ensures RoundTrips(Advance(b, k))
    ensures DeserializeBeacon(EncodeBeacon(Advance(b, k))) == Success(Advance(b, k))
  {
    AdvanceSequence(b, k);
    BeaconRoundTrip(Advance(b, k));
  }
}
