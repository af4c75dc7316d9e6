/**
 * Encoding a beacon as CBOR data items: a beacon is an array
 * [version, flags, sequence number, node id?, services?, period?] and each
 * service a 2-tuple (tag, payload).
 */
module BeaconSerializer {
  import opened Types
  import opened Cbor
  import opened BeaconFlags
  import opened Beacons

  /** The flags byte: one bit per optional field that is present, nothing else. */
  function Flags(b: Beacon): (f: bv8)
    ensures Has(f, SOURCE_EID_PRESENT) <==> b.nodeId.Some?
    ensures Has(f, SERVICE_BLOCK_PRESENT) <==> |b.services| > 0
    ensures Has(f, BEACON_PERIOD_PRESENT) <==> b.period.Some?
    ensures f & !ASSIGNED_BITS == 0
  {
    (if b.nodeId.Some? then SOURCE_EID_PRESENT else 0) |
    (if |b.services| > 0 then SERVICE_BLOCK_PRESENT else 0) |
    (if b.period.Some? then BEACON_PERIOD_PRESENT else 0)
  }

  /** The number of optional fields that are present, hence emitted. */
  function OptionalCount(b: Beacon): nat {
    (if b.nodeId.Some? then 1 else 0) + (if |b.services| > 0 then 1 else 0) + (if b.period.Some? then 1 else 0)
  }

  /** The tag a service is emitted with; an unknown service keeps its own tag. */
  function ServiceTag(s: Service): (r: uint8)
    ensures s.Unknown? ==> r == s.tag
    ensures !s.Unknown? ==> r == 0 || r == 1 || r == 2 || r == 64 || r == 65
  {
    match s
    case TCPCLv4(_) => 0
    case TCPCLv3(_) => 1
    case MTCPCL(_) => 2
    case GeoLocation(_, _) => 64
    case Address(_) => 65
    case Unknown(tag, _) => tag
  }

  /** The second element of a service tuple. */
  function ServicePayload(s: Service): (r: DataItem)
    ensures s.TCPCLv4? || s.TCPCLv3? || s.MTCPCL? ==> r.UInt? && r.n < 0x1_0000
    ensures s.GeoLocation? ==> r.Array? && |r.items| == 2 && r.items[0].Float? && r.items[1].Float?
    ensures s.Address? ==> r.Text?
    ensures s.Unknown? ==> r == s.value
  {
    match s
    case TCPCLv4(port) => UInt(port)
    case TCPCLv3(port) => UInt(port)
    case MTCPCL(port) => UInt(port)
    case GeoLocation(lat, lon) => Array([Float(lat), Float(lon)])
    case Address(address) => Text(address)
    case Unknown(_, value) => value
  }

  /** `Serialize for Service`: the 2-tuple (tag, payload). */
  function EncodeService(s: Service): (r: DataItem)
    ensures r.Array? && |r.items| == 2 && r.items[0].UInt? && r.items[0].n < 0x100
  {
    Array([UInt(ServiceTag(s)), ServicePayload(s)])
  }

  /** The service list, one tuple per service, in list order. */
  function EncodeServices(ss: seq<Service>): (r: seq<DataItem>)
    ensures |r| == |ss|
    ensures forall i :: 0 <= i < |ss| ==> r[i] == EncodeService(ss[i])
  {
    if ss == [] then [] else [EncodeService(ss[0])] + EncodeServices(ss[1..])
  }

  /** The elements of the beacon array, in the fixed order of the format. */
  function BeaconElements(b: Beacon): (r: seq<DataItem>)
    ensures 3 <= |r| == 3 + OptionalCount(b) <= 6
  {
    [UInt(b.version), UInt(Flags(b) as int), UInt(b.sequenceNumber)]
    + (if b.nodeId.Some? then [Text(b.nodeId.value)] else [])
    + (if |b.services| > 0 then [Array(EncodeServices(b.services))] else [])
    + (if b.period.Some? then [UInt(b.period.value.secs)] else [])
  }

  /** `Serialize for Beacon`, as the data item the CBOR library writes out. */
  function EncodeBeacon(b: Beacon): (r: DataItem)
    ensures r.Array? && 3 <= |r.items| <= 6
    ensures r.items[0] == UInt(b.version) && r.items[2] == UInt(b.sequenceNumber)
  {
    Array(BeaconElements(b))
  }

  /**
   * `Serialize for Beacon` step by step: the flags and the declared length are
   * accumulated first, then the elements are appended one at a time. The length
   * declared to the sequence serializer is the number of elements appended.
   */
  method Serialize(b: Beacon) returns (declared: nat, item: DataItem)
    ensures item == EncodeBeacon(b)
    ensures declared == |item.items| == 3 + OptionalCount(b)
  {
    var f: bv8 := 0;
    var l := 3;
    if b.nodeId.Some? {
      f := f | SOURCE_EID_PRESENT;
      l := l + 1;
    }
    if |b.services| > 0 {
      f := f | SERVICE_BLOCK_PRESENT;
      l := l + 1;
    }
    if b.period.Some? {
      f := f | BEACON_PERIOD_PRESENT;
      l := l + 1;
    }
    var elements := [UInt(b.version)];
    elements := elements + [UInt(f as int)];
    elements := elements + [UInt(b.sequenceNumber)];
    if b.nodeId.Some? {
      elements := elements + [Text(b.nodeId.value)];
    }
    if |b.services| > 0 {
      elements := elements + [Array(EncodeServices(b.services))];
    }
    if b.period.Some? {
      elements := elements + [UInt(b.period.value.secs)];
    }
    declared, item := l, Array(elements);
  }

  /**
   * Where each field lands: version (as stored, not forced to 8), flags and
   * sequence number first, then node id, service block and period in that
   * order, each right after the fields before it that are present.
   */
  lemma ElementLayout(b: Beacon)
    ensures var e := BeaconElements(b);
      var servicesAt := 3 + (if b.nodeId.Some? then 1 else 0);
      && |e| == 3 + OptionalCount(b)
      && e[0] == UInt(b.version) && e[1] == UInt(Flags(b) as int) && e[2] == UInt(b.sequenceNumber)
      && (b.nodeId.Some? ==> e[3] == Text(b.nodeId.value))
      && (|b.services| > 0 ==> e[servicesAt] == Array(EncodeServices(b.services)))
      && (b.period.Some? ==> e[|e| - 1] == UInt(b.period.value.secs))
  {
  }

  /** An empty service list is left out, never written as an empty array. */
  lemma NoEmptyServiceBlock(b: Beacon)
    ensures Array([]) !in BeaconElements(b)
  {
    assert |b.services| > 0 ==> |EncodeServices(b.services)| > 0;
  }

  /** The period goes out as whole seconds: its sub-second part never reaches the wire. */
  lemma SubSecondPeriodDropped(b: Beacon, secs: uint64, nanos: Nanos)
    ensures EncodeBeacon(b.(period := Some(Duration(secs, nanos)))) == EncodeBeacon(b.(period := Some(FromSecs(secs))))
  {
  }

  /** Known services are told apart by their tags. */
  lemma KnownTagsIdentifyKind(s: Service, t: Service)
    requires !s.Unknown? && !t.Unknown?
    ensures ServiceTag(s) == ServiceTag(t) <==> Kind(s) == Kind(t)
  {
  }

  /**
   * An unknown service writes its stored tag and payload verbatim, even when
   * the tag belongs to a known service: with that service's payload it is the
   * same tuple as the known service.
   */
  lemma UnknownTagCollides(t: uint8, v: DataItem)
    ensures EncodeService(Unknown(t, v)) == Array([UInt(t), v])
    ensures v.UInt? && v.n < 0x1_0000 ==>
      && (t == 0 ==> EncodeService(Unknown(t, v)) == EncodeService(TCPCLv4(v.n)))
      && (t == 1 ==> EncodeService(Unknown(t, v)) == EncodeService(TCPCLv3(v.n)))
      && (t == 2 ==> EncodeService(Unknown(t, v)) == EncodeService(MTCPCL(v.n)))
    ensures t == 64 && v.Array? && |v.items| == 2 && v.items[0].Float? && v.items[1].Float? ==>
      EncodeService(Unknown(t, v)) == EncodeService(GeoLocation(v.items[0].value, v.items[1].value))
    ensures t == 65 && v.Text? ==> EncodeService(Unknown(t, v)) == EncodeService(Address(v.text))
  {
    if t == 64 && v.Array? && |v.items| == 2 && v.items[0].Float? && v.items[1].Float? {
      assert v == Array([Float(v.items[0].value), Float(v.items[1].value)]);
    }
  }
}
