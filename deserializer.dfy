/**
 * Decoding a beacon from CBOR data items. The two visitors read the elements of
 * an array one at a time, as a sequence cursor hands them out; the CBOR library
 * around them insists that the value is an array and that no element is left
 * unread when the visitor returns.
 */
module BeaconDeserializer {
  import opened Types
  import opened Cbor
  import opened BeaconFlags
  import opened Beacons

  datatype DecodeError =
    | UnsupportedVersion(version: uint8)  // the custom "Unsupported beacon format" error
    | MissingField(field: string)         // the cursor ran out before a required element
    | InvalidType                         // an element of the wrong CBOR type
    | InvalidValue                        // an integer outside the range of its target
    | InvalidLength                       // a fixed-size tuple with too few elements
    | TrailingData                        // an array with elements left unread
    | Syntax                              // bytes that are not one well-formed CBOR data item

  /** Reading a `u8`. */
  function AsU8(c: DataItem): Result<uint8, DecodeError> {
    match c
    case UInt(n) => if n < 0x100 then Success(n) else Failure(InvalidValue)
    case NegInt(_) => Failure(InvalidValue)
    case _ => Failure(InvalidType)
  }

  /** Reading a `u16`. */
  function AsU16(c: DataItem): Result<uint16, DecodeError> {
    match c
    case UInt(n) => if n < 0x1_0000 then Success(n) else Failure(InvalidValue)
    case NegInt(_) => Failure(InvalidValue)
    case _ => Failure(InvalidType)
  }

  /** Reading a `u64`. */
  function AsU64(c: DataItem): Result<uint64, DecodeError> {
    match c
    case UInt(n) => Success(n)
    case NegInt(_) => Failure(InvalidValue)
    case _ => Failure(InvalidType)
  }

  /** Reading a `String`. */
  function AsText(c: DataItem): Result<string, DecodeError> {
    if c.Text? then Success(c.text) else Failure(InvalidType)
  }

  /** Reading an `f32`. */
  function AsFloat(c: DataItem): Result<FloatToken, DecodeError> {
    if c.Float? then Success(c.value) else Failure(InvalidType)
  }

  /** Reading an `(f32, f32)` tuple: exactly two elements, each a float. */
  function AsLatLon(c: DataItem): Result<(FloatToken, FloatToken), DecodeError> {
    if !c.Array? then Failure(InvalidType)
    else if |c.items| < 1 then Failure(InvalidLength)
    else
      var lat :- AsFloat(c.items[0]);
      if |c.items| < 2 then Failure(InvalidLength)
      else
        var lon :- AsFloat(c.items[1]);
        if |c.items| > 2 then Failure(TrailingData) else Success((lat, lon))
  }

  // `seq.next_element()?.ok_or(Error::missing_field(field))?` for element `i`:
  // past the end of the array the named field is missing, otherwise the element
  // is read with the type the visitor asks for.

  function ElementU8(items: seq<DataItem>, i: nat, field: string): Result<uint8, DecodeError> {
    if i < |items| then AsU8(items[i]) else Failure(MissingField(field))
  }

  function ElementU16(items: seq<DataItem>, i: nat, field: string): Result<uint16, DecodeError> {
    if i < |items| then AsU16(items[i]) else Failure(MissingField(field))
  }

  function ElementU64(items: seq<DataItem>, i: nat, field: string): Result<uint64, DecodeError> {
    if i < |items| then AsU64(items[i]) else Failure(MissingField(field))
  }

  function ElementText(items: seq<DataItem>, i: nat, field: string): Result<string, DecodeError> {
    if i < |items| then AsText(items[i]) else Failure(MissingField(field))
  }

  function ElementLatLon(items: seq<DataItem>, i: nat, field: string): Result<(FloatToken, FloatToken), DecodeError> {
    if i < |items| then AsLatLon(items[i]) else Failure(MissingField(field))
  }

  function ElementValue(items: seq<DataItem>, i: nat, field: string): Result<DataItem, DecodeError> {
    if i < |items| then Success(items[i]) else Failure(MissingField(field))
  }

  function ElementServices(items: seq<DataItem>, i: nat, field: string): Result<seq<Service>, DecodeError> {
    if i >= |items| then Failure(MissingField(field))
    else if !items[i].Array? then Failure(InvalidType)
    else DecodeServiceList(items[i].items)
  }

  /** The tags of the services this implementation interprets. */
  predicate IsKnownTag(tag: int) {
    tag == 0 || tag == 1 || tag == 2 || tag == 64 || tag == 65
  }

  /**
   * `ServiceVisitor::visit_seq`: read the tag, then the payload the tag calls
   * for; any other tag keeps its payload as it came. Returns the service and
   * the number of elements read.
   */
  function VisitService(items: seq<DataItem>): (r: Result<(Service, nat), DecodeError>)
    ensures |items| == 0 ==> r == Failure(MissingField("service tag"))
    ensures r.Success? ==> r.value.1 == 2 <= |items| && items[0].UInt? && items[0].n < 0x100
    ensures r.Success? ==> (r.value.0.Unknown? <==> !IsKnownTag(items[0].n))
    ensures r.Success? && r.value.0.Unknown? ==> r.value.0.value == items[1]
  {
    var tag :- ElementU8(items, 0, "service tag");
    if tag == 0 then
      var port :- ElementU16(items, 1, "convergence layer port");
      Success((TCPCLv4(port), 2))
    else if tag == 1 then
      var port :- ElementU16(items, 1, "convergence layer port");
      Success((TCPCLv3(port), 2))
    else if tag == 2 then
      var port :- ElementU16(items, 1, "convergence layer port");
      Success((MTCPCL(port), 2))
    else if tag == 64 then
      var latLon :- ElementLatLon(items, 1, "geo location data");
      Success((GeoLocation(latLon.0, latLon.1), 2))
    else if tag == 65 then
      var address :- ElementText(items, 1, "address string");
      Success((Address(address), 2))
    else
      var data :- ElementValue(items, 1, "service data");
      Success((Unknown(tag, data), 2))
  }

  /** `Deserialize for Service`: a 2-tuple, that is an array read to its end by the visitor. */
  function DeserializeService(c: DataItem): (r: Result<Service, DecodeError>)
    ensures !c.Array? ==> r == Failure(InvalidType)
    ensures r.Success? ==> c.Array? && |c.items| == 2 && c.items[0].UInt?
    ensures r.Success? ==> (r.value.Unknown? <==> !IsKnownTag(c.items[0].n))
  {
    if !c.Array? then Failure(InvalidType)
    else
      var visited :- VisitService(c.items);
      if visited.1 < |c.items| then Failure(TrailingData) else Success(visited.0)
  }

  /** `Vec<Service>`: the services of an array in order, stopping at the first that fails. */
  function DecodeServiceList(items: seq<DataItem>): (r: Result<seq<Service>, DecodeError>)
    ensures r.Success? <==> forall i :: 0 <= i < |items| ==> DeserializeService(items[i]).Success?
    ensures r.Success? ==> |r.value| == |items|
    ensures r.Success? ==> forall i :: 0 <= i < |items| ==> DeserializeService(items[i]) == Success(r.value[i])
  {
    if items == [] then Success([])
    else
      assert forall i :: 1 <= i < |items| ==> items[i] == items[1..][i - 1];
      var s :- DeserializeService(items[0]);
      var rest :- DecodeServiceList(items[1..]);
      Success([s] + rest)
  }

  /** The node id element, read only when its flag bit is set. */
  function OptionalNodeId(items: seq<DataItem>, i: nat, present: bool): Result<Option<NodeIdentifier>, DecodeError> {
    if !present then Success(None)
    else
      var nodeId :- ElementText(items, i, "beacon source node ID");
      Success(Some(nodeId))
  }

  /** The service block, read only when its flag bit is set; absent means no services. */
  function OptionalServices(items: seq<DataItem>, i: nat, present: bool): Result<seq<Service>, DecodeError> {
    if !present then Success([]) else ElementServices(items, i, "beacon service block")
  }

  /** The period element, whole seconds, read only when its flag bit is set. */
  function OptionalPeriod(items: seq<DataItem>, i: nat, present: bool): Result<Option<Duration>, DecodeError> {
    if !present then Success(None)
    else
      var secs :- ElementU64(items, i, "beacon period");
      Success(Some(FromSecs(secs)))
  }

  /** The names of the fields `flags` announces, in the order they are read. */
  function FlaggedFields(flags: uint8): seq<string> {
    var f := flags as bv8;
    (if Has(f, SOURCE_EID_PRESENT) then ["beacon source node ID"] else [])
    + (if Has(f, SERVICE_BLOCK_PRESENT) then ["beacon service block"] else [])
    + (if Has(f, BEACON_PERIOD_PRESENT) then ["beacon period"] else [])
  }

  /**
   * The flagged part of `BeaconVisitor::visit_seq`, over the elements that
   * follow the sequence number: node id, services and period in that order,
   * each read only if its bit is set in `flags`. Returns the three fields and
   * the number of elements read.
   */
  function VisitOptionalFields(rest: seq<DataItem>, flags: uint8)
    : (r: Result<(Option<NodeIdentifier>, seq<Service>, Option<Duration>, nat), DecodeError>)
    ensures |rest| < |FlaggedFields(flags)| ==> r.Failure?
    ensures r.Success? ==> r.value.3 == |FlaggedFields(flags)| <= |rest|
    ensures r.Success? ==> (r.value.0.Some? <==> Has(flags as bv8, SOURCE_EID_PRESENT))
    ensures r.Success? ==> (r.value.2.Some? <==> Has(flags as bv8, BEACON_PERIOD_PRESENT))
    ensures r.Success? && !Has(flags as bv8, SERVICE_BLOCK_PRESENT) ==> r.value.1 == []
    ensures r.Success? && r.value.2.Some? ==> r.value.2.value.nanos == 0
  {
    var f := flags as bv8;
    var hasNodeId, hasServices, hasPeriod :=
      Has(f, SOURCE_EID_PRESENT), Has(f, SERVICE_BLOCK_PRESENT), Has(f, BEACON_PERIOD_PRESENT);
    var nodeId :- OptionalNodeId(rest, 0, hasNodeId);
    var servicesAt := if hasNodeId then 1 else 0;
    var services :- OptionalServices(rest, servicesAt, hasServices);
    var periodAt := servicesAt + (if hasServices then 1 else 0);
    var period :- OptionalPeriod(rest, periodAt, hasPeriod);
    Success((nodeId, services, period, periodAt + (if hasPeriod then 1 else 0)))
  }

  /**
   * `BeaconVisitor::visit_seq`: version (anything but 8 stops here), flags and
   * sequence number, then the optional fields their flag bits announce.
   * Returns the beacon and the number of elements read.
   */
  function VisitBeacon(items: seq<DataItem>): (r: Result<(Beacon, nat), DecodeError>)
    ensures r.Success? ==> r.value.0.version == SUPPORTED_VERSION
    ensures r.Success? ==> 3 <= r.value.1 <= |items| && r.value.1 <= 6
    ensures r.Success? ==> items[2] == UInt(r.value.0.sequenceNumber)
  {
    var version :- ElementU8(items, 0, "beacon version");
    if version != SUPPORTED_VERSION then Failure(UnsupportedVersion(version))
    else
      var flags :- ElementU8(items, 1, "beacon flags");
      var sequenceNumber :- ElementU64(items, 2, "beacon sequence number");
      var fields :- VisitOptionalFields(items[3..], flags);
      Success((Beacon(version, fields.0, sequenceNumber, fields.1, fields.2), 3 + fields.3))
  }

  /** `Deserialize for Beacon`: an array that the beacon visitor reads to its end. */
  function DeserializeBeacon(c: DataItem): (r: Result<Beacon, DecodeError>)
    ensures !c.Array? ==> r == Failure(InvalidType)
    ensures r.Success? ==> r.value.version == SUPPORTED_VERSION && 3 <= |c.items| <= 6
    ensures r.Success? && r.value.period.Some? ==> r.value.period.value.nanos == 0
  {
    if !c.Array? then Failure(InvalidType)
    else
      var visited :- VisitBeacon(c.items);
      if visited.1 < |c.items| then Failure(TrailingData) else Success(visited.0)
  }
}
