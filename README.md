# archipel-ipbeacon, modelled in Dafny

archipel-ipbeacon is a neighbour-discovery daemon for a DTN node, based on IPND
beacons. Every period it sends a beacon to link-local broadcast or multicast
addresses and to configured unicast peers. A beacon carries a version, flags,
a sequence number, an optional node id, a list of services and an optional
period. The receiving side decodes each beacon it hears. It drops its own
beacons and stale ones, keeps a table of the last sequence number seen per
source address, and asks the routing agent for a contact when the neighbour
offers a convergence layer this node offers too.

The model covers three parts:

- **The beacon codec** (`types.dfy`, `cbor.dfy`, `flags.dfy`, `beacon.dfy`,
  `serializer.dfy`, `deserializer.dfy`, `roundtrip.dfy`).
  - It works on CBOR data items, as defined in RFC 8949 section 3, not on bytes.
  - The encoder is a function plus the accumulating `Serialize` method.
  - The decoder is a pair of visitor functions over the element list. They
    return `Result` with the errors the CBOR library reports.
  - The round trip is proved in both directions, and so are the presence
    flags, the version gate, the tag dispatch and the counterexamples.
- **The receiver** (`net.dfy`, `receiver.dfy`).
  - `try_beacon` is a method on a class that holds the sequence-number table.
    It is proved equal to the early-return chain stated as the functions
    `Verdict` and `NextTable`, whose properties are lemmas.
  - The receive loop is a method over a list of datagrams, proved equal to
    `ReplayAll`. Lemmas about whole runs show that the table never goes
    down and that the sequence numbers admitted per source strictly increase.
- **The announcer** (`announcer.dfy`).
  - One loop round is a method that appends one attempt per destination to a
    send log and then advances the beacon with `next`.
  - The loop is a method over the rounds completed before shutdown.

## Model

| member | source | states |
|---|---|---|
| BeaconFlags.FlagsAreSingleBits | src/beacon/flags.rs:2-8 | the three flag constants are bit 0, bit 1 and bit 2 |
| BeaconFlags.FlagsDisjoint | src/beacon/flags.rs:2-8 | the three masks are pairwise disjoint and OR to 7, so bits 3-7 are unassigned |
| BeaconFlags.HasIgnoresReservedBits | src/beacon/deserializer.rs:41-57 | the decoder's `flags & MASK == MASK` test for any of the three masks depends only on bits 0-2 |
| Beacons.KindIgnoresPayload | src/discovery/receiver.rs:22-26 | two services have the same kind (`discriminant`) iff they come from the same constructor, whatever their payloads |
| Beacons.Kind | src/discovery/receiver.rs:25 | the `discriminant` of a service is the unknown kind exactly for `Unknown` services |
| Beacons.New | src/beacon/mod.rs:35-42 | `new()` is version 8, sequence 0, with no node id, no services and no period |
| Beacons.Next | src/beacon/mod.rs:47-51 | `next()` keeps every other field; the sequence number goes up by one, and `u64::MAX` wraps to 0 |
| Beacons.AdvanceSequence | src/beacon/mod.rs:47-51 | after k calls of `next`, only the sequence number differs, and it is (s + k) mod 2^64 |
| BeaconSerializer.Flags | src/beacon/serializer.rs:8-28 | flag bit 0 iff node id present, bit 1 iff services non-empty, bit 2 iff period present; bits 3-7 always 0 |
| BeaconSerializer.ServiceTag | src/beacon/serializer.rs:60-67 | an unknown service is written with its own stored tag, every known service with one of 0, 1, 2, 64 and 65 |
| BeaconSerializer.KnownTagsIdentifyKind | src/beacon/serializer.rs:60-67 | among known services, two have the same tag iff they have the same kind |
| BeaconSerializer.ServicePayload | src/beacon/serializer.rs:71-89 | the payload has the CBOR type the decoder reads for the tag: a u16 integer for the three TCP layers, a pair of floats for a location, text for an address; an unknown service writes its stored value |
| BeaconSerializer.EncodeService | src/beacon/serializer.rs:58-89 | a service is a 2-tuple whose first element is a u8 tag |
| BeaconSerializer.EncodeServices | src/beacon/serializer.rs:42-44 | the service block has one (tag, payload) tuple per service, in list order |
| BeaconSerializer.BeaconElements | src/beacon/serializer.rs:8-48 | the beacon has 3 elements plus one per optional field present, so between 3 and 6 |
| BeaconSerializer.EncodeBeacon | src/beacon/serializer.rs:30-50 | the beacon is an array of 3 to 6 elements, the stored version first and the sequence number third |
| BeaconSerializer.Serialize | src/beacon/serializer.rs:8-50 | the step-by-step serializer produces the encoding, and the length it declares is 3 plus the optional fields present, which is exactly the number of elements emitted |
| BeaconSerializer.ElementLayout | src/beacon/serializer.rs:30-48 | elements come in the order version, flags, sequence, [node id], [services], [period secs], each present iff its flag bit is set |
| BeaconSerializer.NoEmptyServiceBlock | src/beacon/serializer.rs:42-44 | an empty service list is never emitted as an empty array |
| BeaconSerializer.SubSecondPeriodDropped | src/beacon/serializer.rs:46-48 | the period goes out as `as_secs`: its nanoseconds do not change the encoding |
| BeaconSerializer.UnknownTagCollides | src/beacon/serializer.rs:60-89 | `Unknown(t, v)` is written as the tuple [t, v] verbatim; when t is a known tag and v a payload of that service, the tuple is the known service's tuple |
| BeaconDeserializer.VisitService | src/beacon/deserializer.rs:90-132 | no element is the missing "service tag"; a decoded service read exactly 2 elements, a u8 tag first, and is `Unknown` iff that tag is not 0, 1, 2, 64 or 65, in which case it holds the second element unchanged |
| BeaconDeserializer.DeserializeService | src/beacon/deserializer.rs:73-77 | a non-array is an invalid type; a decoded service came from an array of exactly two elements and is `Unknown` iff its tag is not a known one |
| BeaconDeserializer.DecodeServiceList | src/beacon/deserializer.rs:48-54 | a service block decodes iff every element decodes as a service, and then gives one service per element, in order |
| BeaconDeserializer.VisitOptionalFields | src/beacon/deserializer.rs:40-65 | fewer elements than flagged fields fail; on success as many elements are read as fields are flagged, the node id is present iff bit 0 is set, the period iff bit 2 is set and in whole seconds, and there are no services without bit 1 |
| BeaconDeserializer.VisitBeacon | src/beacon/deserializer.rs:24-69 | a decoded beacon has version 8 and the sequence number of the third element, and 3 to 6 elements were read, never more than there are |
| BeaconDeserializer.DeserializeBeacon | src/beacon/deserializer.rs:8-12 | a non-array is an invalid type; a decoded beacon has version 8, came from an array of 3 to 6 elements, and has a whole-second period |
| BeaconCodec.ServiceRoundTrip | src/beacon/deserializer.rs:90-131 | decoding an encoded service gives it back unless it is `Unknown` with a known tag |
| BeaconCodec.ServicesRoundTrip | src/beacon/deserializer.rs:48-54 | decoding an encoded service list gives it back, in order |
| BeaconCodec.BeaconRoundTrip | src/beacon/deserializer.rs:24-67 | `decode(encode(b)) == b` when the version is 8, the period is whole seconds and no `Unknown` uses a known tag |
| BeaconCodec.DecodedServiceRoundTrips | src/beacon/deserializer.rs:95-129 | every service the decoder yields meets the round-trip condition: known tags are always dispatched |
| BeaconCodec.DecodedServicesRoundTrip | src/beacon/deserializer.rs:48-54 | the same for every service of a decoded list |
| BeaconCodec.DecodedBeaconRoundTrips | src/beacon/deserializer.rs:24-67 | every beacon the decoder yields meets the round-trip condition |
| BeaconCodec.DecodeEncodeDecode | src/beacon/deserializer.rs:24-67 | re-encoding a decoded beacon and decoding again gives the same beacon |
| BeaconCodec.ServiceDecodeEncode | src/beacon/serializer.rs:58-89 | a decoded service re-encodes to exactly the tuple it came from |
| BeaconCodec.EmptyServiceBlockNotReproduced | src/beacon/deserializer.rs:48-54 | the converse round trip fails: flag bit 1 with an empty array decodes to no services, which re-encode without the array |
| BeaconCodec.VersionGate | src/beacon/deserializer.rs:27-32 | a first element other than 8 fails with that version, whatever follows |
| BeaconCodec.MissingHeaderFields | src/beacon/deserializer.rs:27-38 | a missing version, flags or sequence number is a missing-field error naming that field |
| BeaconCodec.FlaggedFieldMissing | src/beacon/deserializer.rs:40-65 | fewer elements after the header than flagged fields always fail; when the elements present are acceptable, the error is the missing field of the first flagged field left without an element, in the order node id, services, period |
| BeaconCodec.UnflaggedBeacon | src/beacon/deserializer.rs:40-67 | with bits 0-2 clear the three header elements are the whole beacon, and any further element is trailing data |
| BeaconCodec.OptionalFieldsIgnoreReservedBits | src/beacon/deserializer.rs:40-65 | two flags bytes that agree on bits 0-2 read the same optional fields |
| BeaconCodec.VisitBeaconThroughOptionalFields | src/beacon/deserializer.rs:24-67 | the flags element affects the decoded beacon only through the optional fields it selects |
| BeaconCodec.ReservedBitsIgnored | src/beacon/deserializer.rs:40-65 | changing bits 3-7 of the flags element never changes the decoding result |
| BeaconCodec.TagDispatch | src/beacon/deserializer.rs:92-131 | tags 0/1/2 give TCPCLv4/TCPCLv3/MTCPCL(port), 64 gives GeoLocation, 65 gives Address, and any other tag gives `Unknown(tag, value)` with the value as received |
| BeaconCodec.UnknownWithKnownTagDoesNotRoundTrip | src/beacon/deserializer.rs:95-125 | `Unknown(t, v)` with a known tag t never decodes back to itself; `Unknown(0, port)` comes back as `TCPCLv4(port)` |
| BeaconCodec.PeriodComesBackWhole | src/beacon/deserializer.rs:56-65 | a period comes back as `from_secs` of its whole seconds |
| BeaconCodec.NewBeaconWire | src/beacon/mod.rs:35-42 | a new beacon is the array [8, 0, 0] and decodes back to itself |
| BeaconCodec.FullBeaconScenario | src/beacon/serializer.rs:30-48 | a beacon with node id, one TCPCLv3 service and a 30 s period encodes as a 6-element array with flags 7 and decodes back |
| BeaconCodec.AdvanceRoundTrips | src/discovery/announcer.rs:20 | every beacon `next` derives from a round-tripping beacon round-trips too |
| Net.ToIpv4 | src/discovery/receiver.rs:97 | `to_ipv4` finds an address only in an IPv4-mapped or IPv4-compatible IPv6 address |
| Net.ToIpv4Inverts | src/discovery/receiver.rs:97 | `to_ipv4` recovers the embedded IPv4 address from both embeddings |
| Net.ToIpv4SomeIff | src/discovery/receiver.rs:97 | `to_ipv4` is `Some` exactly for the two embeddings of RFC 4291 sections 2.5.5.1 and 2.5.5.2 |
| Net.LoopbackHasIpv4Form | src/discovery/receiver.rs:95-104 | `::1` counts as an IPv4 source in IPv6-only mode |
| DiscoveryReceiver.AvailableClaKinds | src/discovery/receiver.rs:22-26 | a kind is available iff some service of the emitted beacon has it and is a CLA |
| DiscoveryReceiver.FirstCompatible | src/discovery/receiver.rs:113-116 | finds the first service, in list order, of an available kind, or reports that none has one |
| DiscoveryReceiver.TimesTwo | src/discovery/receiver.rs:123 | `Duration * 2` is twice the duration to the nanosecond, and panics exactly when that reaches 2^64 seconds |
| DiscoveryReceiver.ContactDuration | src/discovery/receiver.rs:123 | computing the contact duration panics iff a period of more than (2^64-1)/2 whole seconds is announced |
| DiscoveryReceiver.Verdict | src/discovery/receiver.rs:70-106 | a datagram that fails decoding, the own-id check, the freshness check or the address-family filter is dropped: it never leads to a contact or a panic |
| DiscoveryReceiver.NextTable | src/discovery/receiver.rs:82-106 | the source becomes a key iff the datagram is admitted, the other entries keep their values, and the source's entry never goes down |
| DiscoveryReceiver.Parse | src/beacon/mod.rs:59-61 | a payload that is not one data item is a syntax error; a parsed beacon has version 8 |
| DiscoveryReceiver.ReplayAll | src/discovery/receiver.rs:31-57 | a run requests at most one contact per admitted datagram and admits at most one pair per datagram, and the table never loses a key |
| DiscoveryReceiver.Receiver.constructor | src/discovery/receiver.rs:22-29 | the available set comes from the emitted beacon and the table starts empty |
| DiscoveryReceiver.Receiver.TryBeacon | src/discovery/receiver.rs:60-152 | the early-return chain: the outcome is `Verdict` and the table becomes `NextTable` of the old table |
| DiscoveryReceiver.Receiver.Run | src/discovery/receiver.rs:31-57 | the loop skips empty datagrams, runs `try_beacon` on the others and stops at a panic; the final table and contacts are those of `ReplayAll` |
| DiscoveryReceiver.InvalidBeaconChangesNothing | src/discovery/receiver.rs:70-150 | a decode failure leaves the table unchanged and produces no contact |
| DiscoveryReceiver.OwnBeaconDropped | src/discovery/receiver.rs:73-79 | a beacon with this node's own id is dropped whatever its sequence number, and the table is unchanged |
| DiscoveryReceiver.FreshnessCheck | src/discovery/receiver.rs:82-93 | from a recorded source, a beacon is dropped as stale iff its sequence number is not strictly greater, and then the table is unchanged |
| DiscoveryReceiver.FirstBeaconIsFresh | src/discovery/receiver.rs:84-88 | the first beacon from an unrecorded source passes freshness, and unless filtered it is recorded |
| DiscoveryReceiver.Ipv4SourceDroppedBeforeInsert | src/discovery/receiver.rs:95-106 | in IPv6-only mode a fresh beacon from an IPv4-mapped or IPv4-compatible source is dropped, and the table keeps its old entry |
| DiscoveryReceiver.AdmittedIsRecorded | src/discovery/receiver.rs:106 | on acceptance the source's entry becomes the beacon's sequence number and every other entry stays as it was |
| DiscoveryReceiver.ContactIff | src/discovery/receiver.rs:113-125 | a contact is requested iff the beacon is accepted, has a node id and has a service of an available kind, and neither panic strikes; it uses the first such service and the contact duration |
| DiscoveryReceiver.NoMatchNoContact | src/discovery/receiver.rs:113-116 | with no service of an available kind there is no contact, and an accepted beacon is dropped as having no compatible CLA |
| DiscoveryReceiver.MissingNodeIdNoContact | src/discovery/receiver.rs:106-121 | an accepted beacon without node id but with a service of an available kind is dropped, after its sequence number was recorded |
| DiscoveryReceiver.ContactDurationValues | src/discovery/receiver.rs:123 | the duration is 30 s without a period, else twice the period; a whole-second period panics iff above (2^64-1)/2 seconds |
| DiscoveryReceiver.WrappedSequenceIsStale | src/discovery/receiver.rs:82-83 | once a sender wraps from 2^64-1 to 0, its next beacon is dropped as stale |
| DiscoveryReceiver.NextBeaconIsFresh | src/discovery/receiver.rs:82-83 | short of the wrap, the sender's next beacon is fresh |
| DiscoveryReceiver.RepeatedSequenceScenario | src/discovery/receiver.rs:82-106 | sequence 1, 1 and 2 from one source: recorded, dropped as stale, then recorded |
| DiscoveryReceiver.NextTableNeverLowers | src/discovery/receiver.rs:82-106 | one datagram never removes an entry nor lowers one |
| DiscoveryReceiver.ReplayNeverLowers | src/discovery/receiver.rs:31-57 | over a whole run, entries are never removed nor lowered |
| DiscoveryReceiver.ReplayAdmitsOnlyFresh | src/discovery/receiver.rs:31-57 | every pair a run admits is fresh with respect to the starting table |
| DiscoveryReceiver.ReplayAdmitsIncreasing | src/discovery/receiver.rs:82-93 | within a run, the sequence numbers admitted from any one source strictly increase |
| DiscoveryAnnouncer.V6Destination | src/discovery/announcer.rs:24-27 | port 3005; the address is ff02::1 exactly when broadcasting, and ff02::d4cd:0305:3af1:aeef:75de otherwise |
| DiscoveryAnnouncer.V4Destination | src/discovery/announcer.rs:37-40 | port 3005; the address is 255.255.255.255 exactly when broadcasting, and 224.0.0.108 otherwise |
| DiscoveryAnnouncer.RoundDestinations | src/discovery/announcer.rs:22-55 | the number of destinations of a round and that the extra unicast list comes last, unchanged |
| DiscoveryAnnouncer.Sends | src/discovery/announcer.rs:48-55 | one attempt per destination, in order, all with the same payload |
| DiscoveryAnnouncer.RoundLog | src/discovery/announcer.rs:20-55 | one round makes exactly one attempt per destination, in destination order |
| DiscoveryAnnouncer.Announcer.constructor | src/discovery/announcer.rs:6-16 | the loop starts from the base beacon with an empty send log |
| DiscoveryAnnouncer.Announcer.Round | src/discovery/announcer.rs:20-57 | one round appends `RoundLog` of the current beacon and replaces the beacon with `next` |
| DiscoveryAnnouncer.Announcer.Run | src/discovery/announcer.rs:18-60 | after k completed rounds the beacon is `next` applied k times and the log has grown by the k rounds' attempts |
| DiscoveryAnnouncer.DestinationsByConfig | src/discovery/announcer.rs:22-55 | the destination list for Both, Ipv6Only and Ipv4Only: v6, then v4, then the extra unicast list |
| DiscoveryAnnouncer.FamiliesFollowConfig | src/discovery/announcer.rs:22-46 | a v6 send happens iff the config is not Ipv4Only, a v4 send iff it is not Ipv6Only, and under Both the v6 send is first |
| DiscoveryAnnouncer.OutcomesDoNotAffectRound | src/discovery/announcer.rs:29-51 | a failed send skips nothing: under any send outcomes a round attempts the same destinations in the same order with the same payload |
| DiscoveryAnnouncer.RoundPayloadDecodes | src/discovery/announcer.rs:20-50 | every send of a round carries the same encoded beacon, which decodes back to that beacon |
| DiscoveryAnnouncer.RunLog | src/discovery/announcer.rs:18-60 | k rounds make k times as many attempts as one round has destinations |
| DiscoveryAnnouncer.RunLogExtends | src/discovery/announcer.rs:18-60 | the send log only grows: the log of the first k rounds is a prefix of the log of the run |
| DiscoveryAnnouncer.RunLogRounds | src/discovery/announcer.rs:16-57 | round k sends the base beacon with sequence (base + k) mod 2^64 and every other field unchanged, right after the first k rounds |
| DiscoveryAnnouncer.ConsecutiveRoundsFresh | src/discovery/announcer.rs:57 | while the counter does not wrap, each round's beacon is one higher and passes the receiver's freshness check against the round before |

## Behaviour worth knowing

- **IPv6-only filter.** In `try_beacon` the address-family filter returns before the insert into the table (src/discovery/receiver.rs:95-106). A filtered datagram leaves the table unchanged.
- **IPv4 sources under that filter.** The filter uses `Ipv6Addr::to_ipv4`, which accepts IPv4-mapped addresses and also IPv4-compatible ones such as `::1`. The model drops both.
- **Sequence wraparound.** Freshness is a plain greater-than, as written (src/discovery/receiver.rs:83). A wrapped counter is taken for a stale one, as `DiscoveryReceiver.WrappedSequenceIsStale` shows.
- **Round trip.** `decode(encode(b)) == b` holds only when:
  - the version is 8, because the encoder writes the stored version and the decoder refuses any other;
  - the period is whole seconds;
  - no `Unknown` service carries one of the tags 0, 1, 2, 64 or 65.

## Left out

- CBOR bytes. serde_cbor is a foreign library, so the codec works on data items. These are also not modelled:
  - the byte encoding;
  - CBOR tags (major type 6);
  - the library accepting integers where floats are expected, or byte strings where text is expected;
  - its recursion limit.
- BeaconCodec.ServiceDecodeEncode: a CBOR map is a finite map from keys to values, as the library's `Value::Map` (a `BTreeMap`) holds it. On the wire a map may repeat a key or list its keys in any order; the library keeps the last value of a repeated key and writes the keys back in its own order. That happens at the byte level, which is not modelled, so the round trip holds of data items, not of bytes: a received `{2: 0, 1: 0, 1: 5}` re-encodes as `{1: 5, 2: 0}`.
- BeaconCodec.TagDispatch: the value an `Unknown` service keeps is the data item as the library's `Value` holds it, with maps already reduced as above, not the bytes as received.
- Floating point. The two `f32` values of `GeoLocation` are opaque tokens, compared only for equality. NaN and precision are not modelled.
- `Service::is_cla` and `Service::as_cla_address` are not part of this model. They are parameters: a predicate given to the receiver's constructor, and a function held in its configuration.
- DiscoveryReceiver.Receiver.TryBeacon: the two panics are outcomes that stop the receive loop, not preconditions. These are `Duration * 2` overflowing and the `unwrap` of `as_cla_address`. The model does not capture the thread dying.
- The contact request to the routing agent (`aap.send_config`, `ConfigBundle`) is emitted as a plain record. Its success or failure changes nothing in the source, so it is not modelled.
- Sockets: binding, broadcast and multicast options, joining groups, non-blocking receive, `WouldBlock`, the 100 000-byte buffer. The receiver gets already received datagrams: empty, not one CBOR data item, or one data item.
- The 300 ms sleep of the receiver and the period sleep of the announcer. Time is not modelled.
- The shared `AtomicBool` and the two threads. Each loop is modelled on its own, sequentially. The flag appears only as the number of rounds or datagrams handled before it turned false.
- DiscoveryAnnouncer.Announcer.Round: whether a send succeeds is a function of the destination within a round. Two sends to the same address in one round get the same outcome. In the source, the outcome only selects what is printed.
- All `println!` and `eprintln!` logging, including the "new neighbour" message.
- The CLI binaries (`src/main.rs`, `src/create-beacon.rs`, `src/parse-beacon.rs`) and the socket set-up in `src/discovery/mod.rs`. The `IpConfig` type is defined from its uses.
