/**
 * The receiving half of discovery: the table of the last sequence number
 * accepted from each source address, and the decision, for each datagram,
 * whether to ask the DTN agent for a contact with the node that sent it.
 */
module DiscoveryReceiver {
  import opened Types
  import opened Net
  import opened Cbor
  import opened Beacons
  import opened BeaconDeserializer

  /**
   * The kinds of the services of this node's own beacon that are convergence
   * layers (`AvailableClaSet`). `isCla` stands for `Service::is_cla`, which is
   * not part of this model.
   */
  function AvailableClaKinds(services: seq<Service>, isCla: Service -> bool): (r: set<ServiceKind>)
    ensures forall i :: 0 <= i < |services| && isCla(services[i]) ==> Kind(services[i]) in r
    ensures forall k :: k in r ==> exists i :: 0 <= i < |services| && isCla(services[i]) && Kind(services[i]) == k
  {
    if services == [] then {}
    else
      var rest := AvailableClaKinds(services[1..], isCla);
      assert forall i :: 1 <= i < |services| ==> services[i] == services[1..][i - 1];
      (if isCla(services[0]) then {Kind(services[0])} else {}) + rest
  }

  /** What the receiver asks the DTN agent for: a contact from now, at unlimited rate, for `duration`. */
  datatype ContactRequest = ContactRequest(eid: NodeIdentifier, claAddress: string, duration: Duration)

  /** Why a datagram leads to no contact; each is one early return of `try_beacon`. */
  datatype DropReason =
    | InvalidBeacon(error: DecodeError)
    | OwnBeacon
    | NotFresh
    | Ipv4Source
    | NoCompatibleCla
    | NoSourceEid

  /** The two places where `try_beacon` panics. */
  datatype PanicReason =
    | DurationOverflow  // `Duration * 2` does not fit
    | NoClaAddress      // `as_cla_address(..).unwrap()` on None

  datatype Outcome = Dropped(reason: DropReason) | ContactAdded(contact: ContactRequest) | Panicked(panic: PanicReason)

  /**
   * What the receiver is given once: the address families it serves, its own
   * node id, the kinds of convergence layer it offers, and `as_cla_address`,
   * which is not part of this model.
   */
  datatype ReceiverConfig = ReceiverConfig(
    ipConfig: IpConfig,
    selfNodeId: NodeIdentifier,
    availableCla: set<ServiceKind>,
    asClaAddress: (Service, IpAddr) -> Option<string>)

  /** A beacon that carries this node's own id, reflected back to it. */
  predicate IsOwnBeacon(cfg: ReceiverConfig, b: Beacon) {
    b.nodeId == Some(cfg.selfNodeId)
  }

  /** Freshness: nothing recorded for the source yet, or a strictly greater sequence number. */
  predicate IsFresh(table: map<SocketAddr, uint64>, source: SocketAddr, sequenceNumber: uint64) {
    source !in table || sequenceNumber > table[source]
  }

  /** In IPv6-only mode, a V6 source that `to_ipv4` turns into an IPv4 address is refused. */
  predicate IsIpv4Filtered(cfg: ReceiverConfig, source: SocketAddr) {
    cfg.ipConfig == Ipv6Only && source.SocketV6? && ToIpv4(source.ip6).Some?
  }

  /** A datagram gets past every check that comes before the table insert. */
  predicate Admits(cfg: ReceiverConfig, table: map<SocketAddr, uint64>, parsed: Result<Beacon, DecodeError>, source: SocketAddr) {
    && parsed.Success?
    && !IsOwnBeacon(cfg, parsed.value)
    && IsFresh(table, source, parsed.value.sequenceNumber)
    && !IsIpv4Filtered(cfg, source)
  }

  /** The first service, in list order, whose kind is one this node offers (`iter().find`). */
  function FirstCompatible(services: seq<Service>, available: set<ServiceKind>): (r: Option<nat>)
    ensures r.Some? ==> r.value < |services| && Kind(services[r.value]) in available
    ensures r.Some? ==> forall j :: 0 <= j < r.value ==> Kind(services[j]) !in available
    ensures r.None? ==> forall j :: 0 <= j < |services| ==> Kind(services[j]) !in available
  {
    if services == [] then None
    else if Kind(services[0]) in available then Some(0)
    else
      var found := FirstCompatible(services[1..], available);
      assert forall j :: 1 <= j < |services| ==> services[j] == services[1..][j - 1];
      if found.None? then None else Some(found.value + 1)
  }

  /**
   * `Duration * 2`, `None` where it panics: the doubled nanoseconds carry into
   * the seconds, and the seconds must still fit in 64 bits.
   */
  function TimesTwo(d: Duration): (r: Option<Duration>)
    ensures r.Some? ==> r.value.secs * NANOS_PER_SEC + r.value.nanos == 2 * (d.secs * NANOS_PER_SEC + d.nanos)
    ensures r.None? <==> 2 * (d.secs * NANOS_PER_SEC + d.nanos) >= UINT64_MODULUS * NANOS_PER_SEC
  {
    var nanos := d.nanos * 2;
    var secs := d.secs * 2 + nanos / NANOS_PER_SEC;
    if secs < UINT64_MODULUS then Some(Duration(secs, nanos % NANOS_PER_SEC)) else None
  }

  /** The contact lasts twice the announced period, or 30 s when none is announced; `None` where that panics. */
  function ContactDuration(period: Option<Duration>): (r: Option<Duration>)
    ensures r.None? <==> period.Some? && period.value.secs > UINT64_MAX / 2
  {
    if period.Some? then TimesTwo(period.value) else Some(FromSecs(30))
  }

  /** `try_beacon`'s decision for one datagram, given the table before it. */
  function Verdict(cfg: ReceiverConfig, table: map<SocketAddr, uint64>, parsed: Result<Beacon, DecodeError>, source: SocketAddr)
    : (r: Outcome)
    ensures !Admits(cfg, table, parsed, source) ==> r.Dropped?
  {
    if parsed.Failure? then Dropped(InvalidBeacon(parsed.error))
    else
      var b := parsed.value;
      if IsOwnBeacon(cfg, b) then Dropped(OwnBeacon)
      else if !IsFresh(table, source, b.sequenceNumber) then Dropped(NotFresh)
      else if IsIpv4Filtered(cfg, source) then Dropped(Ipv4Source)
      else
        var found := FirstCompatible(b.services, cfg.availableCla);
        if found.None? then Dropped(NoCompatibleCla)
        else if b.nodeId.None? then Dropped(NoSourceEid)
        else
          var duration := ContactDuration(b.period);
          if duration.None? then Panicked(DurationOverflow)
          else
            var cla := cfg.asClaAddress(b.services[found.value], source.Ip());
            if cla.None? then Panicked(NoClaAddress)
            else ContactAdded(ContactRequest(b.nodeId.value, cla.value, duration.value))
  }

  /** The table after one datagram: the source's entry is overwritten exactly when the datagram is admitted. */
  function NextTable(cfg: ReceiverConfig, table: map<SocketAddr, uint64>, parsed: Result<Beacon, DecodeError>, source: SocketAddr)
    : (r: map<SocketAddr, uint64>)
    ensures r.Keys == table.Keys + (if Admits(cfg, table, parsed, source) then {source} else {})
    ensures forall a :: a in table && a != source ==> r[a] == table[a]
    ensures source in table ==> table[source] <= r[source]
  {
    if Admits(cfg, table, parsed, source) then table[source := parsed.value.sequenceNumber] else table
  }

  /** The payload of a received datagram, as far as the CBOR library is concerned. */
  datatype Payload =
    | Empty                 // zero bytes read
    | NotCbor               // bytes that are not one well-formed CBOR data item
    | Item(item: DataItem)  // exactly one data item

  datatype Datagram = Datagram(payload: Payload, source: SocketAddr)

  /** `Beacon::parse` on a non-empty datagram. */
  function Parse(p: Payload): (r: Result<Beacon, DecodeError>)
    ensures !p.Item? ==> r == Failure(Syntax)
    ensures r.Success? ==> r.value.version == SUPPORTED_VERSION
  {
    match p
    case Item(c) => DeserializeBeacon(c)
    case _ => Failure(Syntax)
  }

  /**
   * The effect of a run of datagrams: the final table, the contacts requested
   * in order, the (source, sequence number) pairs admitted in order, and
   * whether the run ended in a panic.
   */
  datatype Replay = Replay(
    table: map<SocketAddr, uint64>,
    contacts: seq<ContactRequest>,
    admitted: seq<(SocketAddr, uint64)>,
    panicked: bool)

  /** The receiver loop over `ds`: empty datagrams are skipped, and a panic ends it. */
  function ReplayAll(cfg: ReceiverConfig, table: map<SocketAddr, uint64>, ds: seq<Datagram>): (r: Replay)
    ensures |r.contacts| <= |r.admitted| <= |ds|
    ensures table.Keys <= r.table.Keys
    decreases |ds|
  {
    if ds == [] then Replay(table, [], [], false)
    else if ds[0].payload.Empty? then ReplayAll(cfg, table, ds[1..])
    else
      var parsed := Parse(ds[0].payload);
      var source := ds[0].source;
      var outcome := Verdict(cfg, table, parsed, source);
      var next := NextTable(cfg, table, parsed, source);
      var here := if Admits(cfg, table, parsed, source) then [(source, parsed.value.sequenceNumber)] else [];
      if outcome.Panicked? then Replay(next, [], here, true)
      else
        var rest := ReplayAll(cfg, next, ds[1..]);
        Replay(rest.table, (if outcome.ContactAdded? then [outcome.contact] else []) + rest.contacts,
               here + rest.admitted, rest.panicked)
  }

  /** The run `all` is what remains of a run once `contacts` were produced and the table reached `table`. */
  predicate Resumes(cfg: ReceiverConfig, all: Replay, table: map<SocketAddr, uint64>, contacts: seq<ContactRequest>, ds: seq<Datagram>) {
    var rest := ReplayAll(cfg, table, ds);
    all.table == rest.table && all.contacts == contacts + rest.contacts && all.panicked == rest.panicked
  }

  /** Skipping an empty datagram leaves the rest of the run as it was. */
  lemma ResumesSkip(cfg: ReceiverConfig, all: Replay, table: map<SocketAddr, uint64>, contacts: seq<ContactRequest>, ds: seq<Datagram>)
    requires ds != [] && ds[0].payload.Empty? && Resumes(cfg, all, table, contacts, ds)
    ensures Resumes(cfg, all, table, contacts, ds[1..])
  {
  }

  /**
   * Taking one non-empty datagram out of the remaining run, with `o` and `next`
   * its outcome and the table after it: a panic ends the run, anything else
   * leaves the rest of the run to resume from `next`.
   */
  lemma ResumesStep(cfg: ReceiverConfig, all: Replay, table: map<SocketAddr, uint64>, contacts: seq<ContactRequest>, ds: seq<Datagram>,
                    o: Outcome, next: map<SocketAddr, uint64>)
    requires ds != [] && !ds[0].payload.Empty? && Resumes(cfg, all, table, contacts, ds)
    requires o == Verdict(cfg, table, Parse(ds[0].payload), ds[0].source)
    requires next == NextTable(cfg, table, Parse(ds[0].payload), ds[0].source)
    ensures o.Panicked? ==> all.table == next && all.contacts == contacts && all.panicked
    ensures o.ContactAdded? ==> Resumes(cfg, all, next, contacts + [o.contact], ds[1..])
    ensures o.Dropped? ==> Resumes(cfg, all, next, contacts, ds[1..])
  {
    var rest := ReplayAll(cfg, next, ds[1..]);
    if o.ContactAdded? {
      assert contacts + ([o.contact] + rest.contacts) == (contacts + [o.contact]) + rest.contacts;
    } else if o.Dropped? {
      assert [] + rest.contacts == rest.contacts;
    }
  }

  /** The state `receiver_task` keeps between datagrams. */
  class Receiver {
    const config: ReceiverConfig
    var seqNums: map<SocketAddr, uint64>

    /** The set-up of `receiver_task`: the available kinds come from the emitted beacon; the table starts empty. */
    constructor (ipConfig: IpConfig, selfNodeId: NodeIdentifier, emitted: Beacon,
                 isCla: Service -> bool, asClaAddress: (Service, IpAddr) -> Option<string>)
      ensures config.ipConfig == ipConfig && config.selfNodeId == selfNodeId
      ensures config.availableCla == AvailableClaKinds(emitted.services, isCla)
      ensures config.asClaAddress == asClaAddress
      ensures seqNums == map[]
    {
      config := ReceiverConfig(ipConfig, selfNodeId, AvailableClaKinds(emitted.services, isCla), asClaAddress);
      seqNums := map[];
    }

    /** `try_beacon`: the chain of checks for one datagram, updating the table in place. */
    method TryBeacon(parsed: Result<Beacon, DecodeError>, source: SocketAddr) returns (outcome: Outcome)
      modifies this
      ensures outcome == Verdict(config, old(seqNums), parsed, source)
      ensures seqNums == NextTable(config, old(seqNums), parsed, source)
    {
      if parsed.Failure? {
        return Dropped(InvalidBeacon(parsed.error));
      }
      var beacon := parsed.value;
      if beacon.nodeId.Some? && beacon.nodeId.value == config.selfNodeId {
        return Dropped(OwnBeacon);
      }
      var isFresh := if source in seqNums then beacon.sequenceNumber > seqNums[source] else true;
      if !isFresh {
        return Dropped(NotFresh);
      }
      if config.ipConfig.Ipv6Only? && source.SocketV6? && ToIpv4(source.ip6).Some? {
        return Dropped(Ipv4Source);
      }
      seqNums := seqNums[source := beacon.sequenceNumber];
      var found := FirstCompatible(beacon.services, config.availableCla);
      if found.None? {
        return Dropped(NoCompatibleCla);
      }
      if beacon.nodeId.None? {
        return Dropped(NoSourceEid);
      }
      var duration := ContactDuration(beacon.period);
      if duration.None? {
        return Panicked(DurationOverflow);
      }
      var cla := config.asClaAddress(beacon.services[found.value], source.Ip());
      if cla.None? {
        return Panicked(NoClaAddress);
      }
      return ContactAdded(ContactRequest(beacon.nodeId.value, cla.value, duration.value));
    }

    /**
     * The body of the `receiver_task` loop over the datagrams received while
     * the loop runs: empty ones are skipped, the others go through
     * `try_beacon`; a panic ends the loop.
     */
    method Run(datagrams: seq<Datagram>) returns (contacts: seq<ContactRequest>, panicked: bool)
      modifies this
      ensures var r := ReplayAll(config, old(seqNums), datagrams);
        seqNums == r.table && contacts == r.contacts && panicked == r.panicked
    {
      contacts, panicked := [], false;
      ghost var all := ReplayAll(config, seqNums, datagrams);
      assert datagrams[0..] == datagrams;
      var i := 0;
      while i < |datagrams| && !panicked
        invariant 0 <= i <= |datagrams|
        invariant all == ReplayAll(config, old(seqNums), datagrams)
        invariant !panicked ==> Resumes(config, all, seqNums, contacts, datagrams[i..])
        invariant panicked ==> all.table == seqNums && all.contacts == contacts && all.panicked
      {
        var d := datagrams[i];
        assert datagrams[i..][0] == d && datagrams[i..][1..] == datagrams[i + 1..];
        if d.payload.Empty? {
          ResumesSkip(config, all, seqNums, contacts, datagrams[i..]);
        } else {
          ghost var table := seqNums;
          var outcome := TryBeacon(Parse(d.payload), d.source);
          ResumesStep(config, all, table, contacts, datagrams[i..], outcome, seqNums);
          if outcome.ContactAdded? {
            contacts := contacts + [outcome.contact];
          }
          panicked := outcome.Panicked?;
        }
        i := i + 1;
      }
    }
  }

  // Properties of one datagram.

  /** A datagram that does not decode changes nothing and produces no contact. */
  lemma InvalidBeaconChangesNothing(cfg: ReceiverConfig, table: map<SocketAddr, uint64>, e: DecodeError, source: SocketAddr)
    ensures Verdict(cfg, table, Failure(e), source) == Dropped(InvalidBeacon(e))
    ensures NextTable(cfg, table, Failure(e), source) == table
  {
  }

  /** A beacon carrying this node's own id is dropped whatever its sequence number, and the table is untouched. */
  lemma OwnBeaconDropped(cfg: ReceiverConfig, table: map<SocketAddr, uint64>, b: Beacon, source: SocketAddr)
    requires b.nodeId == Some(cfg.selfNodeId)
    ensures Verdict(cfg, table, Success(b), source) == Dropped(OwnBeacon)
    ensures NextTable(cfg, table, Success(b), source) == table
  {
  }

  /**
   * Freshness: from a source already recorded, a beacon gets past the
   * freshness check exactly when its sequence number is strictly greater;
   * otherwise it is dropped and the table is untouched.
   */
  lemma FreshnessCheck(cfg: ReceiverConfig, table: map<SocketAddr, uint64>, b: Beacon, source: SocketAddr)
    requires source in table && !IsOwnBeacon(cfg, b)
    ensures Verdict(cfg, table, Success(b), source) == Dropped(NotFresh) <==> b.sequenceNumber <= table[source]
    ensures b.sequenceNumber <= table[source] ==> NextTable(cfg, table, Success(b), source) == table
  {
  }

  /** The first beacon from an unrecorded source always passes the freshness check. */
  lemma FirstBeaconIsFresh(cfg: ReceiverConfig, table: map<SocketAddr, uint64>, b: Beacon, source: SocketAddr)
    requires source !in table && !IsOwnBeacon(cfg, b)
    ensures Verdict(cfg, table, Success(b), source) != Dropped(NotFresh)
    ensures !IsIpv4Filtered(cfg, source) ==> NextTable(cfg, table, Success(b), source) == table[source := b.sequenceNumber]
  {
  }

  /**
   * In IPv6-only mode a fresh beacon from an IPv4-mapped or IPv4-compatible
   * source is dropped before the table insert: the table keeps its old entry.
   */
  lemma Ipv4SourceDroppedBeforeInsert(cfg: ReceiverConfig, table: map<SocketAddr, uint64>, b: Beacon,
                                      v: Ipv4Addr, port: uint16, flowInfo: uint32, scopeId: uint32, mapped: bool)
    requires cfg.ipConfig == Ipv6Only && !IsOwnBeacon(cfg, b)
    ensures var source := SocketV6(if mapped then Ipv4Mapped(v) else Ipv4Compatible(v), port, flowInfo, scopeId);
      && (IsFresh(table, source, b.sequenceNumber) ==> Verdict(cfg, table, Success(b), source) == Dropped(Ipv4Source))
      && NextTable(cfg, table, Success(b), source) == table
  {
    ToIpv4Inverts(v);
  }

  /** An admitted datagram records its sequence number for its source and leaves every other entry as it was. */
  lemma AdmittedIsRecorded(cfg: ReceiverConfig, table: map<SocketAddr, uint64>, b: Beacon, source: SocketAddr)
    requires Admits(cfg, table, Success(b), source)
    ensures var next := NextTable(cfg, table, Success(b), source);
      && next.Keys == table.Keys + {source} && next[source] == b.sequenceNumber
      && forall a :: a in table && a != source ==> next[a] == table[a]
  {
  }

  /**
   * A contact is requested exactly for an admitted beacon with a node id whose
   * services include a kind this node offers, when neither panic strikes; it
   * goes to that node id, through the first such service in list order, for
   * the contact duration.
   */
  lemma ContactIff(cfg: ReceiverConfig, table: map<SocketAddr, uint64>, b: Beacon, source: SocketAddr)
    ensures var o := Verdict(cfg, table, Success(b), source);
      var found := FirstCompatible(b.services, cfg.availableCla);
      && (o.ContactAdded? <==>
            && Admits(cfg, table, Success(b), source) && found.Some? && b.nodeId.Some?
            && ContactDuration(b.period).Some?
            && cfg.asClaAddress(b.services[found.value], source.Ip()).Some?)
      && (o.ContactAdded? ==>
            exists i :: 0 <= i < |b.services|
              && Kind(b.services[i]) in cfg.availableCla
              && (forall j :: 0 <= j < i ==> Kind(b.services[j]) !in cfg.availableCla)
              && o.contact == ContactRequest(b.nodeId.value, cfg.asClaAddress(b.services[i], source.Ip()).value,
                                             ContactDuration(b.period).value))
  {
    var o := Verdict(cfg, table, Success(b), source);
    if o.ContactAdded? {
      var i := FirstCompatible(b.services, cfg.availableCla).value;
      assert Kind(b.services[i]) in cfg.availableCla;
    }
  }

  /** A beacon none of whose services is of a kind this node offers gets no contact (the table may still change). */
  lemma NoMatchNoContact(cfg: ReceiverConfig, table: map<SocketAddr, uint64>, b: Beacon, source: SocketAddr)
    requires forall i :: 0 <= i < |b.services| ==> Kind(b.services[i]) !in cfg.availableCla
    ensures !Verdict(cfg, table, Success(b), source).ContactAdded?
    ensures Admits(cfg, table, Success(b), source) ==> Verdict(cfg, table, Success(b), source) == Dropped(NoCompatibleCla)
  {
  }

  /** A beacon without node id but with a usable service is dropped, after its sequence number is recorded. */
  lemma MissingNodeIdNoContact(cfg: ReceiverConfig, table: map<SocketAddr, uint64>, b: Beacon, source: SocketAddr)
    requires b.nodeId.None? && Admits(cfg, table, Success(b), source)
    requires exists i :: 0 <= i < |b.services| && Kind(b.services[i]) in cfg.availableCla
    ensures Verdict(cfg, table, Success(b), source) == Dropped(NoSourceEid)
    ensures NextTable(cfg, table, Success(b), source) == table[source := b.sequenceNumber]
  {
  }

  /**
   * The contact lasts 30 s without a period, and otherwise twice the period;
   * for a whole-second period that panics exactly above (2^64 - 1) / 2 seconds.
   */
  lemma ContactDurationValues(period: Option<Duration>)
    ensures period.None? ==> ContactDuration(period) == Some(FromSecs(30))
    ensures period.Some? && period.value.nanos == 0 ==>
      (ContactDuration(period).Some? <==> period.value.secs <= UINT64_MAX / 2)
      && (ContactDuration(period).Some? ==> ContactDuration(period).value == FromSecs(2 * period.value.secs))
    ensures period.Some? && ContactDuration(period).Some? ==>
      ContactDuration(period).value.secs * NANOS_PER_SEC + ContactDuration(period).value.nanos
        == 2 * (period.value.secs * NANOS_PER_SEC + period.value.nanos)
  {
  }

  /**
   * The comparison is not circular: once the sender's counter wraps from
   * 2^64 - 1 to 0, its next beacon is taken for a stale one.
   */
  lemma WrappedSequenceIsStale(cfg: ReceiverConfig, table: map<SocketAddr, uint64>, b: Beacon, source: SocketAddr)
    requires source in table && table[source] == b.sequenceNumber == UINT64_MAX && !IsOwnBeacon(cfg, b)
    ensures Verdict(cfg, table, Success(Next(b)), source) == Dropped(NotFresh)
  {
  }

  /** Short of the wrap, the next beacon of a sender is fresh where its current one was recorded. */
  lemma NextBeaconIsFresh(table: map<SocketAddr, uint64>, b: Beacon, source: SocketAddr)
    requires source in table && table[source] == b.sequenceNumber < UINT64_MAX
    ensures IsFresh(table, source, Next(b).sequenceNumber)
  {
  }

  /**
   * From an empty table: sequence 1 from X is admitted and recorded, sequence
   * 1 again is dropped as not fresh, and then sequence 2 is admitted.
   */
  lemma RepeatedSequenceScenario(cfg: ReceiverConfig, x: SocketAddr, b: Beacon)
    requires !IsOwnBeacon(cfg, b) && !IsIpv4Filtered(cfg, x)
    ensures var b1, b2 := b.(sequenceNumber := 1), b.(sequenceNumber := 2);
      var t1 := NextTable(cfg, map[], Success(b1), x);
      && t1 == map[x := 1]
      && Verdict(cfg, t1, Success(b1), x) == Dropped(NotFresh)
      && NextTable(cfg, t1, Success(b1), x) == t1
      && Admits(cfg, t1, Success(b2), x)
      && NextTable(cfg, t1, Success(b2), x) == map[x := 2]
  {
    var b1 := b.(sequenceNumber := 1);
    assert Admits(cfg, map[], Success(b1), x);
  }

  // Properties of a run of datagrams.

  /** One datagram never removes an entry nor lowers one. */
  lemma NextTableNeverLowers(cfg: ReceiverConfig, table: map<SocketAddr, uint64>, parsed: Result<Beacon, DecodeError>, source: SocketAddr)
    ensures var next := NextTable(cfg, table, parsed, source);
      table.Keys <= next.Keys && forall a :: a in table ==> table[a] <= next[a]
  {
  }

  /** Over a run, entries are never removed and never lowered. */
  lemma {:induction false} ReplayNeverLowers(cfg: ReceiverConfig, table: map<SocketAddr, uint64>, ds: seq<Datagram>)
    ensures var r := ReplayAll(cfg, table, ds);
      table.Keys <= r.table.Keys && forall a :: a in table ==> table[a] <= r.table[a]
    decreases |ds|
  {
    if ds != [] {
      if ds[0].payload.Empty? {
        ReplayNeverLowers(cfg, table, ds[1..]);
      } else {
        var parsed := Parse(ds[0].payload);
        var next := NextTable(cfg, table, parsed, ds[0].source);
        NextTableNeverLowers(cfg, table, parsed, ds[0].source);
        if !Verdict(cfg, table, parsed, ds[0].source).Panicked? {
          ReplayNeverLowers(cfg, next, ds[1..]);
        }
      }
    }
  }

  /** Every admitted pair is fresh with respect to `table`. */
  predicate AllFresh(table: map<SocketAddr, uint64>, adm: seq<(SocketAddr, uint64)>) {
    forall k :: 0 <= k < |adm| ==> IsFresh(table, adm[k].0, adm[k].1)
  }

  /** Per source, the admitted sequence numbers strictly increase. */
  predicate IncreasingPerSource(adm: seq<(SocketAddr, uint64)>) {
    forall j, k :: 0 <= j < k < |adm| && adm[j].0 == adm[k].0 ==> adm[j].1 < adm[k].1
  }

  /** Every pair a run admits is fresh with respect to the table the run started from. */
  lemma {:induction false} ReplayAdmitsOnlyFresh(cfg: ReceiverConfig, table: map<SocketAddr, uint64>, ds: seq<Datagram>)
    ensures AllFresh(table, ReplayAll(cfg, table, ds).admitted)
    decreases |ds|
  {
    if ds != [] {
      if ds[0].payload.Empty? {
        ReplayAdmitsOnlyFresh(cfg, table, ds[1..]);
        assert ReplayAll(cfg, table, ds) == ReplayAll(cfg, table, ds[1..]);
      } else {
        var parsed := Parse(ds[0].payload);
        var source := ds[0].source;
        var next := NextTable(cfg, table, parsed, source);
        var here := if Admits(cfg, table, parsed, source) then [(source, parsed.value.sequenceNumber)] else [];
        assert AllFresh(table, here);
        if !Verdict(cfg, table, parsed, source).Panicked? {
          NextTableNeverLowers(cfg, table, parsed, source);
          ReplayAdmitsOnlyFresh(cfg, next, ds[1..]);
          var restAdm := ReplayAll(cfg, next, ds[1..]).admitted;
          assert ReplayAll(cfg, table, ds).admitted == here + restAdm;
          forall k | 0 <= k < |restAdm| ensures IsFresh(table, restAdm[k].0, restAdm[k].1) {
            assert IsFresh(next, restAdm[k].0, restAdm[k].1);
          }
        }
      }
    }
  }

  /** A pair recorded in `table`, followed by pairs fresh with respect to `table`, keeps the order per source. */
  lemma IncreasingCons(table: map<SocketAddr, uint64>, source: SocketAddr, n: uint64, rest: seq<(SocketAddr, uint64)>)
    requires source in table && table[source] == n
    requires AllFresh(table, rest) && IncreasingPerSource(rest)
    ensures IncreasingPerSource([(source, n)] + rest)
  {
    var adm := [(source, n)] + rest;
    forall j, k | 0 <= j < k < |adm| && adm[j].0 == adm[k].0 ensures adm[j].1 < adm[k].1 {
      assert adm[k] == rest[k - 1];
      if j > 0 {
        assert adm[j] == rest[j - 1];
      } else {
        assert IsFresh(table, rest[k - 1].0, rest[k - 1].1);
      }
    }
  }

  /**
   * Freshness over a run: the sequence numbers admitted from any one source
   * strictly increase, in the order the datagrams arrived.
   */
  lemma {:induction false} ReplayAdmitsIncreasing(cfg: ReceiverConfig, table: map<SocketAddr, uint64>, ds: seq<Datagram>)
    ensures IncreasingPerSource(ReplayAll(cfg, table, ds).admitted)
    decreases |ds|
  {
    if ds != [] {
      if ds[0].payload.Empty? {
        ReplayAdmitsIncreasing(cfg, table, ds[1..]);
        assert ReplayAll(cfg, table, ds) == ReplayAll(cfg, table, ds[1..]);
      } else {
        var parsed := Parse(ds[0].payload);
        var source := ds[0].source;
        var next := NextTable(cfg, table, parsed, source);
        if !Verdict(cfg, table, parsed, source).Panicked? {
          ReplayAdmitsIncreasing(cfg, next, ds[1..]);
          ReplayAdmitsOnlyFresh(cfg, next, ds[1..]);
          var restAdm := ReplayAll(cfg, next, ds[1..]).admitted;
          var adm := ReplayAll(cfg, table, ds).admitted;
          if Admits(cfg, table, parsed, source) {
            assert adm == [(source, parsed.value.sequenceNumber)] + restAdm;
            IncreasingCons(next, source, parsed.value.sequenceNumber, restAdm);
          } else {
            assert adm == restAdm;
          }
        }
      }
    }
  }
}
