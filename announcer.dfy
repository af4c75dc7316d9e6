/**
 * The announcer loop of the discovery service (src/discovery/announcer.rs):
 * every round serializes the current beacon once, sends it to the link-local
 * destinations the IP configuration selects and then to every extra unicast
 * address, and advances the beacon with `next`. The socket is an append-only
 * log of send attempts; whether a send succeeds is a parameter.
 */
module DiscoveryAnnouncer {
  import opened Types
  import opened Net
  import opened Cbor
  import opened Beacons
  import opened BeaconSerializer
  import opened BeaconDeserializer
  import opened BeaconCodec
  import opened DiscoveryReceiver

  /** The port every beacon is sent to. */
  const DISCOVERY_PORT: uint16 := 3005

  /** ff02::1, the all-nodes link-local multicast group. */
  const ALL_NODES_V6: Segments := [0xff02, 0, 0, 0, 0, 0, 0, 1]
  /** ff02::d4cd:0305:3af1:aeef:75de, the IPND link-local multicast group. */
  const IPND_GROUP_V6: Segments := [0xff02, 0, 0, 0xd4cd, 0x0305, 0x3af1, 0xaeef, 0x75de]
  /** 255.255.255.255, the limited broadcast address. */
  const BROADCAST_V4: Ipv4Addr := Ipv4Addr(255, 255, 255, 255)
  /** 224.0.0.108, the IPND IPv4 multicast group. */
  const IPND_GROUP_V4: Ipv4Addr := Ipv4Addr(224, 0, 0, 108)

  /** The IPv6 destination of a round: broadcast to all nodes or to the IPND group. */
  function V6Destination(broadcast: bool): (r: SocketAddr)
    ensures r.SocketV6? && r.port == DISCOVERY_PORT && r.flowInfo == 0 && r.scopeId == 0
    ensures r.ip6.segments[0] == 0xff02
    ensures broadcast <==> r.ip6 == Ipv6Addr(ALL_NODES_V6)
    ensures !broadcast ==> r.ip6 == Ipv6Addr(IPND_GROUP_V6)
  {
    SocketV6(Ipv6Addr(if broadcast then ALL_NODES_V6 else IPND_GROUP_V6), DISCOVERY_PORT, 0, 0)
  }

  /** The IPv4 destination of a round: the limited broadcast address or the IPND group. */
  function V4Destination(broadcast: bool): (r: SocketAddr)
    ensures r.SocketV4? && r.port == DISCOVERY_PORT
    ensures broadcast <==> r.ip4 == BROADCAST_V4
    ensures !broadcast ==> r.ip4 == IPND_GROUP_V4
  {
    SocketV4(if broadcast then BROADCAST_V4 else IPND_GROUP_V4, DISCOVERY_PORT)
  }

  /** Whether the IPv6 and the IPv4 sends happen under `cfg`. */
  predicate SendsV6(cfg: IpConfig) { cfg == Both || cfg == Ipv6Only }
  predicate SendsV4(cfg: IpConfig) { cfg == Both || cfg == Ipv4Only }

  /** The destinations of one round, in order: IPv6, then IPv4, then the extra unicast list. */
  function RoundDestinations(cfg: IpConfig, broadcast: bool, extra: seq<SocketAddr>): (r: seq<SocketAddr>)
    ensures |r| == (if SendsV6(cfg) then 1 else 0) + (if SendsV4(cfg) then 1 else 0) + |extra|
    ensures r[|r| - |extra|..] == extra
  {
    (if SendsV6(cfg) then [V6Destination(broadcast)] else [])
      + (if SendsV4(cfg) then [V4Destination(broadcast)] else [])
      + extra
  }

  /** One `send_to` call: where to, the serialized beacon, and whether the socket reported success. */
  datatype Attempt = Attempt(dest: SocketAddr, payload: DataItem, ok: bool)

  /** The attempts of sending `payload` to each of `dests` in turn; `network` says which succeed. */
  function Sends(dests: seq<SocketAddr>, payload: DataItem, network: SocketAddr -> bool): (r: seq<Attempt>)
    ensures |r| == |dests|
    ensures forall i :: 0 <= i < |r| ==> r[i].dest == dests[i] && r[i].payload == payload
  {
    seq(|dests|, i requires 0 <= i < |dests| => Attempt(dests[i], payload, network(dests[i])))
  }

  /** Sending to one more destination appends its attempt to the log. */
  lemma SendsAppend(dests: seq<SocketAddr>, d: SocketAddr, payload: DataItem, network: SocketAddr -> bool,
                    log: seq<Attempt>, pre: seq<Attempt>, post: seq<Attempt>)
    requires pre == log + Sends(dests, payload, network)
    requires post == pre + [Attempt(d, payload, network(d))]
    ensures post == log + Sends(dests + [d], payload, network)
  {
    assert Sends(dests + [d], payload, network) == Sends(dests, payload, network) + [Attempt(d, payload, network(d))];
  }

  /** The same, for the next address of a list being walked. */
  lemma SendsAppendNext(fixed: seq<SocketAddr>, extra: seq<SocketAddr>, i: nat, payload: DataItem, network: SocketAddr -> bool,
                        log: seq<Attempt>, pre: seq<Attempt>, post: seq<Attempt>)
    requires i < |extra|
    requires pre == log + Sends(fixed + extra[..i], payload, network)
    requires post == pre + [Attempt(extra[i], payload, network(extra[i]))]
    ensures post == log + Sends(fixed + extra[..i + 1], payload, network)
  {
    assert fixed + extra[..i + 1] == (fixed + extra[..i]) + [extra[i]];
    SendsAppend(fixed + extra[..i], extra[i], payload, network, log, pre, post);
  }

  /** The log of one round sending beacon `b`. */
  function RoundLog(cfg: IpConfig, broadcast: bool, extra: seq<SocketAddr>, b: Beacon, network: SocketAddr -> bool)
    : (r: seq<Attempt>)
    ensures |r| == |RoundDestinations(cfg, broadcast, extra)|
    ensures forall i :: 0 <= i < |r| ==> r[i].dest == RoundDestinations(cfg, broadcast, extra)[i]
  {
    Sends(RoundDestinations(cfg, broadcast, extra), EncodeBeacon(b), network)
  }

  /** The log of consecutive rounds starting from beacon `b`, one network per round: round `k` sends `Advance(b, k)`. */
  function RunLog(cfg: IpConfig, broadcast: bool, extra: seq<SocketAddr>, b: Beacon, networks: seq<SocketAddr -> bool>)
    : (r: seq<Attempt>)
    ensures |r| == |networks| * |RoundDestinations(cfg, broadcast, extra)|
    decreases |networks|
  {
    if networks == [] then []
    else
      var k, d := |networks| - 1, |RoundDestinations(cfg, broadcast, extra)|;
      assert (k + 1) * d == k * d + d;
      RunLog(cfg, broadcast, extra, b, networks[..k]) + RoundLog(cfg, broadcast, extra, Advance(b, k), networks[k])
  }

  /** The state of `announcer_task`: its fixed settings, the current beacon and what the socket has been asked to send. */
  class Announcer {
    const ipConfig: IpConfig
    const broadcast: bool
    const extraUnicast: seq<SocketAddr>
    var beacon: Beacon
    var sent: seq<Attempt>

    constructor (ipConfig: IpConfig, broadcast: bool, baseBeacon: Beacon, extraUnicast: seq<SocketAddr>)
      ensures this.ipConfig == ipConfig && this.broadcast == broadcast && this.extraUnicast == extraUnicast
      ensures beacon == baseBeacon && sent == []
    {
      this.ipConfig := ipConfig;
      this.broadcast := broadcast;
      this.extraUnicast := extraUnicast;
      beacon := baseBeacon;
      sent := [];
    }

    /** One pass of the loop body: serialize once, send to every destination whatever the outcomes, then `next`. */
    method Round(network: SocketAddr -> bool)
      modifies this
      ensures beacon == Next(old(beacon))
      ensures sent == old(sent) + RoundLog(ipConfig, broadcast, extraUnicast, old(beacon), network)
    {
      var _, buf := Serialize(beacon);
      ghost var log := sent;
      var fixed: seq<SocketAddr> := [];
      if SendsV6(ipConfig) {
        var addr := V6Destination(broadcast);
        ghost var pre := sent;
        sent := sent + [Attempt(addr, buf, network(addr))];
        SendsAppend(fixed, addr, buf, network, log, pre, sent);
        fixed := fixed + [addr];
      }
      if SendsV4(ipConfig) {
        var addr := V4Destination(broadcast);
        ghost var pre := sent;
        sent := sent + [Attempt(addr, buf, network(addr))];
        SendsAppend(fixed, addr, buf, network, log, pre, sent);
        fixed := fixed + [addr];
      }
      for i := 0 to |extraUnicast|
        invariant beacon == old(beacon)
        invariant sent == log + Sends(fixed + extraUnicast[..i], buf, network)
      {
        var direct := extraUnicast[i];
        ghost var pre := sent;
        sent := sent + [Attempt(direct, buf, network(direct))];
        SendsAppendNext(fixed, extraUnicast, i, buf, network, log, pre, sent);
      }
      assert fixed + extraUnicast[..|extraUnicast|] == RoundDestinations(ipConfig, broadcast, extraUnicast);
      beacon := Next(beacon);
    }

    /**
     * The loop while the continue flag holds, one network per completed round:
     * the flag is read only at the loop head, so rounds are never cut short.
     */
    method Run(networks: seq<SocketAddr -> bool>)
      modifies this
      ensures beacon == Advance(old(beacon), |networks|)
      ensures sent == old(sent) + RunLog(ipConfig, broadcast, extraUnicast, old(beacon), networks)
    {
      ghost var base, log := beacon, sent;
      for i := 0 to |networks|
        invariant beacon == Advance(base, i)
        invariant sent == log + RunLog(ipConfig, broadcast, extraUnicast, base, networks[..i])
      {
        ghost var pre := sent;
        Round(networks[i]);
        RunLogAppend(ipConfig, broadcast, extraUnicast, base, networks, i, log, pre, sent);
      }
      assert networks[..|networks|] == networks;
    }
  }

  /** The log of the first `k + 1` rounds is that of the first `k` and then round `k`. */
  lemma RunLogStep(cfg: IpConfig, broadcast: bool, extra: seq<SocketAddr>, b: Beacon, networks: seq<SocketAddr -> bool>, k: nat)
    requires k < |networks|
    ensures RunLog(cfg, broadcast, extra, b, networks[..k + 1])
      == RunLog(cfg, broadcast, extra, b, networks[..k]) + RoundLog(cfg, broadcast, extra, Advance(b, k), networks[k])
  {
    assert networks[..k + 1][..k] == networks[..k];
  }

  lemma RunLogAppend(cfg: IpConfig, broadcast: bool, extra: seq<SocketAddr>, b: Beacon, networks: seq<SocketAddr -> bool>, k: nat,
                      log: seq<Attempt>, pre: seq<Attempt>, post: seq<Attempt>)
    requires k < |networks|
    requires pre == log + RunLog(cfg, broadcast, extra, b, networks[..k])
    requires post == pre + RoundLog(cfg, broadcast, extra, Advance(b, k), networks[k])
    ensures post == log + RunLog(cfg, broadcast, extra, b, networks[..k + 1])
  {
    RunLogStep(cfg, broadcast, extra, b, networks, k);
  }

  // Properties.

  /** The destinations for every configuration and broadcast setting, before the extra unicast list. */
  lemma DestinationsByConfig(broadcast: bool, extra: seq<SocketAddr>)
    ensures RoundDestinations(Both, broadcast, extra) == [V6Destination(broadcast), V4Destination(broadcast)] + extra
    ensures RoundDestinations(Ipv6Only, broadcast, extra) == [V6Destination(broadcast)] + extra
    ensures RoundDestinations(Ipv4Only, broadcast, extra) == [V4Destination(broadcast)] + extra
  {
    var v6, v4 := V6Destination(broadcast), V4Destination(broadcast);
    assert [v6] + [v4] + extra == [v6, v4] + extra;
    assert [v6] + [] + extra == [v6] + extra;
    assert [] + [v4] + extra == [v4] + extra;
  }

  /**
   * An IPv6 send happens exactly when the configuration allows IPv6, and an
   * IPv4 send exactly when it allows IPv4; the IPv6 one always comes first.
   */
  lemma FamiliesFollowConfig(cfg: IpConfig, broadcast: bool, extra: seq<SocketAddr>)
    requires forall i :: 0 <= i < |extra| ==> extra[i] != V6Destination(broadcast) && extra[i] != V4Destination(broadcast)
    ensures V6Destination(broadcast) in RoundDestinations(cfg, broadcast, extra) <==> cfg != Ipv4Only
    ensures V4Destination(broadcast) in RoundDestinations(cfg, broadcast, extra) <==> cfg != Ipv6Only
    ensures cfg == Both ==> RoundDestinations(cfg, broadcast, extra)[0] == V6Destination(broadcast)
  {
  }

  /**
   * A failed send does not skip later destinations: two rounds of the same
   * beacon under different networks attempt the same destinations, in the
   * same order, with the same payload.
   */
  lemma OutcomesDoNotAffectRound(cfg: IpConfig, broadcast: bool, extra: seq<SocketAddr>, b: Beacon,
                                 n1: SocketAddr -> bool, n2: SocketAddr -> bool)
    ensures var l1, l2 := RoundLog(cfg, broadcast, extra, b, n1), RoundLog(cfg, broadcast, extra, b, n2);
      |l1| == |l2| && forall i :: 0 <= i < |l1| ==> l1[i].dest == l2[i].dest && l1[i].payload == l2[i].payload
  {
  }

  /** Every send of a round carries the same encoded beacon, which decodes back to that beacon. */
  lemma RoundPayloadDecodes(cfg: IpConfig, broadcast: bool, extra: seq<SocketAddr>, b: Beacon, network: SocketAddr -> bool)
    requires RoundTrips(b)
    ensures forall a :: a in RoundLog(cfg, broadcast, extra, b, network) ==>
      a.payload == EncodeBeacon(b) && DeserializeBeacon(a.payload) == Success(b)
  {
    BeaconRoundTrip(b);
  }

  /**
   * The log only grows: the log of the first `k` rounds is a prefix of the
   * log of the whole run.
   */
  lemma {:induction false} RunLogExtends(cfg: IpConfig, broadcast: bool, extra: seq<SocketAddr>, b: Beacon,
                                         networks: seq<SocketAddr -> bool>, k: nat)
    requires k <= |networks|
    ensures RunLog(cfg, broadcast, extra, b, networks[..k]) <= RunLog(cfg, broadcast, extra, b, networks)
    decreases |networks| - k
  {
    if k < |networks| {
      var n := |networks| - 1;
      RunLogExtends(cfg, broadcast, extra, b, networks[..n], k);
      assert networks[..n][..k] == networks[..k];
      RunLogStep(cfg, broadcast, extra, b, networks, n);
      assert networks[..n + 1] == networks;
    } else {
      assert networks[..k] == networks;
    }
  }

  /**
   * Round `k` of a run (counting from 0) sends the base beacon with sequence
   * number (base + k) mod 2^64 and every other field unchanged, right after
   * the attempts of the first `k` rounds.
   */
  lemma RunLogRounds(cfg: IpConfig, broadcast: bool, extra: seq<SocketAddr>, b: Beacon,
                     networks: seq<SocketAddr -> bool>, k: nat)
    requires k < |networks|
    ensures RunLog(cfg, broadcast, extra, b, networks[..k])
        + RoundLog(cfg, broadcast, extra, b.(sequenceNumber := (b.sequenceNumber + k) % UINT64_MODULUS), networks[k])
      <= RunLog(cfg, broadcast, extra, b, networks)
  {
    RunLogExtends(cfg, broadcast, extra, b, networks, k + 1);
    assert networks[..k + 1][..k] == networks[..k];
    AdvanceSequence(b, k);
  }

  /**
   * The beacons of a run, seen by a receiver that recorded round `k`: while
   * the counter does not wrap, round `k + 1` is one higher and passes the
   * receiver's freshness check.
   */
  lemma ConsecutiveRoundsFresh(b: Beacon, k: nat, source: SocketAddr)
    requires b.sequenceNumber + k + 1 < UINT64_MODULUS
    ensures Advance(b, k + 1).sequenceNumber == Advance(b, k).sequenceNumber + 1
    ensures IsFresh(map[source := Advance(b, k).sequenceNumber], source, Advance(b, k + 1).sequenceNumber)
  {
    AdvanceSequence(b, k);
    AdvanceSequence(b, k + 1);
  }
}
