/**
 * IP and socket addresses as the Rust standard library defines them, and the
 * address-family setting of the discovery daemon.
 */
module Net {
  import opened Types

  datatype Ipv4Addr = Ipv4Addr(a: uint8, b: uint8, c: uint8, d: uint8)

  /** The eight 16-bit segments of an IPv6 address, most significant first. */
  type Segments = s: seq<uint16> | |s| == 8 witness [0, 0, 0, 0, 0, 0, 0, 0]

  datatype Ipv6Addr = Ipv6Addr(segments: Segments)

  datatype IpAddr = V4(v4: Ipv4Addr) | V6(v6: Ipv6Addr)

  /**
   * `SocketAddr`. A V6 socket address also carries its flow information and
   * scope id, and both take part in equality (so in the neighbour table keys).
   */
  datatype SocketAddr =
    | SocketV4(ip4: Ipv4Addr, port: uint16)
    | SocketV6(ip6: Ipv6Addr, port: uint16, flowInfo: uint32, scopeId: uint32)
  {
    /** `SocketAddr::ip`. */
    function Ip(): IpAddr {
      match this
      case SocketV4(a, _) => V4(a)
      case SocketV6(a, _, _, _) => V6(a)
    }
  }

  /** Which address families the daemon sends on and accepts. */
  datatype IpConfig = Ipv4Only | Both | Ipv6Only

  /** The IPv4-mapped IPv6 address ::ffff:a.b.c.d (RFC 4291 section 2.5.5.2). */
  function Ipv4Mapped(v: Ipv4Addr): Ipv6Addr {
    Ipv6Addr([0, 0, 0, 0, 0, 0xffff, v.a * 256 + v.b, v.c * 256 + v.d])
  }

  /** The deprecated IPv4-compatible IPv6 address ::a.b.c.d (RFC 4291 section 2.5.5.1). */
  function Ipv4Compatible(v: Ipv4Addr): Ipv6Addr {
    Ipv6Addr([0, 0, 0, 0, 0, 0, v.a * 256 + v.b, v.c * 256 + v.d])
  }

  /**
   * `Ipv6Addr::to_ipv4`: the embedded IPv4 address of an IPv4-mapped or an
   * IPv4-compatible address (so also of `::` and `::1`), and nothing otherwise.
   */
  function ToIpv4(addr: Ipv6Addr): (r: Option<Ipv4Addr>)
    ensures r.Some? ==> addr == Ipv4Mapped(r.value) || addr == Ipv4Compatible(r.value)
  {
    var s := addr.segments;
    if s[0] == 0 && s[1] == 0 && s[2] == 0 && s[3] == 0 && s[4] == 0 && (s[5] == 0 || s[5] == 0xffff)
    then Some(Ipv4Addr(s[6] / 256, s[6] % 256, s[7] / 256, s[7] % 256))
    else None
  }

  /** `to_ipv4` recovers the address that was embedded, in both embeddings. */
  lemma ToIpv4Inverts(v: Ipv4Addr)
    ensures ToIpv4(Ipv4Mapped(v)) == Some(v)
    ensures ToIpv4(Ipv4Compatible(v)) == Some(v)
  {
  }

  /** `to_ipv4` finds an address exactly for the two embeddings of RFC 4291. */
  lemma ToIpv4SomeIff(addr: Ipv6Addr)
    ensures ToIpv4(addr).Some? <==> exists v :: addr == Ipv4Mapped(v) || addr == Ipv4Compatible(v)
  {
    if exists v :: addr == Ipv4Mapped(v) || addr == Ipv4Compatible(v) {
      var v :| addr == Ipv4Mapped(v) || addr == Ipv4Compatible(v);
      ToIpv4Inverts(v);
    }
  }

  /** The loopback address `::1` is IPv4-compatible, so `to_ipv4` maps it to 0.0.0.1. */
  lemma LoopbackHasIpv4Form()
    ensures ToIpv4(Ipv6Addr([0, 0, 0, 0, 0, 0, 0, 1])) == Some(Ipv4Addr(0, 0, 0, 1))
  {
  }
}
