/**
 * IPv4 addresses and the TUN device configuration shared by the relay and
 * the edge daemons.
 */
module Net {
  import opened Base
  import opened Bytes

  /** `std::net::Ipv4Addr`: four octets, most significant first. */
  datatype Ipv4Addr = Ipv4Addr(a: Byte, b: Byte, c: Byte, d: Byte)

  function Octets(ip: Ipv4Addr): (r: seq<Byte>)
  {
    [ip.a, ip.b, ip.c, ip.d]
  }

  /** `Ipv4Addr::from_octets`. */
  function FromOctets(o: seq<Byte>): (ip: Ipv4Addr)
    requires |o| == 4
    ensures Octets(ip) == o
  {
    Ipv4Addr(o[0], o[1], o[2], o[3])
  }

  /** `Ipv4Addr::from_bits`: the octets of a u32, big-endian. */
  function FromBits(bits: U32): (ip: Ipv4Addr)
    ensures Octets(ip) == BeU32(bits)
  {
    Ipv4Addr(bits / 0x100_0000, (bits / 0x1_0000) % 0x100, (bits / 0x100) % 0x100, bits % 0x100)
  }

  /** `Ipv4Addr::to_bits` (`u32::from(ip)`). */
  function ToBits(ip: Ipv4Addr): (bits: U32)
    ensures bits == FromBeU32(Octets(ip))
  {
    (ip.a as int) * 0x100_0000 + (ip.b as int) * 0x1_0000 + (ip.c as int) * 0x100 + ip.d
  }

  lemma FromBitsToBits(ip: Ipv4Addr)
    ensures FromBits(ToBits(ip)) == ip
  {
    FromBeU32RoundTrip(Octets(ip));
    var ip' := FromBits(ToBits(ip));
    assert Octets(ip') == Octets(ip);
    assert ip'.a == Octets(ip')[0] && ip'.b == Octets(ip')[1];
    assert ip'.c == Octets(ip')[2] && ip'.d == Octets(ip')[3];
  }

  lemma ToBitsFromBits(bits: U32)
    ensures ToBits(FromBits(bits)) == bits
  {
    BeU32RoundTrip(bits);
  }

  const NETMASK_8: Ipv4Addr := Ipv4Addr(255, 0, 0, 0)

  /** `Ipv4Addr & Ipv4Addr` where every octet of the mask is 0 or 255. */
  function MaskOctet(x: Byte, m: Byte): Byte
    requires m == 0 || m == 255
  {
    if m == 255 then x else 0
  }

  function ApplyNetmask8(ip: Ipv4Addr): Ipv4Addr
  {
    Ipv4Addr(MaskOctet(ip.a, NETMASK_8.a), MaskOctet(ip.b, NETMASK_8.b),
             MaskOctet(ip.c, NETMASK_8.c), MaskOctet(ip.d, NETMASK_8.d))
  }

  /**
   * The fields of `tun::Configuration` the daemons set; `None` is a field
   * left at its default.
   */
  datatype TunConfig = TunConfig(
    name: Option<string>,
    address: Option<Ipv4Addr>,
    netmask: Option<Ipv4Addr>,
    destination: Option<Ipv4Addr>,
    mtu: Option<nat>,
    enabled: bool)

  /** `tun::Configuration::default()`. */
  const DEFAULT_CONFIG: TunConfig := TunConfig(None, None, None, None, None, false)

  /** The identity of a device created from a configuration (`tun::create`). */
  datatype Device = Device(config: TunConfig)
}
