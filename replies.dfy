/** The server's replies to a CONNECT request (section 6 of RFC 1928):
    `VER REP RSV ATYP BND.ADDR BND.PORT`, and a client-side reader of them
    that serves as their independent partner. */
module Replies {
  import opened Wire

  const Version: Byte := 0x05

  // REP values the server uses
  const Succeeded: Byte := 0x00
  const ConnectionRefused: Byte := 0x05
  const CommandNotSupported: Byte := 0x07
  const AddressTypeNotSupported: Byte := 0x08

  // ATYP values
  const AtypIPv4: Byte := 0x01
  const AtypDomain: Byte := 0x03
  const AtypIPv6: Byte := 0x04

  /** The local address of the outbound connection, already classified:
      an IPv4 address, an IPv6 address, or text that is neither. */
  datatype Bound = BoundV4(octets: Octets4) | BoundV6(groups: Groups8) | Unrecognised

  /** A reply as a client reads it. */
  datatype Reply = Reply(rep: Byte, bound: Bound, port: U16)

  const Unspecified: Bound := BoundV4([0, 0, 0, 0])

  /** `sendSocksReply`: the fixed reply carrying `rep` and the bound
      address 0.0.0.0:0. */
  function FailureReply(rep: Byte): (r: seq<Byte>)
    ensures |r| == 10 && r[1] == rep
  {
    [Version, rep, 0x00, AtypIPv4, 0, 0, 0, 0, 0, 0]
  }

  /** `sendSocksSuccess`: the success reply, whose ATYP follows the family
      of the bound address; an unrecognised address is sent as 0.0.0.0:0. */
  function SuccessReply(bound: Bound, port: U16): (r: seq<Byte>)
    ensures |r| == (if bound.BoundV6? then 22 else 10)
    ensures r[3] == (if bound.BoundV6? then AtypIPv6 else AtypIPv4)
    ensures r[1] == Succeeded
  {
    match bound
    case BoundV4(o) => [Version, Succeeded, 0x00, AtypIPv4] + o + BE16(port)
    case BoundV6(g) => [Version, Succeeded, 0x00, AtypIPv6] + GroupsToBytes(g) + BE16(port)
    case Unrecognised => [Version, Succeeded, 0x00, AtypIPv4, 0, 0, 0, 0, 0, 0]
  }

  /** A client reading a reply: VER 5, RSV 0, and an IPv4 (10 octets in all)
      or IPv6 (22 octets in all) bound address followed by the port. */
  function ParseReply(b: seq<Byte>): Option<Reply>
  {
    if |b| < 4 || b[0] != Version || b[2] != 0x00 then None
    else if b[3] == AtypIPv4 && |b| == 10 then
      Some(Reply(b[1], BoundV4(b[4..8]), ReadBE16(b[8], b[9])))
    else if b[3] == AtypIPv6 && |b| == 22 then
      Some(Reply(b[1], BoundV6(BytesToGroups(b[4..20])), ReadBE16(b[20], b[21])))
    else None
  }

  /** Every failure reply reads back as its REP code with 0.0.0.0:0. */
  lemma FailureReplyParses(rep: Byte)
    ensures ParseReply(FailureReply(rep)) == Some(Reply(rep, Unspecified, 0))
  {
    var r := FailureReply(rep);
    assert r[4..8] == [0, 0, 0, 0];
  }

  /** The bound address and port the client reads from a success reply:
      the connection's own, or 0.0.0.0:0 when the address was unrecognised. */
  function Announced(bound: Bound, port: U16): Reply
  {
    if bound.Unrecognised? then Reply(Succeeded, Unspecified, 0) else Reply(Succeeded, bound, port)
  }

  /** A success reply reads back as REP 0 with exactly the bound address
      and port it was built from. */
  lemma {:induction false} SuccessReplyParses(bound: Bound, port: U16)
    ensures ParseReply(SuccessReply(bound, port)) == Some(Announced(bound, port))
  {
    var r := SuccessReply(bound, port);
    match bound
    case BoundV4(o) =>
      assert r[4..8] == o;
      assert r[8..10] == BE16(port);
    case BoundV6(g) =>
      assert r[4..20] == GroupsToBytes(g);
      assert r[20..22] == BE16(port);
      GroupsRoundTrip(g);
    case Unrecognised =>
      assert r[4..8] == [0, 0, 0, 0];
  }

  /** The reply starts `05 00 00`, and its last two octets hold the port
      big-endian (0 for an unrecognised address). */
  lemma SuccessReplyLayout(bound: Bound, port: U16)
    ensures var r := SuccessReply(bound, port);
      && r[..3] == [Version, Succeeded, 0x00]
      && r[|r| - 2] as int * 0x100 + r[|r| - 1] == (if bound.Unrecognised? then 0 else port)
  {
  }

  /** `sendSocksSuccess` as the source computes it: fill a zeroed buffer of the
      family's size field by field. */
  method EncodeSuccess(bound: Bound, port: U16) returns (resp: seq<Byte>)
    ensures resp == SuccessReply(bound, port)
  {
    match bound {
      case BoundV4(o) =>
        var a := new Byte[10];
        a[0], a[1], a[2], a[3] := Version, Succeeded, 0x00, AtypIPv4;
        a[4], a[5], a[6], a[7] := o[0], o[1], o[2], o[3];
        a[8], a[9] := port / 0x100, port % 0x100;
        resp := a[..];
        assert resp == [Version, Succeeded, 0x00, AtypIPv4] + o + BE16(port);
      case BoundV6(g) =>
        resp := EncodeIPv6Success(g, port);
      case Unrecognised =>
        resp := [Version, Succeeded, 0x00, AtypIPv4, 0, 0, 0, 0, 0, 0];
    }
  }

  /** The IPv6 branch of `sendSocksSuccess`: the eight groups are written
      big-endian in a loop, then the port. */
  method EncodeIPv6Success(g: Groups8, port: U16) returns (resp: seq<Byte>)
    ensures resp == SuccessReply(BoundV6(g), port)
  {
    var a := new Byte[4 + 16 + 2];
    a[0], a[1], a[2], a[3] := Version, Succeeded, 0x00, AtypIPv6;
    var i := 0;
    while i < 8
      invariant 0 <= i <= 8
      invariant a[..4] == [Version, Succeeded, 0x00, AtypIPv6]
      invariant forall k :: 0 <= k < i ==> a[4 + 2 * k] == g[k] / 0x100 && a[5 + 2 * k] == g[k] % 0x100
    {
      a[4 + i * 2], a[5 + i * 2] := g[i] / 0x100, g[i] % 0x100;
      i := i + 1;
    }
    a[20], a[21] := port / 0x100, port % 0x100;
    resp := a[..];
    ghost var groups := GroupsToBytes(g);
    forall k | 0 <= k < 8
      ensures resp[4 + 2 * k] == groups[2 * k] && resp[5 + 2 * k] == groups[2 * k + 1]
    {
      GroupsToBytesAt(g, k);
    }
    assert resp[4..20] == groups by {
      forall j | 0 <= j < 16
        ensures resp[4 + j] == groups[j]
      {
        var k := j / 2;
        assert j == 2 * k || j == 2 * k + 1;
      }
    }
    assert resp == resp[..4] + resp[4..20] + resp[20..];
  }
}
