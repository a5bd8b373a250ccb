/** The three handshake stages of the proxy, each a decision over the one
    chunk of bytes that the stage receives: method selection (section 3 of
    RFC 1928), username/password subnegotiation (section 2 of RFC 1929) and
    the CONNECT request (sections 4 and 5 of RFC 1928).

    Each stage either ends the connection writing nothing, writes a fixed
    reply and ends, or writes a reply and moves to the next stage. Bytes of
    the chunk beyond the message are not kept: the next stage reads the next
    chunk. The client-side encoders at the end are the partners the
    decoders are proved against. */
module Handshake {
  import opened Wire
  import opened Replies

  const AuthVersion: Byte := 0x01
  const UserPassMethod: Byte := 0x02
  const NoAcceptableMethods: Byte := 0xFF
  const ConnectCommand: Byte := 0x01

  /** A username and a password, as the octets the client sends. */
  datatype Credentials = Credentials(user: seq<Byte>, pass: seq<Byte>)

  /** A name of at most 255 octets: its length fits the LEN octet. */
  type DomainName = s: seq<Byte> | |s| < 0x100

  /** DST.ADDR of a request. */
  datatype Address = V4(octets: Octets4) | Domain(name: DomainName) | V6(groups: Groups8)

  /** Where the client asks the proxy to connect. */
  datatype Target = Target(addr: Address, port: U16)

  /** Where a connection stands. Connecting carries the decoded target that
      is handed to the outbound dial. */
  datatype Stage =
    | AwaitMethods
    | AwaitAuth
    | AwaitRequest
    | Connecting(target: Target)
    | Relaying
    | Closed

  /** What handling one chunk or event does: the octets written to the
      client and the stage that follows (Closed means the connection ends). */
  datatype Step = Step(written: seq<Byte>, next: Stage)

  /** The outcome of dialling the target, an input to the model. */
  datatype DialResult = DialFailed | Connected(bound: Bound, port: U16)

  /** Position of a stage in the forward order of the handshake. */
  function Rank(s: Stage): nat
  {
    match s
    case AwaitMethods => 0
    case AwaitAuth => 1
    case AwaitRequest => 2
    case Connecting(_) => 3
    case Relaying => 4
    case Closed => 5
  }

  predicate IsHandshakeStage(s: Stage)
  {
    s.AwaitMethods? || s.AwaitAuth? || s.AwaitRequest?
  }

  // ---------------------------------------------------------------------
  // Stage 1: method selection

  /** The methods the client offers: the octets after VER and NMETHODS, as
      many as NMETHODS says but no more than the chunk holds. None when the
      chunk is shorter than two octets or VER is not 5. */
  function OfferedMethods(c: seq<Byte>): Option<seq<Byte>>
  {
    if |c| < 2 || c[0] != Version then None
    else Some(c[2..Min(2 + c[1] as int, |c|)])
  }

  /** `handleMethodSelection`: only username/password is acceptable. */
  function MethodStep(c: seq<Byte>): (r: Step)
    ensures r.written == [] <==> (|c| < 2 || c[0] != Version)
    ensures r.written == [] ==> r.next == Closed
    ensures r.next != Closed <==> r.written == [Version, UserPassMethod]
    ensures r.next != Closed ==> r.next == AwaitAuth
    ensures r.written != [] && r.next == Closed ==> r.written == [Version, NoAcceptableMethods]
    ensures |c| >= 2 && c[0] == Version && c[1] == 0 ==> r.written == [Version, NoAcceptableMethods]
  {
    match OfferedMethods(c)
    case None => Step([], Closed)
    case Some(methods) =>
      if UserPassMethod in methods then Step([Version, UserPassMethod], AwaitAuth)
      else Step([Version, NoAcceptableMethods], Closed)
  }

  // ---------------------------------------------------------------------
  // Stage 2: username/password subnegotiation

  /** The username and password of an RFC 1929 request: None when the chunk
      is shorter than two octets, VER is not 1, or the chunk ends before the
      PLEN octet or before the end of the password. */
  function DecodeAuth(c: seq<Byte>): (r: Option<Credentials>)
    ensures r.Some? ==> |c| >= 3 + |r.value.user| + |r.value.pass|
    ensures r.Some? ==> c[0] == AuthVersion && c[1] == |r.value.user|
    ensures r.Some? ==> c[2 + |r.value.user|] == |r.value.pass|
    ensures r.Some? ==> c[..3 + |r.value.user| + |r.value.pass|] == AuthRequest(r.value)
  {
    if |c| < 2 || c[0] != AuthVersion then None
    else
      var ulen: int := c[1];
      if |c| < 2 + ulen + 1 then None
      else
        var plen: int := c[2 + ulen];
        if |c| < 3 + ulen + plen then None
        else Some(Credentials(c[2..2 + ulen], c[3 + ulen..3 + ulen + plen]))
  }

  /** `handleUserPassAuth`: STATUS 0 and the request stage when both fields
      equal the configured ones, STATUS 1 and the end otherwise. */
  function AuthStep(c: seq<Byte>, cred: Credentials): (r: Step)
    ensures r.next == AwaitRequest <==> DecodeAuth(c) == Some(cred)
    ensures r.next == AwaitRequest <==> r.written == [AuthVersion, 0x00]
    ensures r.next != AwaitRequest ==> r.next == Closed
    ensures r.written == [] <==> DecodeAuth(c).None?
    ensures r.written != [] && r.next == Closed ==> r.written == [AuthVersion, 0x01]
  {
    match DecodeAuth(c)
    case None => Step([], Closed)
    case Some(offered) =>
      if offered == cred then Step([AuthVersion, 0x00], AwaitRequest)
      else Step([AuthVersion, 0x01], Closed)
  }

  /** `handleUserPassAuth` as the source computes it, walking an offset cursor
      through the chunk. */
  method ParseAuth(c: seq<Byte>, cred: Credentials) returns (written: seq<Byte>, next: Stage)
    ensures Step(written, next) == AuthStep(c, cred)
  {
    if |c| < 2 {
      return [], Closed;
    }
    if c[0] != AuthVersion {
      return [], Closed;
    }
    var offset := 1;
    var ulen: int := c[offset];
    offset := offset + 1;
    if |c| < offset + ulen + 1 {
      return [], Closed;
    }
    var user := c[offset..offset + ulen];
    offset := offset + ulen;
    var plen: int := c[offset];
    offset := offset + 1;
    if |c| < offset + plen {
      return [], Closed;
    }
    var pass := c[offset..offset + plen];
    var ok := user == cred.user && pass == cred.pass;
    written := [AuthVersion, if ok then 0x00 else 0x01];
    next := if ok then AwaitRequest else Closed;
  }

  // ---------------------------------------------------------------------
  // Stage 3: the CONNECT request

  /** Decoding DST.ADDR and DST.PORT. */
  datatype TargetResult = Decoded(target: Target) | Truncated | UnsupportedAtyp

  /** The address and port that follow ATYP; `rest` is the chunk from
      octet 4 on. A known ATYP whose address and port do not fit in the
      chunk is Truncated; any other ATYP is unsupported. */
  function DecodeTarget(atyp: Byte, rest: seq<Byte>): (r: TargetResult)
    requires |rest| >= 3
    ensures r.UnsupportedAtyp? <==> atyp !in {AtypIPv4, AtypDomain, AtypIPv6}
    ensures r.Decoded? ==> |rest| >= |AddressOctets(r.target.addr)| + 2
  {
    if atyp == AtypIPv4 then
      if |rest| < 4 + 2 then Truncated
      else Decoded(Target(V4(rest[..4]), ReadBE16(rest[4], rest[5])))
    else if atyp == AtypDomain then
      var len: int := rest[0];
      if |rest| < 1 + len + 2 then Truncated
      else Decoded(Target(Domain(rest[1..1 + len]), ReadBE16(rest[1 + len], rest[2 + len])))
    else if atyp == AtypIPv6 then
      if |rest| < 16 + 2 then Truncated
      else Decoded(Target(V6(BytesToGroups(rest[..16])), ReadBE16(rest[16], rest[17])))
    else UnsupportedAtyp
  }

  /** `handleSocksRequest` up to the dial: a short chunk or a VER other than
      5 ends silently; a command other than CONNECT is refused before ATYP is
      looked at; RSV is never read. */
  function RequestStep(c: seq<Byte>): (r: Step)
    ensures |c| < 7 || c[0] != Version ==> r == Step([], Closed)
    ensures r.next == Closed || r.next.Connecting?
    ensures r.next.Connecting? ==> r.written == []
    ensures r.written in {[], FailureReply(CommandNotSupported), FailureReply(AddressTypeNotSupported)}
    ensures |c| >= 7 && c[0] == Version && c[1] != ConnectCommand ==> r.written == FailureReply(CommandNotSupported)
    ensures r.written == FailureReply(AddressTypeNotSupported) <==>
              |c| >= 7 && c[0] == Version && c[1] == ConnectCommand && c[3] !in {AtypIPv4, AtypDomain, AtypIPv6}
  {
    if |c| < 7 || c[0] != Version then Step([], Closed)
    else if c[1] != ConnectCommand then Step(FailureReply(CommandNotSupported), Closed)
    else
      match DecodeTarget(c[3], c[4..])
      case Truncated => Step([], Closed)
      case UnsupportedAtyp => Step(FailureReply(AddressTypeNotSupported), Closed)
      case Decoded(t) => Step([], Connecting(t))
  }

  /** `handleSocksRequest` as the source computes it: an offset cursor through
      the chunk and, for IPv6, a loop reading the eight groups. */
  method ParseRequest(c: seq<Byte>) returns (written: seq<Byte>, next: Stage)
    ensures Step(written, next) == RequestStep(c)
  {
    if |c| < 7 {
      return [], Closed;
    }
    var ver, cmd, atyp := c[0], c[1], c[3];
    if ver != Version {
      return [], Closed;
    }
    if cmd != ConnectCommand {
      return FailureReply(CommandNotSupported), Closed;
    }
    var addr: Address;
    var offset := 4;
    if atyp == AtypIPv4 {
      if |c| < offset + 4 + 2 {
        return [], Closed;
      }
      addr := V4(c[offset..offset + 4]);
      offset := offset + 4;
      assert c[4..][..4] == c[4..8];
    } else if atyp == AtypDomain {
      var len: int := c[offset];
      offset := offset + 1;
      if |c| < offset + len + 2 {
        return [], Closed;
      }
      addr := Domain(c[offset..offset + len]);
      offset := offset + len;
      assert c[4..][1..1 + len] == c[5..5 + len];
    } else if atyp == AtypIPv6 {
      if |c| < offset + 16 + 2 {
        return [], Closed;
      }
      var parts: seq<U16> := [];
      var i := 0;
      while i < 8
        invariant 0 <= i <= 8 && offset == 4 + 2 * i && |parts| == i
        invariant forall k :: 0 <= k < i ==> parts[k] == ReadBE16(c[4 + 2 * k], c[5 + 2 * k])
      {
        parts := parts + [ReadBE16(c[offset], c[offset + 1])];
        offset := offset + 2;
        i := i + 1;
      }
      forall k | 0 <= k < 8
        ensures parts[k] == BytesToGroups(c[4..20])[k]
      {
        BytesToGroupsAt(c[4..20], k);
      }
      assert c[4..][..16] == c[4..20];
      assert parts == BytesToGroups(c[4..20]);
      addr := V6(parts);
    } else {
      return FailureReply(AddressTypeNotSupported), Closed;
    }
    var port := ReadBE16(c[offset], c[offset + 1]);
    written, next := [], Connecting(Target(addr, port));
  }

  // ---------------------------------------------------------------------
  // The dial outcome, and dispatch by stage

  /** The connection to the target either fails, which is answered with
      REP 5 and ends the connection, or succeeds, which is answered with the
      success reply for the bound address and starts the relay. */
  function DialStep(d: DialResult): (r: Step)
    ensures r.next == Relaying <==> d.Connected?
    ensures r.next != Relaying ==> r.next == Closed
  {
    match d
    case DialFailed => Step(FailureReply(ConnectionRefused), Closed)
    case Connected(bound, port) => Step(SuccessReply(bound, port), Relaying)
  }

  /** The client reads the dial outcome from the reply: REP 5 with 0.0.0.0:0
      on failure, REP 0 with the bound address and port on success. */
  lemma DialReplyParses(d: DialResult)
    ensures ParseReply(DialStep(d).written) ==
      match d
      case DialFailed => Some(Reply(ConnectionRefused, Unspecified, 0))
      case Connected(bound, port) => Some(Announced(bound, port))
  {
    match d
    case DialFailed => FailureReplyParses(ConnectionRefused);
    case Connected(bound, port) => SuccessReplyParses(bound, port);
  }

  /** A chunk received in stage `s`. A handshake stage moves strictly
      forward, to the very next stage or to Closed, so no stage is skipped
      or revisited. Outside the three handshake stages no handler reads the
      chunk, and the stage does not change. */
  function Handle(s: Stage, c: seq<Byte>, cred: Credentials): (r: Step)
    ensures IsHandshakeStage(s) ==> r.next == Closed || Rank(r.next) == Rank(s) + 1
    ensures !IsHandshakeStage(s) ==> r == Step([], s)
  {
    match s
    case AwaitMethods => MethodStep(c)
    case AwaitAuth => AuthStep(c, cred)
    case AwaitRequest => RequestStep(c)
    case _ => Step([], s)
  }

  // ---------------------------------------------------------------------
  // Client-side encoders: the partners of the decoders above

  /** A method-selection message offering `methods`. */
  function Greeting(methods: seq<Byte>): seq<Byte>
    requires |methods| < 0x100
  {
    [Version, |methods|] + methods
  }

  /** An RFC 1929 request carrying `cred`. */
  function AuthRequest(cred: Credentials): seq<Byte>
    requires |cred.user| < 0x100 && |cred.pass| < 0x100
  {
    [AuthVersion, |cred.user|] + cred.user + [|cred.pass|] + cred.pass
  }

  function AtypOf(a: Address): Byte
  {
    match a
    case V4(_) => AtypIPv4
    case Domain(_) => AtypDomain
    case V6(_) => AtypIPv6
  }

  /** DST.ADDR on the wire. */
  function AddressOctets(a: Address): (r: seq<Byte>)
    ensures |r| >= 1
  {
    match a
    case V4(o) => o
    case Domain(n) => [|n|] + n
    case V6(g) => GroupsToBytes(g)
  }

  /** DST.ADDR followed by DST.PORT. */
  function TargetOctets(t: Target): seq<Byte>
  {
    AddressOctets(t.addr) + BE16(t.port)
  }

  /** A CONNECT request for `t`, with RSV `rsv`. */
  function ConnectRequest(t: Target, rsv: Byte): seq<Byte>
  {
    [Version, ConnectCommand, rsv, AtypOf(t.addr)] + TargetOctets(t)
  }

  // ---------------------------------------------------------------------
  // Properties of the stages

  /** A complete greeting is answered `05 02` exactly when it offers method
      2, and `05 FF` otherwise; anything after it in the chunk is ignored. */
  lemma GreetingOutcome(methods: seq<Byte>, rest: seq<Byte>)
    requires |methods| < 0x100
    ensures MethodStep(Greeting(methods) + rest) ==
      if UserPassMethod in methods then Step([Version, UserPassMethod], AwaitAuth)
      else Step([Version, NoAcceptableMethods], Closed)
  {
    var c := Greeting(methods) + rest;
    assert c[2..2 + |methods|] == methods;
  }

  /** The method list is cut to the chunk: a chunk that ends early is
      judged on the methods it does hold. */
  lemma TruncatedGreeting(methods: seq<Byte>, k: nat)
    requires |methods| < 0x100 && 2 <= k <= 2 + |methods|
    ensures MethodStep(Greeting(methods)[..k]).next == AwaitAuth <==> UserPassMethod in methods[..k - 2]
  {
    var c := Greeting(methods)[..k];
    assert c[2..k] == methods[..k - 2];
  }

  /** The RFC 1929 decoder reads back the username and password of a
      complete request, whatever follows it in the chunk. */
  lemma {:induction false} AuthRoundTrip(cred: Credentials, rest: seq<Byte>)
    requires |cred.user| < 0x100 && |cred.pass| < 0x100
    ensures DecodeAuth(AuthRequest(cred) + rest) == Some(cred)
  {
    var c := AuthRequest(cred) + rest;
    var u := |cred.user|;
    assert c[2..2 + u] == cred.user;
    assert c[2 + u] == |cred.pass|;
    assert c[3 + u..3 + u + |cred.pass|] == cred.pass;
  }

  /** A complete request is accepted exactly when it carries the configured
      credentials. */
  lemma AuthAcceptsExactly(offered: Credentials, cred: Credentials, rest: seq<Byte>)
    requires |offered.user| < 0x100 && |offered.pass| < 0x100
    ensures AuthStep(AuthRequest(offered) + rest, cred) ==
      if offered == cred then Step([AuthVersion, 0x00], AwaitRequest) else Step([AuthVersion, 0x01], Closed)
  {
    AuthRoundTrip(offered, rest);
  }

  /** Every proper prefix of a request ends the connection silently. */
  lemma AuthTruncatedIsSilent(offered: Credentials, cred: Credentials, k: nat)
    requires |offered.user| < 0x100 && |offered.pass| < 0x100
    requires k < |AuthRequest(offered)|
    ensures AuthStep(AuthRequest(offered)[..k], cred) == Step([], Closed)
  {
    var full := AuthRequest(offered);
    var u := |offered.user|;
    if k >= 3 + u {
      assert full[2 + u] == |offered.pass|;
    }
  }

  /** The target decoder reads back every target from its wire form,
      whatever follows it in the chunk. */
  lemma {:induction false} TargetRoundTrip(t: Target, rest: seq<Byte>)
    ensures |TargetOctets(t) + rest| >= 3
    ensures DecodeTarget(AtypOf(t.addr), TargetOctets(t) + rest) == Decoded(t)
  {
    var b := TargetOctets(t) + rest;
    var n := |AddressOctets(t.addr)|;
    assert b[n..n + 2] == BE16(t.port);
    match t.addr
    case V4(o) =>
      assert b[..4] == o;
    case Domain(name) =>
      assert b[1..1 + |name|] == name;
    case V6(g) =>
      assert b[..16] == GroupsToBytes(g);
      GroupsRoundTrip(g);
  }

  /** A complete CONNECT request moves to the dial of exactly the target
      it names, writing nothing yet. */
  lemma RequestRoundTrip(t: Target, rsv: Byte, rest: seq<Byte>)
    ensures RequestStep(ConnectRequest(t, rsv) + rest) == Step([], Connecting(t))
  {
    var c := ConnectRequest(t, rsv) + rest;
    TargetRoundTrip(t, rest);
    assert c[4..] == TargetOctets(t) + rest;
  }

  /** Every proper prefix of a CONNECT request ends the connection
      silently. */
  lemma RequestTruncatedIsSilent(t: Target, rsv: Byte, k: nat)
    requires k < |ConnectRequest(t, rsv)|
    ensures RequestStep(ConnectRequest(t, rsv)[..k]) == Step([], Closed)
  {
    var c := ConnectRequest(t, rsv)[..k];
    if k >= 7 {
      match t.addr
      case V4(_) =>
      case V6(_) =>
      case Domain(name) =>
        assert c[4] == |name|;
    }
  }

  /** RSV is never inspected: changing octet 2 changes nothing. */
  lemma RequestIgnoresReserved(c: seq<Byte>, rsv: Byte)
    requires |c| >= 3
    ensures RequestStep(c[2 := rsv]) == RequestStep(c)
  {
    var d := c[2 := rsv];
    if |c| >= 7 {
      assert d[4..] == c[4..];
    }
  }

  // ---------------------------------------------------------------------
  // What the client has been sent, stage by stage

  /** The octets written to the client so far agree with the stage reached:
      each stage is entered only after the reply accepting the previous
      message, and the relay only after a success reply. */
  predicate TranscriptAgrees(s: Stage, sent: seq<Byte>)
  {
    match s
    case AwaitMethods => sent == []
    case AwaitAuth => sent == [Version, UserPassMethod]
    case AwaitRequest => sent == [Version, UserPassMethod, AuthVersion, 0x00]
    case Connecting(_) => sent == [Version, UserPassMethod, AuthVersion, 0x00]
    case Relaying =>
      && |sent| >= 4
      && sent[..4] == [Version, UserPassMethod, AuthVersion, 0x00]
      && ParseReply(sent[4..]).Some?
      && ParseReply(sent[4..]).value.rep == Succeeded
    case Closed => true
  }

  /** Handling a chunk keeps the transcript in agreement with the stage. */
  lemma HandleKeepsTranscript(s: Stage, sent: seq<Byte>, c: seq<Byte>, cred: Credentials)
    requires TranscriptAgrees(s, sent)
    ensures TranscriptAgrees(Handle(s, c, cred).next, sent + Handle(s, c, cred).written)
  {
    var st := Handle(s, c, cred);
    if s.Relaying? {
      assert (sent + st.written)[4..] == sent[4..];
    }
  }

  /** So does the dial outcome, in the Connecting stage. */
  lemma DialKeepsTranscript(s: Stage, sent: seq<Byte>, d: DialResult)
    requires s.Connecting? && TranscriptAgrees(s, sent)
    ensures TranscriptAgrees(DialStep(d).next, sent + DialStep(d).written)
  {
    var w := sent + DialStep(d).written;
    assert w[4..] == DialStep(d).written;
  }
}
