# SOCKS5 proxy handshake, modelled in Dafny

This project models the server side of a minimal SOCKS5 proxy. It covers
the per-connection handshake and the replies the proxy writes:

1. **Method selection** (section 3 of RFC 1928). The proxy accepts only
   method 0x02, username/password.
2. **Username/password subnegotiation** (section 2 of RFC 1929).
3. **The CONNECT request** (sections 4 and 5 of RFC 1928). The target may
   be an IPv4 address, a domain name or an IPv6 address, with a big-endian
   port.
4. **The reply to the request** (section 6 of RFC 1928). This is either the
   fixed 10-octet failure reply or the success reply. The success reply's
   address type follows the family of the outbound connection's bound
   address.

Each stage decides on the one chunk of bytes it receives. It does one of
three things:

- ends the connection and writes nothing;
- writes a fixed reply, then ends;
- writes a reply and moves to the next stage.

The outcome of dialling the target is an input: `DialFailed`, or
`Connected(bound, port)`.

Files:

- `wire.dfy` (module `Wire`): octets, 16-bit big-endian fields and the
  eight-group IPv6 encoding, with their round trip.
- `replies.dfy` (module `Replies`): the failure and success replies, and
  the method that fills the success reply's buffer in place. It also holds
  `ParseReply`, a client-side reader of replies. `ParseReply` is the
  partner the encoders are proved against.
- `handshake.dfy` (module `Handshake`): the stages and one pure step
  function per stage. It also has the two handlers that walk an offset
  cursor through the chunk, written as methods proved equal to their step
  functions. The client-side encoders (`Greeting`, `AuthRequest`,
  `ConnectRequest`) are the partners the decoders are proved against. The
  file ends with the properties of the stages.
- `connection.dfy` (module `Connection`): the class `Session`. It has an
  explicit `stage` field and `sent`, the octets written to the client. Its
  invariant ties the two together.
- `scenarios.dfy` (module `Scenarios`): concrete exchanges, octet for
  octet.

Octets are integers in 0..255. Ports and IPv6 groups are integers in
0..65535.

### One chunk per stage

Each stage reads exactly one `data` chunk (socks5.js:18, 64, 98). The
model does not reassemble messages across chunks, and octets after the
message in the same chunk are dropped. A chunk shorter than the stage's
minimum (2 octets at socks5.js:41 and 71, 7 at socks5.js:105) ends the
connection silently, and that check comes before VER is read. Beyond it,
a greeting is judged on the methods the chunk holds (socks5.js:51), as
`TruncatedGreeting` states, and a request's CMD and ATYP are judged before
its address length (socks5.js:112, 141). `GreetingOutcome`, `AuthAcceptsExactly` and
`RequestRoundTrip` state that trailing octets do not change the outcome.
`AuthTruncatedIsSilent` and `RequestTruncatedIsSilent` state that a
message cut short ends the connection silently.

## Model

| member | source | states |
|---|---|---|
| `Handshake.MethodStep` | socks5.js:39-66 | Writes nothing iff the chunk is shorter than 2 octets or VER is not 5, and then the connection ends. Otherwise it writes `05 02` and moves to the auth stage, or writes `05 FF` and ends. It moves on only after `05 02`. NMETHODS = 0 always gets `05 FF`. |
| `Handshake.GreetingOutcome` | socks5.js:50-62 | A complete greeting gets `05 02` and the auth stage exactly when its method list contains 0x02, and `05 FF` and the end otherwise. Trailing octets are ignored. |
| `Handshake.TruncatedGreeting` | socks5.js:50-54 | The method list is cut to the chunk. A greeting that stops after k octets is accepted iff 0x02 is among the methods it does contain. |
| `Handshake.DecodeAuth` | socks5.js:71-86 | A decoded request starts with VER 1. ULEN is the username's length, PLEN (octet 2+ULEN) is the password's length, and the chunk holds at least 3+ULEN+PLEN octets. Those first 3+ULEN+PLEN octets are exactly the RFC 1929 encoding of the decoded username and password. |
| `Handshake.AuthStep` | socks5.js:69-101 | The request stage is reached iff the decoded username and password both equal the configured ones. That happens iff `01 00` is written. The only other outcomes are `01 01` then end, or end with nothing written when the request does not decode. |
| `Handshake.ParseAuth` | socks5.js:69-100 | The cursor-walking handler writes and moves exactly as `AuthStep` says. |
| `Handshake.AuthRoundTrip` | socks5.js:80-86 | The username is read from octets [2, 2+ULEN) and the password from [3+ULEN, 3+ULEN+PLEN). Decoding an encoded request gives back its username and password, whatever follows it in the chunk. |
| `Handshake.AuthAcceptsExactly` | socks5.js:88-100 | A complete request gets `01 00` and the request stage iff it carries the configured credentials. Otherwise it gets `01 01` and the end. |
| `Handshake.AuthTruncatedIsSilent` | socks5.js:71-85 | Every proper prefix of an auth request ends the connection with nothing written. |
| `Handshake.DecodeTarget` | socks5.js:120-146 | Decoding refuses the ATYP iff it is not 1, 3 or 4. A decoded target's address and port fit in the chunk. |
| `Handshake.RequestStep` | socks5.js:103-146 | A chunk shorter than 7 octets or with VER other than 5 ends the connection with nothing written. The outcome is either the end or the dial of a target, and the dial writes nothing yet. The only replies are the REP 7 and REP 8 failure replies. A CONNECT-less request with VER 5 and at least 7 octets always gets REP 7, whatever its ATYP. REP 8 is written iff VER is 5, CMD is CONNECT and ATYP is not 1, 3 or 4. |
| `Handshake.ParseRequest` | socks5.js:103-146 | The cursor-walking handler, with its loop over the eight IPv6 groups, writes and moves exactly as `RequestStep` says. |
| `Handshake.TargetRoundTrip` | socks5.js:120-146 | The address decoder gives back every IPv4, domain and IPv6 target, with its port, from the target's wire form, whatever follows it. |
| `Handshake.RequestRoundTrip` | socks5.js:103-146 | A complete CONNECT request moves to the dial of exactly the target it names, and writes nothing. |
| `Handshake.RequestTruncatedIsSilent` | socks5.js:105-134 | Every proper prefix of a CONNECT request ends the connection with nothing written, for each of the three address types. |
| `Handshake.RequestIgnoresReserved` | socks5.js:104-111 | RSV is never inspected. Changing octet 2 never changes the outcome. |
| `Handshake.DialReplyParses` | socks5.js:151-165 | A failed dial's reply reads back as REP 5 with 0.0.0.0:0. A successful dial's reply reads back as REP 0 with the connection's bound address and port. |
| `Handshake.DialStep` | socks5.js:151-165 | The relay starts iff the dial succeeded. Otherwise the connection ends. |
| `Handshake.Handle` | socks5.js:18-100 | The stage dispatch that stands for the chain of `once("data")` registrations. Every chunk moves a handshake stage strictly forward, to the very next stage or to Closed, so no stage is skipped or revisited. A chunk in any other stage changes nothing. |
| `Handshake.HandleKeepsTranscript` | socks5.js:56-100 | The octets sent agree with the stage. `05 02` comes before the auth stage, `05 02 01 00` before the request stage, and the request stage writes nothing before the dial. |
| `Handshake.DialKeepsTranscript` | socks5.js:151-165 | The relay starts only after `05 02 01 00` and a reply that reads back as REP 0. |
| `Replies.FailureReply` | socks5.js:175-179 | The failure reply is 10 octets long and carries the given REP. |
| `Replies.FailureReplyParses` | socks5.js:175-179 | Every failure reply reads back as its REP with bound address 0.0.0.0:0. |
| `Replies.SuccessReply` | socks5.js:181-208 | The success reply carries REP 0. Its length is 22 with ATYP 4 for an IPv6 bound address and 10 with ATYP 1 otherwise. |
| `Replies.SuccessReplyParses` | socks5.js:181-208 | A success reply reads back as REP 0 with the bound IPv4 or IPv6 address and port it was built from. An unrecognised address reads back as 0.0.0.0:0. |
| `Replies.SuccessReplyLayout` | socks5.js:181-208 | The reply starts `05 00 00`. The last two octets p0, p1 satisfy p0*256+p1 = the bound port, or 0 for an unrecognised address. |
| `Replies.EncodeSuccess` | socks5.js:181-207 | Filling the buffer field by field produces exactly the success reply, for each bound address family. |
| `Replies.EncodeIPv6Success` | socks5.js:193-202 | The IPv6 branch, with its loop over the eight groups, produces exactly the 22-octet success reply. |
| `Wire.BE16` | socks5.js:192 | A 16-bit value is written as two octets, high first, whose value is the input. |
| `Wire.ReadBE16` | socks5.js:146 | Reading a big-endian 16-bit value is the inverse of writing it. |
| `Wire.GroupsRoundTrip` | socks5.js:134-140 | Reading eight groups back from their big-endian encoding gives the same groups. |
| `Wire.BytesGroupsRoundTrip` | socks5.js:134-140 | The other direction: encoding the groups read from an even number of octets gives those octets back, so the IPv6 address of a request is determined by its 16 octets. |
| `Connection.Session.constructor` | socks5.js:15-18 | A new connection waits for the method selection and has been sent nothing. |
| `Connection.Session.Receive` | socks5.js:18-100 | A chunk is handled as the current stage's step says. The step's reply is appended to what was sent, and the stage strictly advances from a handshake stage. The transcript invariant is kept. |
| `Connection.Session.DialFinished` | socks5.js:151-167 | The dial outcome is handled as `DialStep` says, and its reply is appended to what was sent. |
| `Connection.CompleteHandshake` | socks5.js:15-160 | A client that offers 0x02, sends the configured credentials and a CONNECT, and whose dial succeeds, reaches the relay. It has been sent `05 02 01 00` followed by the success reply. |
| `Scenarios.GreetingOfferingUserPass` | socks5.js:50-62 | `05 01 02` is answered `05 02`. |
| `Scenarios.MatchingCredentials` | socks5.js:80-90 | User "abc", password "xyz" against the same configured pair is answered `01 00`. |
| `Scenarios.ConnectIPv4` | socks5.js:120-192 | CONNECT 127.0.0.1:80 decodes to that target. A dial bound to 10.0.0.5:54321 is answered `05 00 00 01 0a 00 00 05 d4 31`. |
| `Scenarios.UnknownAddressType` | socks5.js:141-144 | ATYP 5 is answered `05 08 00 01 00 00 00 00 00 00`. |
| `Scenarios.UdpAssociateRefused` | socks5.js:112-117 | CMD 3 is answered `05 07 00 01 00 00 00 00 00 00`. |

## Left out

- Server and socket plumbing: creating the server, listening, the `error`
  and `close` handlers, and console logging (socks5.js:12-37). This is I/O
  with no protocol logic.
- Environment configuration (socks5.js:8-10). The credentials are an
  immutable field of each `Session`. The listen port is not modelled.
- The outbound dial and the relay (socks5.js:151-172). These cover
  `net.createConnection`, the two `pipe` calls and `destroy` propagation.
  They are network I/O and event-driven concurrency. The dial is modelled
  only as its outcome. An `error` event on the outbound connection after a
  successful connect is not modelled; in the source, that event would write
  a REP 5 reply into the relayed stream.
- `net.isIPv4`, `net.isIPv6` and the text parsing of the bound address
  (socks5.js:184, 190, 193, 198). The bound address is an already
  classified value: `BoundV4`, `BoundV6` or `Unrecognised`. So the model
  does not capture how `split(":")` handles `::`-compressed IPv6 text.
- Text conversions: the UTF-8 decoding of username, password and domain
  (socks5.js:83, 86, 131), and the dotted or hexadecimal formatting of the
  target (socks5.js:126, 137-140). The model keeps the raw octets and the
  numeric groups.
- AuthStep: compares the username and password as octets, not as decoded
  UTF-8 strings. The two agree when the configured credentials are valid
  UTF-8 without U+FFFD.
- Chunks that arrive while the dial is in progress, during the relay or
  after the end. No handshake handler reads them, and `Session.Receive`
  leaves the session unchanged. Forwarding them during the relay is part
  of the relay, which is left out.
- The `try`/`catch` around the method-selection handler
  (socks5.js:19-24). `handleMethodSelection` throws nothing: it reads only
  `buf[0]` and `buf[1]` after checking that the chunk holds two octets, and
  a `slice` that clamps to the chunk (socks5.js:41-51).
