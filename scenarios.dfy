/** Concrete exchanges of the handshake, octet for octet. */
module Scenarios {
  import opened Replies
  import opened Handshake

  /** A greeting offering only username/password is answered `05 02`. */
  lemma GreetingOfferingUserPass()
    ensures MethodStep([0x05, 0x01, 0x02]) == Step([0x05, 0x02], AwaitAuth)
  {
    GreetingOutcome([0x02], []);
    assert Greeting([0x02]) + [] == [0x05, 0x01, 0x02];
  }

  /** User "abc" with password "xyz", configured as such, is accepted. */
  lemma MatchingCredentials()
    ensures AuthStep([0x01, 0x03, 0x61, 0x62, 0x63, 0x03, 0x78, 0x79, 0x7a],
                     Credentials([0x61, 0x62, 0x63], [0x78, 0x79, 0x7a]))
            == Step([0x01, 0x00], AwaitRequest)
  {
    var cred := Credentials([0x61, 0x62, 0x63], [0x78, 0x79, 0x7a]);
    AuthAcceptsExactly(cred, cred, []);
    assert AuthRequest(cred) + [] == [0x01, 0x03, 0x61, 0x62, 0x63, 0x03, 0x78, 0x79, 0x7a];
  }

  /** CONNECT 127.0.0.1:80, then a dial bound to 10.0.0.5:54321. */
  lemma ConnectIPv4()
    ensures RequestStep([0x05, 0x01, 0x00, 0x01, 0x7f, 0x00, 0x00, 0x01, 0x00, 0x50])
            == Step([], Connecting(Target(V4([127, 0, 0, 1]), 80)))
    ensures DialStep(Connected(BoundV4([10, 0, 0, 5]), 54321)).written
            == [0x05, 0x00, 0x00, 0x01, 0x0a, 0x00, 0x00, 0x05, 0xd4, 0x31]
  {
    var t := Target(V4([127, 0, 0, 1]), 80);
    RequestRoundTrip(t, 0x00, []);
    assert ConnectRequest(t, 0x00) + [] == [0x05, 0x01, 0x00, 0x01, 0x7f, 0x00, 0x00, 0x01, 0x00, 0x50];
  }

  /** ATYP 5 is refused with REP 8. */
  lemma UnknownAddressType()
    ensures RequestStep([0x05, 0x01, 0x00, 0x05, 0x7f, 0x00, 0x00, 0x01, 0x00, 0x50])
            == Step([0x05, 0x08, 0x00, 0x01, 0x00, 0x00, 0x00, 0x00, 0x00, 0x00], Closed)
  {
  }

  /** UDP ASSOCIATE (CMD 3) is refused with REP 7. */
  lemma UdpAssociateRefused()
    ensures RequestStep([0x05, 0x03, 0x00, 0x01, 0x7f, 0x00, 0x00, 0x01, 0x00, 0x50])
            == Step([0x05, 0x07, 0x00, 0x01, 0x00, 0x00, 0x00, 0x00, 0x00, 0x00], Closed)
  {
  }
}
