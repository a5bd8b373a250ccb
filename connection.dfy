/** One client connection of the proxy. The source keeps the stage
    implicit in which `data` handler is registered next; here it is the
    field `stage`, and `sent` is everything written to the client. */
module Connection {
  import opened Wire
  import opened Replies
  import opened Handshake

  class Session {
    /** The configured username and password, fixed for the server's life. */
    const cred: Credentials
    var stage: Stage
    var sent: seq<Byte>

    /** The octets sent so far agree with the stage reached. */
    ghost predicate Valid()
      reads this
    {
      TranscriptAgrees(stage, sent)
    }

    /** A freshly accepted connection waits for the method selection. */
    constructor (cred: Credentials)
      ensures Valid()
      ensures this.cred == cred && stage == AwaitMethods && sent == []
    {
      this.cred := cred;
      stage := AwaitMethods;
      sent := [];
    }

    /** One `data` chunk from the client: the handler of the current stage
        reads it, writes its reply and sets the next stage. */
    method Receive(chunk: seq<Byte>) returns (written: seq<Byte>)
      requires Valid()
      modifies this
      ensures Valid()
      ensures Step(written, stage) == Handle(old(stage), chunk, cred)
      ensures sent == old(sent) + written
      ensures IsHandshakeStage(old(stage)) ==> Rank(stage) > Rank(old(stage))
      ensures !IsHandshakeStage(old(stage)) ==> written == [] && stage == old(stage)
    {
      var s := stage;
      HandleKeepsTranscript(s, sent, chunk, cred);
      match s {
        case AwaitMethods =>
          var st := MethodStep(chunk);
          written, stage := st.written, st.next;
        case AwaitAuth =>
          written, stage := ParseAuth(chunk, cred);
        case AwaitRequest =>
          written, stage := ParseRequest(chunk);
        case _ =>
          written := [];
      }
      sent := sent + written;
    }

    /** The outcome of the dial started in the Connecting stage: the
        `error` handler's REP 5 reply and end, or the connect callback's
        success reply and the start of the relay. */
    method DialFinished(d: DialResult) returns (written: seq<Byte>)
      requires Valid() && stage.Connecting?
      modifies this
      ensures Valid()
      ensures Step(written, stage) == DialStep(d)
      ensures sent == old(sent) + written
    {
      DialKeepsTranscript(stage, sent, d);
      match d {
        case DialFailed =>
          written := FailureReply(ConnectionRefused);
          stage := Closed;
        case Connected(bound, port) =>
          written := EncodeSuccess(bound, port);
          stage := Relaying;
      }
      sent := sent + written;
    }
  }

  /** A client that offers username/password, sends the configured
      credentials and a CONNECT request, and whose dial succeeds, ends up
      relaying, having been sent `05 02`, `01 00` and the success reply. */
  method CompleteHandshake(cred: Credentials, t: Target, bound: Bound, port: U16)
    returns (s: Session)
    requires |cred.user| < 0x100 && |cred.pass| < 0x100
    ensures s.stage == Relaying
    ensures s.sent == [Version, UserPassMethod, AuthVersion, 0x00] + SuccessReply(bound, port)
  {
    s := new Session(cred);
    var greeting := Greeting([UserPassMethod]);
    GreetingOutcome([UserPassMethod], []);
    assert greeting + [] == greeting;
    var _ := s.Receive(greeting);
    AuthAcceptsExactly(cred, cred, []);
    assert AuthRequest(cred) + [] == AuthRequest(cred);
    var _ := s.Receive(AuthRequest(cred));
    RequestRoundTrip(t, 0x00, []);
    assert ConnectRequest(t, 0x00) + [] == ConnectRequest(t, 0x00);
    var _ := s.Receive(ConnectRequest(t, 0x00));
    var _ := s.DialFinished(Connected(bound, port));
  }
}
