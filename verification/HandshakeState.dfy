/** The state of one TLS 1.2 handshake (SSL_HANDSHAKE with the parts of SSL that it uses). Cryptography is
    symbolic: a MAC or a signature is the list of messages it was computed over. */
module HandshakeState {
  import opened Bytes

  datatype KeyExchange = Rsa | Ecdhe | Psk

  /** What ServerHello settles. */
  datatype Params = Params(resumed: bool, kx: KeyExchange, cert: bool, ticket: bool, ocsp: bool, npn: bool,
                           channelId: bool)

  const NoParams := Params(false, Rsa, false, false, false, false, false)

  datatype Msg =
    | ClientHello(offersSession: bool)
    | ServerHello(params: Params)
    | Certificate(nonEmpty: bool)
    | CertificateStatus
    | ServerKeyExchange
    | CertificateRequest
    | ServerHelloDone
    | ClientKeyExchange
    | CertificateVerify(signed: seq<Msg>)
    | NextProto
    | ChannelId(signed: seq<Msg>)
    | NewSessionTicket(empty: bool)
    | Finished(fromServer: bool, over: seq<Msg>)

  /** A record on the wire, and whether it is sealed under the new keys. */
  datatype Rec = Handshake(msg: Msg, sealed: bool) | ChangeCipherSpec(sealed: bool)

  datatype State =
    // ssl_client_hs_state_t
    | StartConnect | EnterEarlyData | ReadServerHello | ReadServerCertificate | ReadCertificateStatus
    | VerifyServerCertificate | ReadServerKeyExchange | ReadCertificateRequest | ReadServerHelloDone
    | SendClientCertificate | SendClientKeyExchange | SendClientCertificateVerify | SendClientFinished
    | FinishFlight | ReadSessionTicket | ProcessServerCcs | ReadServerFinished | FinishClientHandshake
    // ssl_server_hs_state_t
    | StartAccept | ReadClientHello | SelectCertificate | SelectParameters | SendServerHello
    | SendServerCertificate | SendServerKeyExchange | SendServerHelloDone | ReadClientCertificate
    | VerifyClientCertificate | ReadClientKeyExchange | ReadClientCertificateVerify | ReadClientCcs
    | ProcessClientCcs | ReadNextProto | ReadChannelId | ReadClientFinished | SendServerFinished
    | FinishServerHandshake
    | Done

  /** The operations whose result may be pending. */
  datatype Operation = CertificateSelection | X509Lookup | ChannelIdLookup | PrivateKey | SessionLookup
                     | CertificateVerification

  /** ssl_hs_wait_t; reading a ServerHello differs from reading any message only in its error codes. */
  datatype Wait = Ok | Error | Flush | ReadMessage | ReadCcs | Pending(op: Operation) | EarlyReturn

  /** What an operation answers. */
  datatype Answer = Ready | Retry | Fail

  /** The configuration of an end, with what its callbacks, caches and extension parsers decide. */
  datatype Config =
    | Client(offersSession: bool, hasCert: bool, falseStart: bool)
    | Server(kx: KeyExchange, cert: bool, findsSession: bool, renewTicket: bool, ticketsSupported: bool,
             emptyTicket: bool, verifyPeer: bool, verifyIfNoObc: bool, failIfNoCert: bool, pskHint: bool,
             ocspReady: bool, npnOffered: bool, channelIdOffered: bool, originalHashes: bool)

  /** What is known of the other end and of the parameters; serverParams says whether a ServerKeyExchange is ready. */
  datatype Known = Known(params: Params, ticketExpected: bool, certRequest: bool, peerKey: bool, serverParams: bool)

  /** The transcript, and the transcripts that the two Finished messages were computed over. */
  datatype Log = Log(transcript: seq<Msg>, clientFinished: Option<seq<Msg>>, serverFinished: Option<seq<Msg>>)
  {
    function Add(m: Msg): Log {
      this.(transcript := transcript + [m])
    }

    /** A Finished message, computed over everything before it. */
    function Finish(fromServer: bool): Log {
      var log := if fromServer then this.(serverFinished := Some(transcript))
                 else this.(clientFinished := Some(transcript));
      log.Add(Finished(fromServer, transcript))
    }
  }

  /** Whether the new keys are in use for reading and for writing. */
  datatype Keys = Keys(read: bool, write: bool)

  /** held is the message that get_message returns, inbox what the transport has, flight what has been added
      and not flushed. */
  datatype Hs = Hs(cfg: Config, state: State, wait: Wait, held: Option<Msg>, inbox: seq<Rec>, flight: seq<Rec>,
                   log: Log, keys: Keys, known: Known)
  {
    function Stop(w: Wait): Hs {
      this.(wait := w)
    }

    /** Returning ssl_hs_ok in the next state. */
    function Go(s: State): Hs {
      this.(state := s, wait := Ok)
    }

    /** ssl_add_message_cbb: into the flight and into the transcript. */
    function Add(m: Msg): Hs {
      this.(flight := flight + [Handshake(m, keys.write)], log := log.Add(m))
    }

    /** add_change_cipher_spec and tls1_change_cipher_state for writing. */
    function ChangeWriteKeys(): Hs {
      this.(flight := flight + [ChangeCipherSpec(keys.write)], keys := keys.(write := true))
    }

    /** ssl_hash_message and next_message on the current message. */
    function Consume(): Hs
      requires held.Some?
    {
      this.(log := log.Add(held.value), held := None)
    }

    /** ssl_send_finished. */
    function AddFinished(fromServer: bool): Hs {
      this.(flight := flight + [Handshake(Finished(fromServer, log.transcript), keys.write)],
            log := log.Finish(fromServer))
    }

    /** ssl_get_finished when there is a message. */
    function TakeFinished(fromServer: bool, next: State): Hs
      requires held.Some?
    {
      if held.value != Finished(fromServer, log.transcript) then Stop(Error)
      else this.(log := log.Finish(fromServer), held := None).Go(next)
    }

    /** tls1_change_cipher_state for reading: set_read_state fails while a message of the old epoch is unread. */
    function ChangeReadKeys(next: State): Hs {
      if held.Some? then Stop(Error) else this.(keys := keys.(read := true)).Go(next)
    }

    /** What an operation that may be pending leads to. */
    function Await(op: Operation, a: Answer, done: Hs): Hs {
      match a
      case Ready => done
      case Retry => Stop(Pending(op))
      case Fail => Stop(Error)
    }
  }

  function Begin(cfg: Config): Hs {
    Hs(cfg, if cfg.Client? then StartConnect else StartAccept, Ok, None, [], [],
       Log([], None, None), Keys(false, false), Known(NoParams, false, false, false, false))
  }

  /** The wait resolution of ssl_run_handshake for reading: take the next record from the transport. */
  function TakeRecord(h: Hs): Hs
    requires h.wait.ReadMessage? || h.wait.ReadCcs?
    requires h.inbox != []
  {
    var r, h := h.inbox[0], h.(inbox := h.inbox[1..]);
    if r.sealed != h.keys.read then h.Stop(Error)
    else if h.wait.ReadCcs? then
      if r.ChangeCipherSpec? then h.Stop(Ok) else h.Stop(Error)
    else
      if r.Handshake? then h.(held := Some(r.msg)).Stop(Ok) else h.Stop(Error)
  }
}
/** The do_* steps of ssl_client_handshake for TLS 1.2 (handshake_client.cc). */
module ClientSteps {
  import opened Bytes
  import opened HandshakeState

  function DoStartConnect(h: Hs): Hs
    requires h.cfg.Client?
  {
    h.Add(ClientHello(h.cfg.offersSession)).(state := EnterEarlyData).Stop(Flush)
  }

  function DoReadServerHello(h: Hs): Hs
    requires h.cfg.Client?
  {
    if h.held.None? then h.Stop(ReadMessage)
    else if !h.held.value.ServerHello? then h.Stop(Error)
    else
      var p := h.held.value.params;
      var p := p.(resumed := p.resumed && h.cfg.offersSession);
      if p.ocsp && !p.cert then h.Stop(Error)
      else
        var h := h.Consume().(known := h.known.(params := p, ticketExpected := p.ticket));
        h.Go(if p.resumed then ReadSessionTicket else ReadServerCertificate)
  }

  function DoReadServerCertificate(h: Hs): Hs {
    if !h.known.params.cert then h.Go(ReadCertificateStatus)
    else if h.held.None? then h.Stop(ReadMessage)
    else if h.held.value != Certificate(true) then h.Stop(Error)
    else h.Consume().(known := h.known.(peerKey := true)).Go(ReadCertificateStatus)
  }

  function DoReadCertificateStatus(h: Hs): Hs {
    if !h.known.params.ocsp then h.Go(VerifyServerCertificate)
    else if h.held.None? then h.Stop(ReadMessage)
    else if !h.held.value.CertificateStatus? then h.Go(VerifyServerCertificate)
    else h.Consume().Go(VerifyServerCertificate)
  }

  function DoVerifyServerCertificate(h: Hs, a: Answer): Hs {
    if !h.known.params.cert then h.Go(ReadServerKeyExchange)
    else h.Await(CertificateVerification, a, h.Go(ReadServerKeyExchange))
  }

  function DoReadServerKeyExchange(h: Hs): Hs {
    if h.held.None? then h.Stop(ReadMessage)
    else if !h.held.value.ServerKeyExchange? then
      if h.known.params.kx == Ecdhe then h.Stop(Error) else h.Go(ReadCertificateRequest)
    else if h.known.params.kx == Rsa then h.Stop(Error)
    else h.Consume().Go(ReadCertificateRequest)
  }

  function DoReadCertificateRequest(h: Hs): Hs {
    if !h.known.params.cert then h.Go(ReadServerHelloDone)
    else if h.held.None? then h.Stop(ReadMessage)
    else if h.held.value.ServerHelloDone? then h.Go(ReadServerHelloDone)
    else if !h.held.value.CertificateRequest? then h.Stop(Error)
    else h.Consume().(known := h.known.(certRequest := true)).Go(ReadServerHelloDone)
  }

  function DoReadServerHelloDone(h: Hs): Hs {
    if h.held.None? then h.Stop(ReadMessage)
    else if !h.held.value.ServerHelloDone? then h.Stop(Error)
    else h.Consume().Go(SendClientCertificate)
  }

  function DoSendClientCertificate(h: Hs, a: Answer): Hs
    requires h.cfg.Client?
  {
    if !h.known.certRequest then h.Go(SendClientKeyExchange)
    else h.Await(X509Lookup, a, h.Add(Certificate(h.cfg.hasCert)).Go(SendClientKeyExchange))
  }

  function DoSendClientKeyExchange(h: Hs): Hs {
    h.Add(ClientKeyExchange).Go(SendClientCertificateVerify)
  }

  function DoSendClientCertificateVerify(h: Hs, a: Answer): Hs
    requires h.cfg.Client?
  {
    if !h.known.certRequest || !h.cfg.hasCert then h.Go(SendClientFinished)
    else h.Await(PrivateKey, a, h.Add(CertificateVerify(h.log.transcript)).Go(SendClientFinished))
  }

  /** The rest of do_send_client_finished once Channel ID is resolved. */
  function WriteClientFinished(h: Hs): Hs {
    var h := h.ChangeWriteKeys();
    var h := if h.known.params.npn then h.Add(NextProto) else h;
    var h := if h.known.params.channelId then h.Add(ChannelId(h.log.transcript)) else h;
    h.AddFinished(false).(state := FinishFlight).Stop(Flush)
  }

  function DoSendClientFinished(h: Hs, a: Answer): Hs {
    if h.known.params.channelId then h.Await(ChannelIdLookup, a, WriteClientFinished(h)) else WriteClientFinished(h)
  }

  function DoFinishFlight(h: Hs): Hs
    requires h.cfg.Client?
  {
    if h.known.params.resumed then h.Go(FinishClientHandshake)
    else
      h.(state := ReadSessionTicket).Stop(if h.cfg.falseStart && h.known.params.kx == Ecdhe then EarlyReturn else Ok)
  }

  function DoReadSessionTicket(h: Hs): Hs {
    if !h.known.ticketExpected then h.(state := ProcessServerCcs).Stop(ReadCcs)
    else if h.held.None? then h.Stop(ReadMessage)
    else if !h.held.value.NewSessionTicket? then h.Stop(Error)
    else h.Consume().(known := h.known.(ticketExpected := !h.held.value.empty), state := ProcessServerCcs).Stop(ReadCcs)
  }

  function DoReadServerFinished(h: Hs): Hs {
    if h.held.None? then h.Stop(ReadMessage)
    else h.TakeFinished(true, if h.known.params.resumed then SendClientFinished else FinishClientHandshake)
  }

  /** The switch of ssl_client_handshake. */
  function Do(h: Hs, a: Answer): Hs
    requires h.cfg.Client?
  {
    match h.state
    case StartConnect => DoStartConnect(h)
    case EnterEarlyData => h.Go(ReadServerHello)
    case ReadServerHello => DoReadServerHello(h)
    case ReadServerCertificate => DoReadServerCertificate(h)
    case ReadCertificateStatus => DoReadCertificateStatus(h)
    case VerifyServerCertificate => DoVerifyServerCertificate(h, a)
    case ReadServerKeyExchange => DoReadServerKeyExchange(h)
    case ReadCertificateRequest => DoReadCertificateRequest(h)
    case ReadServerHelloDone => DoReadServerHelloDone(h)
    case SendClientCertificate => DoSendClientCertificate(h, a)
    case SendClientKeyExchange => DoSendClientKeyExchange(h)
    case SendClientCertificateVerify => DoSendClientCertificateVerify(h, a)
    case SendClientFinished => DoSendClientFinished(h, a)
    case FinishFlight => DoFinishFlight(h)
    case ReadSessionTicket => DoReadSessionTicket(h)
    case ProcessServerCcs => h.ChangeReadKeys(ReadServerFinished)
    case ReadServerFinished => DoReadServerFinished(h)
    case FinishClientHandshake => h.Go(Done)
    case _ => h
  }

  /** The switch of ssl_client_handshake, state by state. */
  lemma FirstCases(h: Hs, a: Answer)
    requires h.cfg.Client?
    ensures h.state.StartConnect? ==> Do(h, a) == DoStartConnect(h)
    ensures h.state.EnterEarlyData? ==> Do(h, a) == h.Go(ReadServerHello)
    ensures h.state.ReadServerHello? ==> Do(h, a) == DoReadServerHello(h)
    ensures h.state.ReadServerCertificate? ==> Do(h, a) == DoReadServerCertificate(h)
    ensures h.state.ReadCertificateStatus? ==> Do(h, a) == DoReadCertificateStatus(h)
    ensures h.state.VerifyServerCertificate? ==> Do(h, a) == DoVerifyServerCertificate(h, a)
    ensures h.state.ReadServerKeyExchange? ==> Do(h, a) == DoReadServerKeyExchange(h)
    ensures h.state.ReadCertificateRequest? ==> Do(h, a) == DoReadCertificateRequest(h)
    ensures h.state.ReadServerHelloDone? ==> Do(h, a) == DoReadServerHelloDone(h)
  {
    hide DoStartConnect, DoReadServerHello, DoReadServerCertificate, DoReadCertificateStatus,
         DoVerifyServerCertificate, DoReadServerKeyExchange, DoReadCertificateRequest, DoReadServerHelloDone;
  }

  lemma Cases(h: Hs, a: Answer)
    requires h.cfg.Client?
    ensures h.state.SendClientCertificate? ==> Do(h, a) == DoSendClientCertificate(h, a)
    ensures h.state.SendClientKeyExchange? ==> Do(h, a) == DoSendClientKeyExchange(h)
    ensures h.state.SendClientCertificateVerify? ==> Do(h, a) == DoSendClientCertificateVerify(h, a)
    ensures h.state.SendClientFinished? ==> Do(h, a) == DoSendClientFinished(h, a)
    ensures h.state.FinishFlight? ==> Do(h, a) == DoFinishFlight(h)
    ensures h.state.ReadSessionTicket? ==> Do(h, a) == DoReadSessionTicket(h)
    ensures h.state.ProcessServerCcs? ==> Do(h, a) == h.ChangeReadKeys(ReadServerFinished)
    ensures h.state.ReadServerFinished? ==> Do(h, a) == DoReadServerFinished(h)
    ensures h.state.FinishClientHandshake? ==> Do(h, a) == h.Go(Done)
  {
    hide DoSendClientCertificate, DoSendClientKeyExchange, DoSendClientCertificateVerify, DoSendClientFinished,
         DoFinishFlight, DoReadSessionTicket, DoReadServerFinished;
  }
}
/** The do_* steps of ssl_server_handshake for TLS 1.2 (handshake_server.cc). */
module ServerSteps {
  import opened Bytes
  import opened HandshakeState

  function DoReadClientHello(h: Hs, a: Answer): Hs
    requires h.cfg.Server?
  {
    if h.held.None? then h.Stop(ReadMessage)
    else if !h.held.value.ClientHello? then h.Stop(Error)
    else
      var p := h.known.params.(npn := h.cfg.npnOffered, channelId := h.cfg.channelIdOffered);
      h.Await(CertificateSelection, a, h.(known := h.known.(params := p)).Go(SelectCertificate))
  }

  function DoSelectCertificate(h: Hs, a: Answer): Hs
    requires h.cfg.Server?
  {
    if h.held.None? then h.Stop(ReadMessage)
    else
      var params := h.known.params.(kx := h.cfg.kx, cert := h.cfg.cert);
      h.Await(X509Lookup, a, h.(known := h.known.(params := params)).Go(SelectParameters))
  }

  /** The end of do_select_parameters, with the answer of ssl_get_prev_session. */
  function SettleParameters(h: Hs, resumed: bool): Hs
    requires h.cfg.Server? && h.held.Some?
  {
    var c := h.cfg;
    var request := c.verifyPeer && !(c.verifyIfNoObc && h.known.params.channelId) && h.known.params.cert;
    h.Consume().(known := h.known.(params := h.known.params.(resumed := resumed),
                                   ticketExpected := if resumed then c.renewTicket else c.ticketsSupported,
                                   certRequest := if resumed then h.known.certRequest else request))
    .Go(SendServerHello)
  }

  function DoSelectParameters(h: Hs, a: Answer): Hs
    requires h.cfg.Server?
  {
    if h.held.None? then h.Stop(ReadMessage)
    else if !h.held.value.ClientHello? then h.Stop(Error)
    else
      h.Await(SessionLookup, a, SettleParameters(h, h.cfg.findsSession && h.held.value.offersSession))
  }

  /** The parameters with what the extensions of the ServerHello settle. */
  function HelloParams(c: Config, p: Params, channelId: bool, ticket: bool): Params
    requires c.Server?
  {
    p.(channelId := channelId, ticket := ticket, ocsp := c.ocspReady && !p.resumed && p.cert)
  }

  function DoSendServerHello(h: Hs): Hs
    requires h.cfg.Server?
  {
    var p := h.known.params;
    var channelId := p.channelId && p.kx == Ecdhe && !(p.resumed && !h.cfg.originalHashes);
    var p := HelloParams(h.cfg, p, channelId, h.known.ticketExpected);
    h.(known := h.known.(params := p)).Add(ServerHello(p))
      .Go(if p.resumed then SendServerFinished else SendServerCertificate)
  }

  function DoSendServerCertificate(h: Hs): Hs
    requires h.cfg.Server?
  {
    var p := h.known.params;
    var h := if p.cert then h.Add(Certificate(true)) else h;
    var h := if p.cert && p.ocsp then h.Add(CertificateStatus) else h;
    h.(known := h.known.(serverParams := p.kx == Ecdhe || (!p.cert && h.cfg.pskHint))).Go(SendServerKeyExchange)
  }

  function DoSendServerKeyExchange(h: Hs, a: Answer): Hs {
    if !h.known.serverParams then h.Go(SendServerHelloDone)
    else
      var sent := h.Add(ServerKeyExchange).(known := h.known.(serverParams := false)).Go(SendServerHelloDone);
      if h.known.params.cert then h.Await(PrivateKey, a, sent) else sent
  }

  function DoSendServerHelloDone(h: Hs): Hs {
    var h := if h.known.certRequest then h.Add(CertificateRequest) else h;
    h.Add(ServerHelloDone).(state := ReadClientCertificate).Stop(Flush)
  }

  function DoReadClientCertificate(h: Hs): Hs
    requires h.cfg.Server?
  {
    if !h.known.certRequest then h.Go(VerifyClientCertificate)
    else if h.held.None? then h.Stop(ReadMessage)
    else if !h.held.value.Certificate? || (!h.held.value.nonEmpty && h.cfg.failIfNoCert) then h.Stop(Error)
    else h.Consume().(known := h.known.(peerKey := h.held.value.nonEmpty)).Go(VerifyClientCertificate)
  }

  function DoVerifyClientCertificate(h: Hs, a: Answer): Hs {
    if !h.known.peerKey then h.Go(ReadClientKeyExchange)
    else h.Await(CertificateVerification, a, h.Go(ReadClientKeyExchange))
  }

  function DoReadClientKeyExchange(h: Hs, a: Answer): Hs {
    if h.held.None? then h.Stop(ReadMessage)
    else if !h.held.value.ClientKeyExchange? then h.Stop(Error)
    else
      var done := h.Consume().Go(ReadClientCertificateVerify);
      if h.known.params.kx == Rsa then h.Await(PrivateKey, a, done) else done
  }

  function DoReadClientCertificateVerify(h: Hs): Hs {
    if !h.known.peerKey then h.Go(ReadClientCcs)
    else if h.held.None? then h.Stop(ReadMessage)
    else if h.held.value != CertificateVerify(h.log.transcript) then h.Stop(Error)
    else h.Consume().Go(ReadClientCcs)
  }

  function DoReadNextProto(h: Hs): Hs {
    if !h.known.params.npn then h.Go(ReadChannelId)
    else if h.held.None? then h.Stop(ReadMessage)
    else if !h.held.value.NextProto? then h.Stop(Error)
    else h.Consume().Go(ReadChannelId)
  }

  function DoReadChannelId(h: Hs): Hs {
    if !h.known.params.channelId then h.Go(ReadClientFinished)
    else if h.held.None? then h.Stop(ReadMessage)
    else if h.held.value != ChannelId(h.log.transcript) then h.Stop(Error)
    else h.Consume().Go(ReadClientFinished)
  }

  function DoReadClientFinished(h: Hs): Hs {
    if h.held.None? then h.Stop(ReadMessage)
    else h.TakeFinished(false, if h.known.params.resumed then FinishServerHandshake else SendServerFinished)
  }

  function DoSendServerFinished(h: Hs): Hs
    requires h.cfg.Server?
  {
    var h := if h.known.ticketExpected then h.Add(NewSessionTicket(h.cfg.emptyTicket)) else h;
    h.ChangeWriteKeys().AddFinished(true)
    .(state := if h.known.params.resumed then ReadClientCcs else FinishServerHandshake).Stop(Flush)
  }

  /** The switch of ssl_server_handshake. */
  function Do(h: Hs, a: Answer): Hs
    requires h.cfg.Server?
  {
    match h.state
    case StartAccept => h.Go(ReadClientHello)
    case ReadClientHello => DoReadClientHello(h, a)
    case SelectCertificate => DoSelectCertificate(h, a)
    case SelectParameters => DoSelectParameters(h, a)
    case SendServerHello => DoSendServerHello(h)
    case SendServerCertificate => DoSendServerCertificate(h)
    case SendServerKeyExchange => DoSendServerKeyExchange(h, a)
    case SendServerHelloDone => DoSendServerHelloDone(h)
    case ReadClientCertificate => DoReadClientCertificate(h)
    case VerifyClientCertificate => DoVerifyClientCertificate(h, a)
    case ReadClientKeyExchange => DoReadClientKeyExchange(h, a)
    case ReadClientCertificateVerify => DoReadClientCertificateVerify(h)
    case ReadClientCcs => h.(state := ProcessClientCcs).Stop(ReadCcs)
    case ProcessClientCcs => h.ChangeReadKeys(ReadNextProto)
    case ReadNextProto => DoReadNextProto(h)
    case ReadChannelId => DoReadChannelId(h)
    case ReadClientFinished => DoReadClientFinished(h)
    case SendServerFinished => DoSendServerFinished(h)
    case FinishServerHandshake => h.Go(Done)
    case _ => h
  }

  /** The switch of ssl_server_handshake, state by state. */
  lemma Cases1(h: Hs, a: Answer)
    requires h.cfg.Server?
    ensures h.state.StartAccept? ==> Do(h, a) == h.Go(ReadClientHello)
    ensures h.state.ReadClientHello? ==> Do(h, a) == DoReadClientHello(h, a)
    ensures h.state.SelectCertificate? ==> Do(h, a) == DoSelectCertificate(h, a)
    ensures h.state.SelectParameters? ==> Do(h, a) == DoSelectParameters(h, a)
    ensures h.state.SendServerHello? ==> Do(h, a) == DoSendServerHello(h)
    ensures h.state.SendServerCertificate? ==> Do(h, a) == DoSendServerCertificate(h)
    ensures h.state.SendServerKeyExchange? ==> Do(h, a) == DoSendServerKeyExchange(h, a)
    ensures h.state.SendServerHelloDone? ==> Do(h, a) == DoSendServerHelloDone(h)
    ensures h.state.ReadClientCertificate? ==> Do(h, a) == DoReadClientCertificate(h)
    ensures h.state.VerifyClientCertificate? ==> Do(h, a) == DoVerifyClientCertificate(h, a)
  {
    hide DoReadClientHello, DoSelectCertificate, DoSelectParameters,
         DoSendServerHello, DoSendServerCertificate, DoSendServerKeyExchange,
         DoSendServerHelloDone, DoReadClientCertificate, DoVerifyClientCertificate;
  }

  lemma Cases2(h: Hs, a: Answer)
    requires h.cfg.Server?
    ensures h.state.ReadClientKeyExchange? ==> Do(h, a) == DoReadClientKeyExchange(h, a)
    ensures h.state.ReadClientCertificateVerify? ==>
              Do(h, a) == DoReadClientCertificateVerify(h)
    ensures h.state.ReadClientCcs? ==> Do(h, a) == h.(state := ProcessClientCcs).Stop(ReadCcs)
    ensures h.state.ProcessClientCcs? ==> Do(h, a) == h.ChangeReadKeys(ReadNextProto)
    ensures h.state.ReadNextProto? ==> Do(h, a) == DoReadNextProto(h)
    ensures h.state.ReadChannelId? ==> Do(h, a) == DoReadChannelId(h)
    ensures h.state.ReadClientFinished? ==> Do(h, a) == DoReadClientFinished(h)
    ensures h.state.SendServerFinished? ==> Do(h, a) == DoSendServerFinished(h)
    ensures h.state.FinishServerHandshake? ==> Do(h, a) == h.Go(Done)
  {
    hide DoReadClientKeyExchange, DoReadClientCertificateVerify, DoReadNextProto,
         DoReadChannelId, DoReadClientFinished, DoSendServerFinished;
  }
}
