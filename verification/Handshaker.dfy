/** SSL_HANDSHAKE in place: the do_* steps of both machines and the loops that run them (handshake_client.cc,
    handshake_server.cc, handshake.cc). */
module Handshaker {
  import opened Bytes
  import opened HandshakeState
  import opened HandshakeProduct
  import HandshakeLocal
  import ClientSteps
  import ServerSteps

  class Handshake {
    const cfg: Config
    var state: State
    var wait: Wait
    var held: Option<Msg>
    var inbox: seq<Rec>
    var flight: seq<Rec>
    var transcript: seq<Msg>
    var readKeys: bool
    var writeKeys: bool
    var params: Params
    var ticketExpected: bool
    var certRequest: bool
    var peerKey: bool
    var serverParams: bool
    var clientFinished: Option<seq<Msg>>
    var serverFinished: Option<seq<Msg>>

    function View(): Hs
      reads this
    {
      Hs(cfg, state, wait, held, inbox, flight, Log(transcript, clientFinished, serverFinished),
         Keys(readKeys, writeKeys), Known(params, ticketExpected, certRequest, peerKey, serverParams))
    }

    constructor (cfg: Config)
      ensures View() == Begin(cfg)
    {
      this.cfg := cfg;
      state, wait := if cfg.Client? then StartConnect else StartAccept, Ok;
      held, inbox, flight, transcript := None, [], [], [];
      readKeys, writeKeys, params := false, false, NoParams;
      ticketExpected, certRequest, peerKey, serverParams := false, false, false, false;
      clientFinished, serverFinished := None, None;
    }

    /** ssl_add_message_cbb. */
    method AddMessage(m: Msg)
      modifies this`flight, this`transcript
      ensures View() == old(View()).Add(m)
    {
      flight := flight + [HandshakeState.Handshake(m, writeKeys)];
      transcript := transcript + [m];
    }

    /** ssl_hash_message and next_message. */
    method NextMessage()
      requires held.Some?
      modifies this`transcript, this`held
      ensures View() == old(View()).Consume()
    {
      transcript, held := transcript + [held.value], None;
    }

    method AddChangeCipherSpec()
      modifies this`flight, this`writeKeys
      ensures View() == old(View()).ChangeWriteKeys()
    {
      flight := flight + [ChangeCipherSpec(writeKeys)];
      writeKeys := true;
    }

    /** ssl_send_finished. */
    method SendFinished(server: bool)
      modifies this`flight, this`transcript, this`clientFinished, this`serverFinished
      ensures View() == old(View()).AddFinished(server)
    {
      var over := transcript;
      if server {
        serverFinished := Some(over);
      } else {
        clientFinished := Some(over);
      }
      AddMessage(Finished(server, over));
    }

    /** ssl_get_finished. */
    method GetFinished(fromServer: bool) returns (ret: Wait)
      modifies this
      ensures old(held).None? ==> ret.ReadMessage? && View() == old(View())
      ensures old(held).Some? ==>
                View().(state := old(state)).Stop(ret) == old(View()).TakeFinished(fromServer, old(state))
      ensures ret.Error? ==> View() == old(View())
      ensures state == old(state)
    {
      if held.None? {
        return ReadMessage;
      }
      if held.value != Finished(fromServer, transcript) {
        return Error;
      }
      if fromServer {
        serverFinished := Some(transcript);
      } else {
        clientFinished := Some(transcript);
      }
      NextMessage();
      return Ok;
    }

    /** tls1_change_cipher_state for reading. */
    method ChangeReadKeys() returns (ok: bool)
      modifies this`readKeys
      ensures ok == held.None? && readKeys == (old(readKeys) || ok)
    {
      if held.Some? {
        return false;
      }
      readKeys := true;
      return true;
    }

    static function RequestsCertificate(c: Config, p: Params): bool
      requires c.Server?
    {
      c.verifyPeer && !(c.verifyIfNoObc && p.channelId) && p.cert
    }

    /** The result of an operation that may be pending. */
    static function ResultOf(op: Operation, a: Answer): Wait {
      match a
      case Ready => Ok
      case Retry => Pending(op)
      case Fail => Error
    }

    // The client's steps.

    method DoStartConnect() returns (ret: Wait)
      requires cfg.Client?
      modifies this
      ensures View().Stop(ret) == ClientSteps.DoStartConnect(old(View()))
    {
      AddMessage(ClientHello(cfg.offersSession));
      state := EnterEarlyData;
      return Flush;
    }

    method DoReadServerHello() returns (ret: Wait)
      requires cfg.Client?
      modifies this
      ensures View().Stop(ret) == ClientSteps.DoReadServerHello(old(View()))
    {
      if held.None? {
        return ReadMessage;
      }
      if !held.value.ServerHello? {
        return Error;
      }
      var p := held.value.params.(resumed := held.value.params.resumed && cfg.offersSession);
      if p.ocsp && !p.cert {
        return Error;
      }
      Learn(p);
      state := if p.resumed then ReadSessionTicket else ReadServerCertificate;
      return Ok;
    }

    /** The ServerHello is taken, and what it says is known. */
    method Learn(p: Params)
      requires held.Some?
      modifies this
      ensures View() == var h := old(View()).Consume(); h.(known := h.known.(params := p, ticketExpected := p.ticket))
    {
      NextMessage();
      params, ticketExpected := p, p.ticket;
    }

    method DoReadServerCertificate() returns (ret: Wait)
      modifies this
      ensures View().Stop(ret) == ClientSteps.DoReadServerCertificate(old(View()))
    {
      if !params.cert {
        state := ReadCertificateStatus;
        return Ok;
      }
      if held.None? {
        return ReadMessage;
      }
      if held.value != Certificate(true) {
        return Error;
      }
      NextMessage();
      peerKey, state := true, ReadCertificateStatus;
      return Ok;
    }

    method DoReadCertificateStatus() returns (ret: Wait)
      modifies this
      ensures View().Stop(ret) == ClientSteps.DoReadCertificateStatus(old(View()))
    {
      if !params.ocsp {
        state := VerifyServerCertificate;
        return Ok;
      }
      if held.None? {
        return ReadMessage;
      }
      if held.value.CertificateStatus? {
        NextMessage();
      }
      state := VerifyServerCertificate;
      return Ok;
    }

    method DoVerifyServerCertificate(a: Answer) returns (ret: Wait)
      modifies this
      ensures View().Stop(ret) == ClientSteps.DoVerifyServerCertificate(old(View()), a)
    {
      ret := if params.cert then ResultOf(CertificateVerification, a) else Ok;
      if ret.Ok? {
        state := ReadServerKeyExchange;
      }
    }

    method DoReadServerKeyExchange() returns (ret: Wait)
      modifies this
      ensures View().Stop(ret) == ClientSteps.DoReadServerKeyExchange(old(View()))
    {
      if held.None? {
        return ReadMessage;
      }
      if !held.value.ServerKeyExchange? {
        if params.kx == Ecdhe {
          return Error;
        }
        state := ReadCertificateRequest;
        return Ok;
      }
      if params.kx == Rsa {
        return Error;
      }
      NextMessage();
      state := ReadCertificateRequest;
      return Ok;
    }

    method DoReadCertificateRequest() returns (ret: Wait)
      modifies this
      ensures View().Stop(ret) == ClientSteps.DoReadCertificateRequest(old(View()))
    {
      if !params.cert {
        state := ReadServerHelloDone;
        return Ok;
      }
      if held.None? {
        return ReadMessage;
      }
      if !held.value.ServerHelloDone? {
        if !held.value.CertificateRequest? {
          return Error;
        }
        certRequest := true;
        NextMessage();
      }
      state := ReadServerHelloDone;
      return Ok;
    }

    method DoReadServerHelloDone() returns (ret: Wait)
      modifies this
      ensures View().Stop(ret) == ClientSteps.DoReadServerHelloDone(old(View()))
    {
      if held.None? {
        return ReadMessage;
      }
      if !held.value.ServerHelloDone? {
        return Error;
      }
      NextMessage();
      state := SendClientCertificate;
      return Ok;
    }

    method DoSendClientCertificate(a: Answer) returns (ret: Wait)
      requires cfg.Client?
      modifies this
      ensures View().Stop(ret) == ClientSteps.DoSendClientCertificate(old(View()), a)
    {
      if certRequest {
        ret := ResultOf(X509Lookup, a);
        if !ret.Ok? {
          return;
        }
        AddMessage(Certificate(cfg.hasCert));
      }
      state := SendClientKeyExchange;
      return Ok;
    }

    method DoSendClientKeyExchange() returns (ret: Wait)
      modifies this
      ensures View().Stop(ret) == ClientSteps.DoSendClientKeyExchange(old(View()))
    {
      AddMessage(ClientKeyExchange);
      state := SendClientCertificateVerify;
      return Ok;
    }

    method DoSendClientCertificateVerify(a: Answer) returns (ret: Wait)
      requires cfg.Client?
      modifies this
      ensures View().Stop(ret) == ClientSteps.DoSendClientCertificateVerify(old(View()), a)
    {
      if certRequest && cfg.hasCert {
        ret := ResultOf(PrivateKey, a);
        if !ret.Ok? {
          return;
        }
        AddMessage(CertificateVerify(transcript));
      }
      state := SendClientFinished;
      return Ok;
    }

    method DoSendClientFinished(a: Answer) returns (ret: Wait)
      modifies this
      ensures View().Stop(ret) == ClientSteps.DoSendClientFinished(old(View()), a)
    {
      if params.channelId {
        ret := ResultOf(ChannelIdLookup, a);
        if !ret.Ok? {
          return;
        }
      }
      AddChangeCipherSpec();
      if params.npn {
        AddMessage(NextProto);
      }
      if params.channelId {
        AddMessage(ChannelId(transcript));
      }
      SendFinished(false);
      state := FinishFlight;
      return Flush;
    }

    method DoFinishFlight() returns (ret: Wait)
      requires cfg.Client?
      modifies this
      ensures View().Stop(ret) == ClientSteps.DoFinishFlight(old(View()))
    {
      if params.resumed {
        state := FinishClientHandshake;
        return Ok;
      }
      state := ReadSessionTicket;
      return if cfg.falseStart && params.kx == Ecdhe then EarlyReturn else Ok;
    }

    method DoReadSessionTicket() returns (ret: Wait)
      modifies this
      ensures View().Stop(ret) == ClientSteps.DoReadSessionTicket(old(View()))
    {
      if ticketExpected {
        if held.None? {
          return ReadMessage;
        }
        if !held.value.NewSessionTicket? {
          return Error;
        }
        ticketExpected := !held.value.empty;
        NextMessage();
      }
      state := ProcessServerCcs;
      return ReadCcs;
    }

    method DoProcessCcs(next: State) returns (ret: Wait)
      modifies this
      ensures View().Stop(ret) == old(View()).ChangeReadKeys(next)
    {
      var ok := ChangeReadKeys();
      if !ok {
        return Error;
      }
      state := next;
      return Ok;
    }

    method DoReadServerFinished() returns (ret: Wait)
      modifies this
      ensures View().Stop(ret) == ClientSteps.DoReadServerFinished(old(View()))
    {
      ret := GetFinished(true);
      if ret.Ok? {
        state := if params.resumed then SendClientFinished else FinishClientHandshake;
      }
    }

    // The server's steps.

    method DoReadClientHello(a: Answer) returns (ret: Wait)
      requires cfg.Server?
      modifies this
      ensures View().Stop(ret) == ServerSteps.DoReadClientHello(old(View()), a)
    {
      if held.None? {
        return ReadMessage;
      }
      if !held.value.ClientHello? {
        return Error;
      }
      ret := ResultOf(CertificateSelection, a);
      if ret.Ok? {
        params := params.(npn := cfg.npnOffered, channelId := cfg.channelIdOffered);
        state := SelectCertificate;
      }
    }

    method DoSelectCertificate(a: Answer) returns (ret: Wait)
      requires cfg.Server?
      modifies this
      ensures View().Stop(ret) == ServerSteps.DoSelectCertificate(old(View()), a)
    {
      if held.None? {
        return ReadMessage;
      }
      ret := ResultOf(X509Lookup, a);
      if ret.Ok? {
        params := params.(kx := cfg.kx, cert := cfg.cert);
        state := SelectParameters;
      }
    }

    method DoSelectParameters(a: Answer) returns (ret: Wait)
      requires cfg.Server?
      modifies this
      ensures View().Stop(ret) == ServerSteps.DoSelectParameters(old(View()), a)
    {
      if held.None? {
        return ReadMessage;
      }
      if !held.value.ClientHello? {
        return Error;
      }
      ret := ResultOf(SessionLookup, a);
      if !ret.Ok? {
        return;
      }
      var resumed, ticket, request := cfg.findsSession && held.value.offersSession, cfg.ticketsSupported, certRequest;
      if resumed {
        ticket := cfg.renewTicket;
      } else {
        request := Requests(cfg, params);
      }
      Settle(resumed, ticket, request);
      state := SendServerHello;
    }

    /** The ClientHello is taken, and what follows from it is settled. */
    method Settle(resumed: bool, ticket: bool, request: bool)
      requires held.Some?
      modifies this
      ensures View() == var h := old(View()).Consume();
                        h.(known := h.known.(params := h.known.params.(resumed := resumed), ticketExpected := ticket,
                                             certRequest := request))
    {
      NextMessage();
      params, ticketExpected, certRequest := params.(resumed := resumed), ticket, request;
    }

    /** Whether to ask a client for its certificate. */
    static method Requests(c: Config, p: Params) returns (request: bool)
      requires c.Server?
      ensures request == RequestsCertificate(c, p)
    {
      request := c.verifyPeer;
      if c.verifyIfNoObc && p.channelId {
        request := false;
      }
      if !p.cert {
        request := false;
      }
    }

    method DoSendServerHello() returns (ret: Wait)
      requires cfg.Server?
      modifies this
      ensures View().Stop(ret) == ServerSteps.DoSendServerHello(old(View()))
    {
      hide ServerSteps.HelloParams;
      var channelId := params.channelId;
      if channelId && params.kx != Ecdhe {
        channelId := false;
      }
      if params.resumed && !cfg.originalHashes {
        channelId := false;
      }
      params := ServerSteps.HelloParams(cfg, params, channelId, ticketExpected);
      AddMessage(ServerHello(params));
      state := if params.resumed then SendServerFinished else SendServerCertificate;
      return Ok;
    }

    method DoSendServerCertificate() returns (ret: Wait)
      requires cfg.Server?
      modifies this
      ensures View().Stop(ret) == ServerSteps.DoSendServerCertificate(old(View()))
    {
      if params.cert {
        AddMessage(Certificate(true));
        if params.ocsp {
          AddMessage(CertificateStatus);
        }
      }
      serverParams := params.kx == Ecdhe || (!params.cert && cfg.pskHint);
      state := SendServerKeyExchange;
      return Ok;
    }

    method DoSendServerKeyExchange(a: Answer) returns (ret: Wait)
      modifies this
      ensures View().Stop(ret) == ServerSteps.DoSendServerKeyExchange(old(View()), a)
    {
      if serverParams {
        if params.cert {
          ret := ResultOf(PrivateKey, a);
          if !ret.Ok? {
            return;
          }
        }
        AddMessage(ServerKeyExchange);
        serverParams := false;
      }
      state := SendServerHelloDone;
      return Ok;
    }

    method DoSendServerHelloDone() returns (ret: Wait)
      modifies this
      ensures View().Stop(ret) == ServerSteps.DoSendServerHelloDone(old(View()))
    {
      if certRequest {
        AddMessage(CertificateRequest);
      }
      AddMessage(ServerHelloDone);
      state := ReadClientCertificate;
      return Flush;
    }

    method DoReadClientCertificate() returns (ret: Wait)
      requires cfg.Server?
      modifies this
      ensures View().Stop(ret) == ServerSteps.DoReadClientCertificate(old(View()))
    {
      if certRequest {
        if held.None? {
          return ReadMessage;
        }
        if !held.value.Certificate? || (!held.value.nonEmpty && cfg.failIfNoCert) {
          return Error;
        }
        peerKey := held.value.nonEmpty;
        NextMessage();
      }
      state := VerifyClientCertificate;
      return Ok;
    }

    method DoVerifyClientCertificate(a: Answer) returns (ret: Wait)
      modifies this
      ensures View().Stop(ret) == ServerSteps.DoVerifyClientCertificate(old(View()), a)
    {
      ret := if peerKey then ResultOf(CertificateVerification, a) else Ok;
      if ret.Ok? {
        state := ReadClientKeyExchange;
      }
    }

    method DoReadClientKeyExchange(a: Answer) returns (ret: Wait)
      modifies this
      ensures View().Stop(ret) == ServerSteps.DoReadClientKeyExchange(old(View()), a)
    {
      if held.None? {
        return ReadMessage;
      }
      if !held.value.ClientKeyExchange? {
        return Error;
      }
      ret := if params.kx == Rsa then ResultOf(PrivateKey, a) else Ok;
      if ret.Ok? {
        NextMessage();
        state := ReadClientCertificateVerify;
      }
    }

    method DoReadClientCertificateVerify() returns (ret: Wait)
      modifies this
      ensures View().Stop(ret) == ServerSteps.DoReadClientCertificateVerify(old(View()))
    {
      if peerKey {
        if held.None? {
          return ReadMessage;
        }
        if held.value != CertificateVerify(transcript) {
          return Error;
        }
        NextMessage();
      }
      state := ReadClientCcs;
      return Ok;
    }

    method DoReadNextProto() returns (ret: Wait)
      modifies this
      ensures View().Stop(ret) == ServerSteps.DoReadNextProto(old(View()))
    {
      if params.npn {
        if held.None? {
          return ReadMessage;
        }
        if !held.value.NextProto? {
          return Error;
        }
        NextMessage();
      }
      state := ReadChannelId;
      return Ok;
    }

    method DoReadChannelId() returns (ret: Wait)
      modifies this
      ensures View().Stop(ret) == ServerSteps.DoReadChannelId(old(View()))
    {
      if params.channelId {
        if held.None? {
          return ReadMessage;
        }
        if held.value != ChannelId(transcript) {
          return Error;
        }
        NextMessage();
      }
      state := ReadClientFinished;
      return Ok;
    }

    method DoReadClientFinished() returns (ret: Wait)
      modifies this
      ensures View().Stop(ret) == ServerSteps.DoReadClientFinished(old(View()))
    {
      ret := GetFinished(false);
      if ret.Ok? {
        state := if params.resumed then FinishServerHandshake else SendServerFinished;
      }
    }

    method DoSendServerFinished() returns (ret: Wait)
      requires cfg.Server?
      modifies this
      ensures View().Stop(ret) == ServerSteps.DoSendServerFinished(old(View()))
    {
      if ticketExpected {
        AddMessage(NewSessionTicket(cfg.emptyTicket));
      }
      AddChangeCipherSpec();
      SendFinished(true);
      state := if params.resumed then ReadClientCcs else FinishServerHandshake;
      return Flush;
    }

    // The loops.

    /** One turn of the loop of ssl_client_handshake. */
    method ClientStep(a: Answer) returns (ret: Wait)
      requires cfg.Client?
      modifies this
      ensures View().Stop(ret) == ClientSteps.Do(old(View()), a)
    {
      hide ClientSteps.DoStartConnect, ClientSteps.DoReadServerHello, ClientSteps.DoReadServerCertificate,
           ClientSteps.DoReadCertificateStatus, ClientSteps.DoVerifyServerCertificate,
           ClientSteps.DoReadServerKeyExchange, ClientSteps.DoReadCertificateRequest,
           ClientSteps.DoReadServerHelloDone, ClientSteps.DoSendClientCertificate,
           ClientSteps.DoSendClientKeyExchange, ClientSteps.DoSendClientCertificateVerify,
           ClientSteps.DoSendClientFinished, ClientSteps.DoFinishFlight, ClientSteps.DoReadSessionTicket,
           ClientSteps.DoReadServerFinished;
      match state {
        case StartConnect => ret := DoStartConnect();
        case EnterEarlyData => state, ret := ReadServerHello, Ok;
        case ReadServerHello => ret := DoReadServerHello();
        case ReadServerCertificate => ret := DoReadServerCertificate();
        case ReadCertificateStatus => ret := DoReadCertificateStatus();
        case VerifyServerCertificate => ret := DoVerifyServerCertificate(a);
        case ReadServerKeyExchange => ret := DoReadServerKeyExchange();
        case ReadCertificateRequest => ret := DoReadCertificateRequest();
        case ReadServerHelloDone => ret := DoReadServerHelloDone();
        case SendClientCertificate => ret := DoSendClientCertificate(a);
        case SendClientKeyExchange => ret := DoSendClientKeyExchange();
        case SendClientCertificateVerify => ret := DoSendClientCertificateVerify(a);
        case SendClientFinished => ret := DoSendClientFinished(a);
        case FinishFlight => ret := DoFinishFlight();
        case ReadSessionTicket => ret := DoReadSessionTicket();
        case ProcessServerCcs => ret := DoProcessCcs(ReadServerFinished);
        case ReadServerFinished => ret := DoReadServerFinished();
        case FinishClientHandshake => state, ret := Done, Ok;
        case _ => ret := wait;
      }
    }

    /** One turn of the loop of ssl_server_handshake. */
    method ServerStep(a: Answer) returns (ret: Wait)
      requires cfg.Server?
      modifies this
      ensures View().Stop(ret) == ServerSteps.Do(old(View()), a)
    {
      ServerSteps.Cases1(View(), a);
      ServerSteps.Cases2(View(), a);
      hide ServerSteps.Do, ServerSteps.DoReadClientHello, ServerSteps.DoSelectCertificate,
           ServerSteps.DoSelectParameters,
           ServerSteps.DoSendServerHello, ServerSteps.DoSendServerCertificate, ServerSteps.DoSendServerKeyExchange,
           ServerSteps.DoSendServerHelloDone, ServerSteps.DoReadClientCertificate,
           ServerSteps.DoVerifyClientCertificate, ServerSteps.DoReadClientKeyExchange,
           ServerSteps.DoReadClientCertificateVerify, ServerSteps.DoReadNextProto, ServerSteps.DoReadChannelId,
           ServerSteps.DoReadClientFinished, ServerSteps.DoSendServerFinished;
      match state {
        case StartAccept => state, ret := ReadClientHello, Ok;
        case ReadClientHello => ret := DoReadClientHello(a);
        case SelectCertificate => ret := DoSelectCertificate(a);
        case SelectParameters => ret := DoSelectParameters(a);
        case SendServerHello => ret := DoSendServerHello();
        case SendServerCertificate => ret := DoSendServerCertificate();
        case SendServerKeyExchange => ret := DoSendServerKeyExchange(a);
        case SendServerHelloDone => ret := DoSendServerHelloDone();
        case ReadClientCertificate => ret := DoReadClientCertificate();
        case VerifyClientCertificate => ret := DoVerifyClientCertificate(a);
        case ReadClientKeyExchange => ret := DoReadClientKeyExchange(a);
        case ReadClientCertificateVerify => ret := DoReadClientCertificateVerify();
        case ReadClientCcs => state, ret := ProcessClientCcs, ReadCcs;
        case ProcessClientCcs => ret := DoProcessCcs(ReadNextProto);
        case ReadNextProto => ret := DoReadNextProto();
        case ReadChannelId => ret := DoReadChannelId();
        case ReadClientFinished => ret := DoReadClientFinished();
        case SendServerFinished => ret := DoSendServerFinished();
        case FinishServerHandshake => state, ret := Done, Ok;
        case _ =>
          OtherStates(View(), a);
          ret := wait;
      }
    }

    /** ssl_client_handshake or ssl_server_handshake, with the answers of its operations in order. */
    method RunMachine(answers: seq<Answer>) returns (ret: Wait, used: nat)
      requires Own(cfg, state) && wait.Ok?
      modifies this
      ensures View().Stop(ret) == Machine(old(View()), answers).h && Own(cfg, state) && inbox == old(inbox)
      ensures used <= |answers| && answers[used..] == Machine(old(View()), answers).answers
    {
      hide ClientSteps.Do, ServerSteps.Do;
      var rest := answers;
      used := 0;
      while !state.Done?
        invariant Own(cfg, state) && wait.Ok? && used <= |answers| && rest == answers[used..] && inbox == old(inbox)
        invariant Machine(old(View()), answers) == Machine(View(), rest)
        decreases StepsLeft(state)
      {
        ghost var before := View();
        var a := if rest == [] then Ready else rest[0];
        if cfg.Client? {
          ret := ClientStep(a);
        } else {
          ret := ServerStep(a);
        }
        Descends(before, a);
        if rest != [] {
          used, rest := used + 1, rest[1..];
        }
        if !ret.Ok? {
          return;
        }
        wait := Ok;
      }
      return Ok, used;
    }

    /** The switch of ssl_run_handshake: resolve what the machine waits for, or return to the caller. The
        transport accepts the given numbers of records in turn, and then no more. */
    method Resolve(io: seq<nat>) returns (go: bool, ret: int, rest: seq<nat>, ghost acts: seq<Act>)
      requires Own(cfg, state)
      modifies this
      ensures Own(cfg, state) && Performs(old(View()), acts, View())
      ensures go ==> |rest| + |inbox| < |io| + |old(inbox)| || (old(wait).Ok? && rest == io && View() == old(View()))
      ensures !go ==> ret == -1 || (ret == 1 && old(wait).EarlyReturn?)
      ensures old(wait).Error? ==> !go && ret == -1 && View() == old(View())
    {
      go, ret, rest, acts := false, -1, io, [];
      match wait {
        case Error =>
        case Ok => go := true;
        case Flush =>
          if io != [] && io[0] > 0 {
            var n := if io[0] > |flight| then |flight| else io[0];
            flight, rest, go := flight[n..], io[1..], true;
            wait := if flight == [] then Ok else Flush;
            acts := [Accept(n)];
          }
        case Pending(_) =>
          wait := Ok;
          acts := [CallAgain];
        case EarlyReturn =>
          wait, ret := Ok, 1;
          acts := [CallAgain];
        case _ =>
          if inbox != [] {
            go := true;
            TakeNext();
            acts := [Take];
          }
      }
      assert acts != [] ==> acts[1..] == [];
    }

    /** ssl_run_handshake: resolve what the machine waits for, run it, and again. */
    method RunHandshake(accepts: seq<nat>, answers: seq<Answer>)
      returns (ret: int, early: bool, ghost acts: seq<Act>)
      requires Own(cfg, state)
      modifies this
      ensures Own(cfg, state) && Performs(old(View()), acts, View())
      ensures ret == 1 && !early ==> state.Done? && wait.Ok?
      ensures ret != 1 ==> ret == -1
      ensures old(wait).Error? ==> ret == -1 && View() == old(View())
    {
      hide Machine, Act1, Can, Own;
      ghost var start := View();
      var io, rest := accepts, answers;
      acts, early := [], false;
      while true
        invariant Own(cfg, state) && Performs(start, acts, View())
        invariant start.wait.Error? ==> View() == start
        decreases |io| + |inbox|, if wait.Ok? then 1 else 0
      {
        ghost var before := View();
        var go, r, io', more := Resolve(io);
        PerformMore(start, acts, before, more, View());
        acts, io := acts + more, io';
        if !go {
          return r, r == 1, acts;
        }
        if wait.Ok? {
          before := View();
          more := MachinePerforms(before, rest);
          var w, used := RunMachine(rest);
          wait, rest := w, rest[used..];
          PerformMore(start, acts, before, more, View());
          acts := acts + more;
          if wait.Ok? {
            return 1, false, acts;
          }
        }
      }
    }

    /** A record from the transport, for the state that waits for one. */
    method TakeNext()
      requires (wait.ReadMessage? || wait.ReadCcs?) && inbox != []
      modifies this
      ensures View() == TakeRecord(old(View()))
    {
      var r := inbox[0];
      inbox := inbox[1..];
      if r.sealed != readKeys || r.ChangeCipherSpec? != wait.ReadCcs? {
        wait := Error;
        return;
      }
      if r.Handshake? {
        held := Some(r.msg);
      }
      wait := Ok;
    }
  }

  /** A state of the machine that this end runs. */
  predicate Own(c: Config, s: State) {
    s.Done? || HandshakeLocal.IsServerState(s) == c.Server?
  }

  /** The steps that a machine can take without having to wait. */
  function StepsLeft(s: State): nat {
    match s
    case Done => 0
    case FinishClientHandshake => 1
    case SendClientFinished => 1
    case ReadServerFinished => 2
    case ProcessServerCcs => 3
    case ReadSessionTicket => 1
    case FinishFlight => 2
    case SendClientCertificateVerify => 2
    case SendClientKeyExchange => 3
    case SendClientCertificate => 4
    case ReadServerHelloDone => 5
    case ReadCertificateRequest => 6
    case ReadServerKeyExchange => 7
    case VerifyServerCertificate => 8
    case ReadCertificateStatus => 9
    case ReadServerCertificate => 10
    case ReadServerHello => 11
    case EnterEarlyData => 12
    case StartConnect => 1
    case FinishServerHandshake => 1
    case SendServerFinished => 1
    case ReadClientFinished => 2
    case ReadChannelId => 3
    case ReadNextProto => 4
    case ProcessClientCcs => 5
    case ReadClientCcs => 1
    case ReadClientCertificateVerify => 2
    case ReadClientKeyExchange => 3
    case VerifyClientCertificate => 4
    case ReadClientCertificate => 5
    case SendServerHelloDone => 1
    case SendServerKeyExchange => 2
    case SendServerCertificate => 3
    case SendServerHello => 4
    case SelectParameters => 5
    case SelectCertificate => 6
    case ReadClientHello => 7
    case StartAccept => 8
  }

  function DoOf(h: Hs, a: Answer): Hs {
    if h.cfg.Client? then ClientSteps.Do(h, a) else ServerSteps.Do(h, a)
  }

  /** A machine that goes on without waiting comes nearer to where it must wait: its loop is bounded. */
  lemma Descends(h: Hs, a: Answer)
    requires Own(h.cfg, h.state) && h.wait.Ok? && !h.state.Done?
    ensures Own(h.cfg, DoOf(h, a).state) && DoOf(h, a).cfg == h.cfg && DoOf(h, a).inbox == h.inbox
    ensures DoOf(h, a).wait.Ok? ==> StepsLeft(DoOf(h, a).state) < StepsLeft(h.state)
  {
    if h.cfg.Client? {
      ClientDescends(h, a);
    } else {
      ServerDescends(h, a);
    }
  }

  lemma OtherStates(h: Hs, a: Answer)
    requires h.cfg.Server? && !HandshakeLocal.IsServerState(h.state)
    ensures ServerSteps.Do(h, a) == h
  {
  }

  lemma ClientDescends(h: Hs, a: Answer)
    requires Own(h.cfg, h.state) && h.wait.Ok? && !h.state.Done? && h.cfg.Client?
    ensures Nearer(h, ClientSteps.Do(h, a))
  {
    hide ClientSteps.Do, Nearer;
    if FirstClientHalf(h.state) {
      ClientDescends1(h, a);
    } else {
      ClientDescends2(h, a);
    }
  }

  lemma ClientDescends1(h: Hs, a: Answer)
    requires Own(h.cfg, h.state) && h.wait.Ok? && !h.state.Done? && h.cfg.Client? && FirstClientHalf(h.state)
    ensures Nearer(h, ClientSteps.Do(h, a))
  {
  }

  lemma ClientDescends2(h: Hs, a: Answer)
    requires Own(h.cfg, h.state) && h.wait.Ok? && !h.state.Done? && h.cfg.Client? && !FirstClientHalf(h.state)
    ensures Nearer(h, ClientSteps.Do(h, a))
  {
  }

  lemma ServerDescends(h: Hs, a: Answer)
    requires Own(h.cfg, h.state) && h.wait.Ok? && !h.state.Done? && h.cfg.Server?
    ensures Nearer(h, ServerSteps.Do(h, a))
  {
    hide ServerSteps.Do, Nearer;
    if FirstServerHalf(h.state) {
      ServerDescends1(h, a);
    } else {
      ServerDescends2(h, a);
    }
  }

  lemma ServerDescends1(h: Hs, a: Answer)
    requires Own(h.cfg, h.state) && h.wait.Ok? && !h.state.Done? && h.cfg.Server? && FirstServerHalf(h.state)
    ensures Nearer(h, ServerSteps.Do(h, a))
  {
    hide Own, Nearer, ServerSteps.Do;
    if h.state.StartAccept? || h.state.ReadClientHello? || h.state.SelectCertificate? || h.state.SelectParameters? {
      ServerDescendsHello(h, a);
    } else {
      ServerDescendsFlight(h, a);
    }
  }

  lemma ServerDescendsHello(h: Hs, a: Answer)
    requires Own(h.cfg, h.state) && h.wait.Ok? && h.cfg.Server?
    requires h.state.StartAccept? || h.state.ReadClientHello? || h.state.SelectCertificate? || h.state.SelectParameters?
    ensures Nearer(h, ServerSteps.Do(h, a))
  {
  }

  lemma ServerDescendsFlight(h: Hs, a: Answer)
    requires Own(h.cfg, h.state) && h.wait.Ok? && h.cfg.Server?
    requires h.state.SendServerHello? || h.state.SendServerCertificate? || h.state.SendServerKeyExchange?
             || h.state.SendServerHelloDone? || h.state.ReadClientCertificate?
    ensures Nearer(h, ServerSteps.Do(h, a))
  {
    hide ServerSteps.Do;
    ServerSteps.Cases1(h, a);
  }

  lemma ServerDescends2(h: Hs, a: Answer)
    requires Own(h.cfg, h.state) && h.wait.Ok? && !h.state.Done? && h.cfg.Server? && !FirstServerHalf(h.state)
    ensures Nearer(h, ServerSteps.Do(h, a))
  {
    if h.state.VerifyClientCertificate? || h.state.ReadClientKeyExchange? || h.state.ReadClientCertificateVerify?
       || h.state.ReadClientCcs? || h.state.ProcessClientCcs? {
      hide Own, Nearer, ServerSteps.Do;
      ServerDescendsKeys(h, a);
    } else {
      assert h.state.ReadNextProto? || h.state.ReadChannelId? || h.state.ReadClientFinished?
             || h.state.SendServerFinished? || h.state.FinishServerHandshake?;
      hide Own, Nearer, ServerSteps.Do;
      ServerDescendsEnd(h, a);
    }
  }

  lemma ServerDescendsKeys(h: Hs, a: Answer)
    requires Own(h.cfg, h.state) && h.wait.Ok? && h.cfg.Server?
    requires h.state.VerifyClientCertificate? || h.state.ReadClientKeyExchange? || h.state.ReadClientCertificateVerify?
             || h.state.ReadClientCcs? || h.state.ProcessClientCcs?
    ensures Nearer(h, ServerSteps.Do(h, a))
  {
    hide ServerSteps.Do;
    ServerSteps.Cases1(h, a);
    ServerSteps.Cases2(h, a);
  }

  lemma ServerDescendsEnd(h: Hs, a: Answer)
    requires Own(h.cfg, h.state) && h.wait.Ok? && h.cfg.Server?
    requires h.state.ReadNextProto? || h.state.ReadChannelId? || h.state.ReadClientFinished?
             || h.state.SendServerFinished? || h.state.FinishServerHandshake?
    ensures Nearer(h, ServerSteps.Do(h, a))
  {
    hide ServerSteps.Do;
    ServerSteps.Cases2(h, a);
  }

  ghost predicate Nearer(h: Hs, h': Hs) {
    && Own(h.cfg, h'.state) && h'.cfg == h.cfg && h'.inbox == h.inbox
    && (h'.wait.Ok? ==> StepsLeft(h'.state) < StepsLeft(h.state))
  }

  datatype Stopped = Stopped(h: Hs, answers: seq<Answer>)

  /** The machine until it has to wait or is done; answers that are not given are that all is ready. */
  function Machine(h: Hs, answers: seq<Answer>): Stopped
    requires Own(h.cfg, h.state) && h.wait.Ok?
    decreases StepsLeft(h.state)
  {
    if h.state.Done? then Stopped(h, answers)
    else
      var a := if answers == [] then Ready else answers[0];
      Descends(h, a);
      var h', rest := DoOf(h, a), if answers == [] then [] else answers[1..];
      if h'.wait.Ok? then Machine(h', rest) else Stopped(h', rest)
  }

  /** A list of turns that leads from h to h'. */
  ghost predicate Performs(h: Hs, acts: seq<Act>, h': Hs)
    decreases |acts|
  {
    if acts == [] then h' == h else Can(h, acts[0]) && Performs(Act1(h, acts[0]), acts[1..], h')
  }

  lemma {:induction false} PerformMore(h: Hs, acts: seq<Act>, h': Hs, more: seq<Act>, h'': Hs)
    requires Performs(h, acts, h') && Performs(h', more, h'')
    ensures Performs(h, acts + more, h'')
    decreases |acts|
  {
    hide Act1, Can;
    if acts == [] {
      assert acts + more == more;
    } else {
      assert (acts + more)[1..] == acts[1..] + more;
      PerformMore(Act1(h, acts[0]), acts[1..], h', more, h'');
    }
  }

  /** The machine's loop is a list of turns, and ends done or waiting. */
  lemma {:induction false} MachinePerforms(h: Hs, answers: seq<Answer>) returns (acts: seq<Act>)
    requires Own(h.cfg, h.state) && h.wait.Ok?
    ensures var stop := Machine(h, answers).h;
            Performs(h, acts, stop) && Own(h.cfg, stop.state) && (stop.wait.Ok? ==> stop.state.Done?)
    decreases StepsLeft(h.state)
  {
    hide ClientSteps.Do, ServerSteps.Do;
    acts := [];
    if !h.state.Done? {
      var a := if answers == [] then Ready else answers[0];
      Descends(h, a);
      var h', rest := DoOf(h, a), if answers == [] then [] else answers[1..];
      var more := [];
      if h'.wait.Ok? {
        more := MachinePerforms(h', rest);
      }
      acts := [Run(a)] + more;
      assert acts[1..] == more;
    }
  }
}
