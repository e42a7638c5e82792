/** What is in the transcript of one end of a handshake, whoever the other end is: the messages of section 7.3 of RFC
    5246 in their order, each of them there exactly when it has to be, and each signature over what was before it. */
module HandshakeForm {
  import opened Bytes
  import opened HandshakeState
  import opened HandshakeScript
  import opened HandshakeProduct
  import R = Retries
  import O = OneEnd
  import HandshakeLocal
  import ClientSteps
  import ServerSteps

  /** Whether an end has to find or put a message at a place of the handshake. */
  datatype Need = Always | Never | Either

  function If(b: bool): Need {
    if b then Always else Never
  }

  /** With what ServerHello has settled, what was requested and what was given. The other end may leave out a status it
      has announced, and without RSA or ECDHE a server may or may not send a hint. */
  function Needed(c: Config, k: Known, kind: Kind): Need {
    match kind
    case KServerCertificate => If(k.params.cert)
    case KCertificateStatus => if c.Client? && k.params.ocsp then Either else If(k.params.ocsp && k.params.cert)
    case KServerKeyExchange =>
      if k.params.kx == Ecdhe then Always
      else if c.Client? then (if k.params.kx == Rsa then Never else Either)
      else If(!k.params.cert && c.pskHint)
    case KCertificateRequest => If(k.certRequest)
    case KClientCertificate => If(k.certRequest)
    case KCertificateVerify => If(if c.Client? then k.certRequest && c.hasCert else k.peerKey)
    case KNextProto => If(k.params.npn)
    case KChannelId => If(k.params.channelId)
    case KNewSessionTicket => If(k.params.ticket)
    case KClientCcs => Never
    case KServerCcs => Never
    case KEnd => Never
    case _ => Always
  }

  /** The message for a place, after the messages t: a signature or a Finished message is over exactly those. A session
      is resumed only if the client has offered one. */
  predicate Fits(c: Config, k: Known, kind: Kind, m: Msg, t: seq<Msg>) {
    match kind
    case KClientHello => m.ClientHello? && if c.Client? then m.offersSession == c.offersSession
                                           else k.params.resumed ==> m.offersSession
    case KServerHello =>
      m.ServerHello?
      && k.params == if c.Client? then m.params.(resumed := m.params.resumed && c.offersSession) else m.params
    case KServerCertificate => m == Certificate(true)
    case KCertificateStatus => m.CertificateStatus?
    case KServerKeyExchange => m.ServerKeyExchange?
    case KCertificateRequest => m.CertificateRequest? && (c.Client? ==> k.params.cert)
    case KServerHelloDone => m.ServerHelloDone?
    case KClientCertificate =>
      m == Certificate(if c.Client? then c.hasCert else k.peerKey) && (c.Server? && c.failIfNoCert ==> k.peerKey)
    case KClientKeyExchange => m.ClientKeyExchange?
    case KCertificateVerify => m == CertificateVerify(t)
    case KNextProto => m.NextProto?
    case KChannelId => m == ChannelId(t)
    case KClientFinished => m == Finished(false, t)
    case KNewSessionTicket => m.NewSessionTicket?
    case KServerFinished => m == Finished(true, t)
    case _ => false
  }

  /** t is what the places before p hold, in their order. */
  predicate Form(c: Config, k: Known, p: nat, t: seq<Msg>) {
    if p == 0 then t == []
    else
      var kind := At(k.params.resumed, p - 1);
      || (Needed(c, k, kind) != Always && Form(c, k, p - 1, t))
      || (Needed(c, k, kind) != Never && t != []
          && Fits(c, k, kind, t[|t| - 1], t[..|t| - 1]) && Form(c, k, p - 1, t[..|t| - 1]))
  }

  // One place more.

  predicate Lacks(c: Config, k: Known, p: nat) {
    Needed(c, k, At(k.params.resumed, p)) != Always
  }

  predicate Gets(c: Config, k: Known, p: nat, m: Msg, t: seq<Msg>) {
    Needed(c, k, At(k.params.resumed, p)) != Never && Fits(c, k, At(k.params.resumed, p), m, t)
  }

  lemma FormNext(c: Config, k: Known, p: nat, t: seq<Msg>, t': seq<Msg>, m: Msg)
    requires Form(c, k, p, t)
    requires (Lacks(c, k, p) && t' == t) || (Gets(c, k, p, m, t) && t' == t + [m])
    ensures Form(c, k, p + 1, t')
  {
    hide Needed, Fits, At;
    if t' == t + [m] {
      assert t'[..|t'| - 1] == t && t'[|t'| - 1] == m;
    }
  }

  predicate IsLate(kind: Kind) {
    kind == KCertificateRequest || kind == KClientCertificate || kind == KCertificateVerify
  }

  lemma Decided(resumed: bool, p: nat)
    ensures p < 5 ==> !IsLate(At(resumed, p))
    ensures p < 7 ==> At(resumed, p) != KClientCertificate && At(resumed, p) != KCertificateVerify
  {
  }

  lemma NeededSame(c: Config, k: Known, k': Known, kind: Kind)
    requires k'.params == k.params && (!IsLate(kind) || k'.certRequest == k.certRequest)
    requires (kind != KClientCertificate && kind != KCertificateVerify) || c.Client? || k'.peerKey == k.peerKey
    ensures Needed(c, k', kind) == Needed(c, k, kind)
    ensures forall m, t :: Fits(c, k', kind, m, t) == Fits(c, k, kind, m, t)
  {
  }

  /** What is decided later does not matter for earlier places. */
  lemma {:induction false} FormSame(c: Config, k: Known, k': Known, p: nat, t: seq<Msg>)
    requires k'.params == k.params && (p <= 5 || k'.certRequest == k.certRequest)
    requires p <= 7 || c.Client? || k'.peerKey == k.peerKey
    requires Form(c, k, p, t)
    ensures Form(c, k', p, t)
  {
    if p > 0 {
      var kind := At(k.params.resumed, p - 1);
      Decided(k.params.resumed, p - 1);
      NeededSame(c, k, k', kind);
      hide Needed, Fits, At;
      if Needed(c, k, kind) != Always && Form(c, k, p - 1, t) {
        FormSame(c, k, k', p - 1, t);
      } else {
        FormSame(c, k, k', p - 1, t[..|t| - 1]);
      }
    }
  }

  // The invariant.

  /** What an end keeps besides: that it will write or read the ticket and the key exchange it has announced, and that
      a client's key comes of a certificate that was asked for. */
  predicate Tied(h: Hs) {
    var n, k := Number(h.state), h.known;
    && (k.params.resumed && h.cfg.Client? ==> h.cfg.offersSession)
    && ((if h.cfg.Server? then n >= 23 else if k.params.resumed then n == 14 else 3 <= n <= 14) ==>
          k.ticketExpected == k.params.ticket)
    && (h.cfg.Client? && k.certRequest ==> n >= 8)
    && (h.cfg.Server? && k.peerKey ==> n >= 27 && k.certRequest && !k.params.resumed)
    && (h.cfg.Server? && n == 24 ==> (k.serverParams <==> k.params.kx == Ecdhe || (!k.params.cert && h.cfg.pskHint)))
    && (n > 2 && h.cfg.Client? && k.params.ocsp ==> k.params.cert)
  }

  /** What a server knows follows from its configuration and from whether it resumes a session it has found. */
  predicate Configured(h: Hs) {
    var n, c, k, p := Number(h.state), h.cfg, h.known, h.known.params;
    c.Server? ==>
      && (n >= 20 ==> p.npn == c.npnOffered)
      && (20 <= n <= 22 ==> p.channelId == c.channelIdOffered)
      && (n >= 21 ==> p.kx == c.kx && p.cert == c.cert)
      && (n <= 21 ==> !k.certRequest && !p.resumed)
      && (n >= 22 ==>
            && (p.resumed ==> c.findsSession)
            && k.ticketExpected == (if p.resumed then c.renewTicket else c.ticketsSupported)
            && k.certRequest
               == (!p.resumed && c.verifyPeer && !(c.verifyIfNoObc && c.channelIdOffered) && c.cert))
      && (n >= 23 ==>
            && p.ocsp == (c.ocspReady && !p.resumed && c.cert)
            && p.channelId == (c.channelIdOffered && c.kx == Ecdhe && (p.resumed ==> c.originalHashes)))
  }

  function Place(h: Hs): nat {
    Pos(h.state, Ok, h.known.params.resumed)
  }

  predicate Formed(h: Hs) {
    O.InPlace(h) && Tied(h) && Configured(h) && Form(h.cfg, h.known, Place(h), h.log.transcript)
  }

  /** What a step leads to, if the end is not held up. */
  predicate Leads(h: Hs, h': Hs) {
    || h' == h.Stop(h'.wait)
    || (Tied(h') && Configured(h') && Form(h'.cfg, h'.known, Place(h'), h'.log.transcript))
  }
  // The client's steps.

  lemma Hello(h: Hs)
    requires Formed(h) && h.state.StartConnect? && h.cfg.Client?
    ensures Leads(h, ClientSteps.DoStartConnect(h))
  {
    var t, m := h.log.transcript, ClientHello(h.cfg.offersSession);
    HandshakeLocal.ClientNumbers();
    HandshakeLocal.ClientPlaces(h.known.params.resumed);
    hide Form, Pos, Number;
    FormNext(h.cfg, h.known, 0, t, t + [m], m);
  }

  /** Before the ServerHello nothing is settled. */
  lemma FormFirst(c: Config, k: Known, k': Known, t: seq<Msg>)
    requires Form(c, k, 1, t) && (c.Client? || k'.params.resumed == k.params.resumed)
    ensures Form(c, k', 1, t)
  {
    assert At(k.params.resumed, 0) == At(k'.params.resumed, 0) == KClientHello;
  }

  lemma ReadsHello(h: Hs)
    requires Formed(h) && h.state.ReadServerHello? && h.cfg.Client?
    ensures Leads(h, ClientSteps.DoReadServerHello(h))
  {
    var h', t := ClientSteps.DoReadServerHello(h), h.log.transcript;
    HandshakeLocal.ClientNumbers();
    HandshakeLocal.ClientPlaces(h.known.params.resumed);
    HandshakeLocal.ClientPlaces(h'.known.params.resumed);
    hide Form, Pos, Number;
    if h' != h.Stop(h'.wait) {
      FormFirst(h.cfg, h.known, h'.known, t);
      FormNext(h.cfg, h'.known, 1, t, h'.log.transcript, h.held.value);
    }
  }

  lemma ReadsCertificate(h: Hs)
    requires Formed(h) && h.state.ReadServerCertificate? && h.cfg.Client?
    ensures Leads(h, ClientSteps.DoReadServerCertificate(h))
  {
    var h', t, p := ClientSteps.DoReadServerCertificate(h), h.log.transcript, Place(h);
    HandshakeLocal.ClientNumbers();
    HandshakeLocal.ClientPlaces(false);
    hide Form, Pos, Number;
    FormSame(h.cfg, h.known, h'.known, p, t);
    if h' != h.Stop(h'.wait) {
      var m := if h.held.Some? then h.held.value else ServerHelloDone;
      FormNext(h.cfg, h'.known, p, t, h'.log.transcript, m);
    }
  }

  lemma ReadsStatus(h: Hs)
    requires Formed(h) && h.state.ReadCertificateStatus? && h.cfg.Client?
    ensures Leads(h, ClientSteps.DoReadCertificateStatus(h))
  {
    var h', t, p := ClientSteps.DoReadCertificateStatus(h), h.log.transcript, Place(h);
    HandshakeLocal.ClientNumbers();
    HandshakeLocal.ClientPlaces(false);
    hide Form, Pos, Number;
    if h' != h.Stop(h'.wait) {
      var m := if h.held.Some? then h.held.value else ServerHelloDone;
      FormNext(h.cfg, h.known, p, t, h'.log.transcript, m);
    }
  }

  lemma Verifies(h: Hs, a: Answer)
    requires Formed(h) && h.state.VerifyServerCertificate? && h.cfg.Client?
    ensures Leads(h, ClientSteps.DoVerifyServerCertificate(h, a))
  {
    HandshakeLocal.ClientNumbers();
    HandshakeLocal.ClientPlaces(false);
    hide Form, Pos, Number;
  }

  lemma ReadsKeyExchange(h: Hs)
    requires Formed(h) && h.state.ReadServerKeyExchange? && h.cfg.Client?
    ensures Leads(h, ClientSteps.DoReadServerKeyExchange(h))
  {
    var h', t, p := ClientSteps.DoReadServerKeyExchange(h), h.log.transcript, Place(h);
    HandshakeLocal.ClientNumbers();
    HandshakeLocal.ClientPlaces(false);
    hide Form, Pos, Number;
    if h' != h.Stop(h'.wait) {
      var m := if h.held.Some? then h.held.value else ServerHelloDone;
      FormNext(h.cfg, h.known, p, t, h'.log.transcript, m);
    }
  }

  lemma ReadsRequest(h: Hs)
    requires Formed(h) && h.state.ReadCertificateRequest? && h.cfg.Client?
    ensures Leads(h, ClientSteps.DoReadCertificateRequest(h))
  {
    var h', t, p := ClientSteps.DoReadCertificateRequest(h), h.log.transcript, Place(h);
    HandshakeLocal.ClientNumbers();
    HandshakeLocal.ClientPlaces(false);
    hide Form, Pos, Number;
    FormSame(h.cfg, h.known, h'.known, p, t);
    if h' != h.Stop(h'.wait) {
      var m := if h.held.Some? then h.held.value else ServerHelloDone;
      FormNext(h.cfg, h'.known, p, t, h'.log.transcript, m);
    }
  }

  lemma ReadsHelloDone(h: Hs)
    requires Formed(h) && h.state.ReadServerHelloDone? && h.cfg.Client?
    ensures Leads(h, ClientSteps.DoReadServerHelloDone(h))
  {
    var h', t, p := ClientSteps.DoReadServerHelloDone(h), h.log.transcript, Place(h);
    HandshakeLocal.ClientNumbers();
    HandshakeLocal.ClientPlaces(false);
    hide Form, Pos, Number;
    if h' != h.Stop(h'.wait) {
      var m := if h.held.Some? then h.held.value else ServerHelloDone;
      FormNext(h.cfg, h.known, p, t, h'.log.transcript, m);
    }
  }

  lemma SendsCertificate(h: Hs, a: Answer)
    requires Formed(h) && h.state.SendClientCertificate? && h.cfg.Client?
    ensures Leads(h, ClientSteps.DoSendClientCertificate(h, a))
  {
    var h', t, p := ClientSteps.DoSendClientCertificate(h, a), h.log.transcript, Place(h);
    HandshakeLocal.ClientNumbers();
    HandshakeLocal.ClientPlaces(false);
    assert At(false, 7) == KClientCertificate;
    hide Form, Pos, Number, At;
    if h' != h.Stop(h'.wait) {
      FormNext(h.cfg, h.known, p, t, h'.log.transcript, Certificate(h.cfg.hasCert));
    }
  }

  lemma SendsKeyExchange(h: Hs)
    requires Formed(h) && h.state.SendClientKeyExchange? && h.cfg.Client?
    ensures Leads(h, ClientSteps.DoSendClientKeyExchange(h))
  {
    var h', t, p := ClientSteps.DoSendClientKeyExchange(h), h.log.transcript, Place(h);
    HandshakeLocal.ClientNumbers();
    HandshakeLocal.ClientPlaces(false);
    hide Form, Pos, Number;
    if h' != h.Stop(h'.wait) {
      FormNext(h.cfg, h.known, p, t, h'.log.transcript, ClientKeyExchange);
    }
  }

  lemma SendsVerify(h: Hs, a: Answer)
    requires Formed(h) && h.state.SendClientCertificateVerify? && h.cfg.Client?
    ensures Leads(h, ClientSteps.DoSendClientCertificateVerify(h, a))
  {
    var h', t, p := ClientSteps.DoSendClientCertificateVerify(h, a), h.log.transcript, Place(h);
    HandshakeLocal.ClientNumbers();
    HandshakeLocal.ClientPlaces(false);
    assert At(false, 9) == KCertificateVerify;
    hide Form, Pos, Number, At;
    if h' != h.Stop(h'.wait) {
      FormNext(h.cfg, h.known, p, t, h'.log.transcript, CertificateVerify(t));
    }
  }

  /** NextProto, ChannelId and Finished, behind a ChangeCipherSpec. */
  lemma Writes(c: Config, k: Known, p: nat, t: seq<Msg>) returns (t': seq<Msg>)
    requires Form(c, k, p, t) && p == if k.params.resumed then 5 else 10
    ensures var t1 := if k.params.npn then t + [NextProto] else t;
            var t2 := if k.params.channelId then t1 + [ChannelId(t1)] else t1;
            t' == t2 + [Finished(false, t2)]
    ensures Form(c, k, p + 4, t')
  {
    hide Form;
    var t1 := if k.params.npn then t + [NextProto] else t;
    var t2 := if k.params.channelId then t1 + [ChannelId(t1)] else t1;
    t' := t2 + [Finished(false, t2)];
    FormNext(c, k, p, t, t, NextProto);
    FormNext(c, k, p + 1, t, t1, NextProto);
    FormNext(c, k, p + 2, t1, t2, ChannelId(t1));
    FormNext(c, k, p + 3, t2, t', Finished(false, t2));
  }

  lemma WritesFinished(h: Hs, a: Answer)
    requires Formed(h) && h.state.SendClientFinished? && h.cfg.Client?
    ensures Leads(h, ClientSteps.DoSendClientFinished(h, a))
  {
    HandshakeLocal.ClientNumbers();
    HandshakeLocal.ClientPlaces(h.known.params.resumed);
    hide Form, Pos, Number;
    var t := Writes(h.cfg, h.known, Place(h), h.log.transcript);
  }

  lemma Enters(h: Hs)
    requires Formed(h) && h.cfg.Client?
    ensures h.state.EnterEarlyData? ==> Leads(h, h.Go(ReadServerHello))
    ensures h.state.FinishClientHandshake? ==> Leads(h, h.Go(Done))
  {
    HandshakeLocal.ClientNumbers();
    HandshakeLocal.ClientPlaces(h.known.params.resumed);
    hide Form, Pos, Number;
  }

  lemma Finishes(h: Hs)
    requires Formed(h) && h.state.FinishFlight? && h.cfg.Client?
    ensures Leads(h, ClientSteps.DoFinishFlight(h))
  {
    HandshakeLocal.ClientNumbers();
    HandshakeLocal.ClientPlaces(h.known.params.resumed);
    hide Form, Pos, Number;
  }

  lemma ReadsTicket(h: Hs)
    requires Formed(h) && h.state.ReadSessionTicket? && h.cfg.Client?
    ensures Leads(h, ClientSteps.DoReadSessionTicket(h))
  {
    var h', t, p := ClientSteps.DoReadSessionTicket(h), h.log.transcript, Place(h);
    HandshakeLocal.ClientNumbers();
    HandshakeLocal.ClientPlaces(h.known.params.resumed);
    hide Form, Pos, Number;
    if h' != h.Stop(h'.wait) {
      var m := if h.held.Some? then h.held.value else ServerHelloDone;
      FormSame(h.cfg, h.known, h'.known, p, t);
      FormNext(h.cfg, h'.known, p, t, h'.log.transcript, m);
      FormNext(h.cfg, h'.known, p + 1, h'.log.transcript, h'.log.transcript, m);
    }
  }

  lemma Switches(h: Hs)
    requires Formed(h) && h.state.ProcessServerCcs? && h.cfg.Client?
    ensures Leads(h, h.ChangeReadKeys(ReadServerFinished))
  {
    HandshakeLocal.ClientNumbers();
    HandshakeLocal.ClientPlaces(h.known.params.resumed);
    hide Form, Pos, Number;
  }

  lemma ReadsFinished(h: Hs)
    requires Formed(h) && h.state.ReadServerFinished? && h.cfg.Client?
    ensures Leads(h, ClientSteps.DoReadServerFinished(h))
  {
    var h', t, p := ClientSteps.DoReadServerFinished(h), h.log.transcript, Place(h);
    HandshakeLocal.ClientNumbers();
    HandshakeLocal.ClientPlaces(h.known.params.resumed);
    hide Form, Pos, Number;
    if h' != h.Stop(h'.wait) {
      var m := if h.held.Some? then h.held.value else ServerHelloDone;
      FormNext(h.cfg, h.known, p, t, h'.log.transcript, m);
    }
  }

  // The server's steps.

  lemma ServerNumbers()
    ensures Number(StartAccept) == 18 && Number(ReadClientHello) == 19
    ensures Number(SelectCertificate) == 20 && Number(SelectParameters) == 21
    ensures Number(SendServerHello) == 22 && Number(SendServerCertificate) == 23
    ensures Number(SendServerKeyExchange) == 24 && Number(SendServerHelloDone) == 25
    ensures Number(ReadClientCertificate) == 26 && Number(VerifyClientCertificate) == 27
    ensures Number(ReadClientKeyExchange) == 28 && Number(ReadClientCertificateVerify) == 29
    ensures Number(ReadClientCcs) == 30 && Number(ProcessClientCcs) == 31
    ensures Number(ReadNextProto) == 32 && Number(ReadChannelId) == 33
    ensures Number(ReadClientFinished) == 34 && Number(SendServerFinished) == 35
    ensures Number(FinishServerHandshake) == 36 && Number(Done) == 37
  {
    hide Number;
    HandshakeLocal.ServerNumbers1();
    HandshakeLocal.ServerNumbers2();
    HandshakeLocal.ServerNumbers3();
  }

  lemma NothingYet(c: Config, k: Known, k': Known, t: seq<Msg>)
    requires Form(c, k, 0, t)
    ensures Form(c, k', 0, t)
  {
  }

  lemma SelectsFirst(h: Hs, a: Answer)
    requires Formed(h) && h.cfg.Server?
    requires h.state.StartAccept? || h.state.ReadClientHello? || h.state.SelectCertificate?
    ensures h.state.StartAccept? ==> Leads(h, h.Go(ReadClientHello))
    ensures h.state.ReadClientHello? ==> Leads(h, ServerSteps.DoReadClientHello(h, a))
    ensures h.state.SelectCertificate? ==> Leads(h, ServerSteps.DoSelectCertificate(h, a))
  {
    ServerNumbers();
    HandshakeLocal.ServerPlaces(h.known.params.resumed);
    forall k ensures Form(h.cfg, k, 0, h.log.transcript) {
      NothingYet(h.cfg, h.known, k, h.log.transcript);
    }
    hide Form, Pos, Number;
  }

  lemma Selects(h: Hs, a: Answer)
    requires Formed(h) && h.cfg.Server? && h.state.SelectParameters?
    ensures Leads(h, ServerSteps.DoSelectParameters(h, a))
  {
    var h', t := ServerSteps.DoSelectParameters(h, a), h.log.transcript;
    ServerNumbers();
    HandshakeLocal.ServerPlaces(h.known.params.resumed);
    HandshakeLocal.ServerPlaces(h'.known.params.resumed);
    hide Form, Pos, Number;
    if h' != h.Stop(h'.wait) {
      NothingYet(h.cfg, h.known, h'.known, t);
      FormNext(h.cfg, h'.known, 0, t, h'.log.transcript, h.held.value);
    }
  }

  lemma SendsHello(h: Hs)
    requires Formed(h) && h.cfg.Server? && h.state.SendServerHello?
    ensures Leads(h, ServerSteps.DoSendServerHello(h))
  {
    var h', t := ServerSteps.DoSendServerHello(h), h.log.transcript;
    ServerNumbers();
    HandshakeLocal.ServerPlaces(h.known.params.resumed);
    hide Form, Pos, Number;
    FormFirst(h.cfg, h.known, h'.known, t);
    FormNext(h.cfg, h'.known, 1, t, h'.log.transcript, ServerHello(h'.known.params));
  }

  /** The server's certificate and its status. */
  lemma Shows(c: Config, k: Known, t: seq<Msg>) returns (t': seq<Msg>)
    requires Form(c, k, 2, t) && c.Server? && !k.params.resumed
    ensures var t1 := if k.params.cert then t + [Certificate(true)] else t;
            t' == if k.params.cert && k.params.ocsp then t1 + [CertificateStatus] else t1
    ensures Form(c, k, 4, t')
  {
    hide Form;
    var t1 := if k.params.cert then t + [Certificate(true)] else t;
    t' := if k.params.cert && k.params.ocsp then t1 + [CertificateStatus] else t1;
    FormNext(c, k, 2, t, t1, Certificate(true));
    FormNext(c, k, 3, t1, t', CertificateStatus);
  }

  lemma SendsServerCertificate(h: Hs)
    requires Formed(h) && h.cfg.Server? && h.state.SendServerCertificate?
    ensures Leads(h, ServerSteps.DoSendServerCertificate(h))
  {
    var h' := ServerSteps.DoSendServerCertificate(h);
    ServerNumbers();
    HandshakeLocal.ServerPlaces(false);
    hide Form, Pos, Number;
    FormSame(h.cfg, h.known, h'.known, 2, h.log.transcript);
    var t := Shows(h.cfg, h'.known, h.log.transcript);
  }

  lemma SendsServerKeyExchange(h: Hs, a: Answer)
    requires Formed(h) && h.cfg.Server? && h.state.SendServerKeyExchange?
    ensures Leads(h, ServerSteps.DoSendServerKeyExchange(h, a))
  {
    var h', t := ServerSteps.DoSendServerKeyExchange(h, a), h.log.transcript;
    ServerNumbers();
    HandshakeLocal.ServerPlaces(false);
    hide Form, Pos, Number;
    if h' != h.Stop(h'.wait) {
      FormSame(h.cfg, h.known, h'.known, 4, t);
      FormNext(h.cfg, h'.known, 4, t, h'.log.transcript, ServerKeyExchange);
    }
  }

  lemma SendsHelloDone(h: Hs)
    requires Formed(h) && h.cfg.Server? && h.state.SendServerHelloDone?
    ensures Leads(h, ServerSteps.DoSendServerHelloDone(h))
  {
    var t := h.log.transcript;
    ServerNumbers();
    HandshakeLocal.ServerPlaces(false);
    hide Form, Pos, Number;
    var t1 := if h.known.certRequest then t + [CertificateRequest] else t;
    FormNext(h.cfg, h.known, 5, t, t1, CertificateRequest);
    FormNext(h.cfg, h.known, 6, t1, t1 + [ServerHelloDone], ServerHelloDone);
  }

  lemma ReadsClientCertificate(h: Hs)
    requires Formed(h) && h.state.ReadClientCertificate? && h.cfg.Server?
    ensures Leads(h, ServerSteps.DoReadClientCertificate(h))
  {
    var h', t, p := ServerSteps.DoReadClientCertificate(h), h.log.transcript, Place(h);
    ServerNumbers();
    HandshakeLocal.ServerPlaces(false);
    assert At(false, 7) == KClientCertificate;
    hide Form, Pos, Number, At;
    FormSame(h.cfg, h.known, h'.known, p, t);
    if h' != h.Stop(h'.wait) {
      var m := if h.held.Some? then h.held.value else ServerHelloDone;
      FormNext(h.cfg, h'.known, p, t, h'.log.transcript, m);
    }
  }

  lemma VerifiesClient(h: Hs, a: Answer)
    requires Formed(h) && h.cfg.Server? && h.state.VerifyClientCertificate?
    ensures Leads(h, ServerSteps.DoVerifyClientCertificate(h, a))
  {
    ServerNumbers();
    HandshakeLocal.ServerPlaces(false);
    hide Form, Pos, Number;
  }

  lemma ReadsClientKeyExchange(h: Hs, a: Answer)
    requires Formed(h) && h.state.ReadClientKeyExchange? && h.cfg.Server?
    ensures Leads(h, ServerSteps.DoReadClientKeyExchange(h, a))
  {
    var h', t, p := ServerSteps.DoReadClientKeyExchange(h, a), h.log.transcript, Place(h);
    ServerNumbers();
    HandshakeLocal.ServerPlaces(false);
    hide Form, Pos, Number;
    if h' != h.Stop(h'.wait) {
      var m := if h.held.Some? then h.held.value else ServerHelloDone;
      FormNext(h.cfg, h.known, p, t, h'.log.transcript, m);
    }
  }

  lemma ReadsVerify(h: Hs)
    requires Formed(h) && h.state.ReadClientCertificateVerify? && h.cfg.Server?
    ensures Leads(h, ServerSteps.DoReadClientCertificateVerify(h))
  {
    var h', t, p := ServerSteps.DoReadClientCertificateVerify(h), h.log.transcript, Place(h);
    ServerNumbers();
    HandshakeLocal.ServerPlaces(false);
    hide Form, Pos, Number;
    if h' != h.Stop(h'.wait) {
      var m := if h.held.Some? then h.held.value else ServerHelloDone;
      FormNext(h.cfg, h.known, p, t, h'.log.transcript, m);
    }
  }

  lemma SwitchesClient(h: Hs)
    requires Formed(h) && h.cfg.Server? && (h.state.ReadClientCcs? || h.state.ProcessClientCcs?)
    ensures h.state.ReadClientCcs? ==> Leads(h, h.(state := ProcessClientCcs).Stop(ReadCcs))
    ensures h.state.ProcessClientCcs? ==> Leads(h, h.ChangeReadKeys(ReadNextProto))
  {
    var t := h.log.transcript;
    ServerNumbers();
    HandshakeLocal.ServerPlaces(h.known.params.resumed);
    hide Form, Pos, Number;
    if h.state.ReadClientCcs? {
      FormNext(h.cfg, h.known, Place(h), t, t, ServerHelloDone);
    }
  }

  lemma ReadsNextProto(h: Hs)
    requires Formed(h) && h.state.ReadNextProto? && h.cfg.Server?
    ensures Leads(h, ServerSteps.DoReadNextProto(h))
  {
    var h', t, p := ServerSteps.DoReadNextProto(h), h.log.transcript, Place(h);
    ServerNumbers();
    HandshakeLocal.ServerPlaces(h.known.params.resumed);
    hide Form, Pos, Number;
    if h' != h.Stop(h'.wait) {
      var m := if h.held.Some? then h.held.value else ServerHelloDone;
      FormNext(h.cfg, h.known, p, t, h'.log.transcript, m);
    }
  }

  lemma ReadsChannelId(h: Hs)
    requires Formed(h) && h.state.ReadChannelId? && h.cfg.Server?
    ensures Leads(h, ServerSteps.DoReadChannelId(h))
  {
    var h', t, p := ServerSteps.DoReadChannelId(h), h.log.transcript, Place(h);
    ServerNumbers();
    HandshakeLocal.ServerPlaces(h.known.params.resumed);
    hide Form, Pos, Number;
    if h' != h.Stop(h'.wait) {
      var m := if h.held.Some? then h.held.value else ServerHelloDone;
      FormNext(h.cfg, h.known, p, t, h'.log.transcript, m);
    }
  }

  lemma ReadsClientFinished(h: Hs)
    requires Formed(h) && h.state.ReadClientFinished? && h.cfg.Server?
    ensures Leads(h, ServerSteps.DoReadClientFinished(h))
  {
    var h', t, p := ServerSteps.DoReadClientFinished(h), h.log.transcript, Place(h);
    ServerNumbers();
    HandshakeLocal.ServerPlaces(h.known.params.resumed);
    hide Form, Pos, Number;
    if h' != h.Stop(h'.wait) {
      var m := if h.held.Some? then h.held.value else ServerHelloDone;
      FormNext(h.cfg, h.known, p, t, h'.log.transcript, m);
    }
  }

  /** A ticket, and Finished behind a ChangeCipherSpec. */
  lemma Ends(c: Config, k: Known, p: nat, t: seq<Msg>, m: Msg) returns (t': seq<Msg>)
    requires Form(c, k, p, t) && p == (if k.params.resumed then 2 else 14) && m.NewSessionTicket?
    ensures var t1 := if k.params.ticket then t + [m] else t;
            t' == t1 + [Finished(true, t1)]
    ensures Form(c, k, p + 3, t')
  {
    hide Form;
    var t1 := if k.params.ticket then t + [m] else t;
    t' := t1 + [Finished(true, t1)];
    FormNext(c, k, p, t, t1, m);
    FormNext(c, k, p + 1, t1, t1, m);
    FormNext(c, k, p + 2, t1, t', Finished(true, t1));
  }

  lemma SendsFinished(h: Hs)
    requires Formed(h) && h.cfg.Server? && h.state.SendServerFinished?
    ensures Leads(h, ServerSteps.DoSendServerFinished(h))
  {
    ServerNumbers();
    HandshakeLocal.ServerPlaces(h.known.params.resumed);
    hide Form, Pos, Number;
    var t := Ends(h.cfg, h.known, Place(h), h.log.transcript, NewSessionTicket(h.cfg.emptyTicket));
  }

  // Runs.

  lemma ClientLeads(h: Hs, a: Answer)
    requires Formed(h) && h.cfg.Client? && !h.state.Done?
    ensures Leads(h, ClientSteps.Do(h, a))
  {
    hide ClientSteps.Do, Form;
    if FirstClientHalf(h.state) {
      ClientLeads1(h, a);
    } else {
      ClientLeads2(h, a);
    }
  }

  lemma ClientLeads1(h: Hs, a: Answer)
    requires Formed(h) && h.cfg.Client? && FirstClientHalf(h.state)
    ensures Leads(h, ClientSteps.Do(h, a))
  {
    hide ClientSteps.Do, Form, Number, Pos, Visits;
    ClientSteps.FirstCases(h, a);
    hide Leads, Formed;
    match h.state {
      case StartConnect => Hello(h);
      case EnterEarlyData => Enters(h);
      case ReadServerHello => ReadsHello(h);
      case ReadServerCertificate => ReadsCertificate(h);
      case ReadCertificateStatus => ReadsStatus(h);
      case VerifyServerCertificate => Verifies(h, a);
      case ReadServerKeyExchange => ReadsKeyExchange(h);
      case ReadCertificateRequest => ReadsRequest(h);
      case ReadServerHelloDone => ReadsHelloDone(h);
    }
  }

  lemma LastClientHalf(h: Hs)
    requires O.InPlace(h) && h.cfg.Client? && !FirstClientHalf(h.state) && !h.state.Done?
    ensures h.state.SendClientCertificate? || h.state.SendClientKeyExchange? || h.state.SendClientCertificateVerify?
            || h.state.SendClientFinished? || h.state.FinishFlight? || h.state.ReadSessionTicket?
            || h.state.ProcessServerCcs? || h.state.ReadServerFinished? || h.state.FinishClientHandshake?
  {
  }

  lemma ClientLeads2(h: Hs, a: Answer)
    requires Formed(h) && h.cfg.Client? && !FirstClientHalf(h.state) && !h.state.Done?
    ensures Leads(h, ClientSteps.Do(h, a))
  {
    LastClientHalf(h);
    hide ClientSteps.Do, Form, Pos, Number, Visits;
    ClientSteps.Cases(h, a);
    hide Leads, Formed;
    match h.state {
      case SendClientCertificate => SendsCertificate(h, a);
      case SendClientKeyExchange => SendsKeyExchange(h);
      case SendClientCertificateVerify => SendsVerify(h, a);
      case SendClientFinished => WritesFinished(h, a);
      case FinishFlight => Finishes(h);
      case ReadSessionTicket => ReadsTicket(h);
      case ProcessServerCcs => Switches(h);
      case ReadServerFinished => ReadsFinished(h);
      case FinishClientHandshake => Enters(h);
    }
  }

  lemma ServerLeads(h: Hs, a: Answer)
    requires Formed(h) && h.cfg.Server? && !h.state.Done?
    ensures Leads(h, ServerSteps.Do(h, a))
  {
    ServerSteps.Cases1(h, a);
    ServerSteps.Cases2(h, a);
    hide Leads, ServerSteps.Do, Formed;
    match h.state {
      case StartAccept => SelectsFirst(h, a);
      case ReadClientHello => SelectsFirst(h, a);
      case SelectCertificate => SelectsFirst(h, a);
      case SelectParameters => Selects(h, a);
      case SendServerHello => SendsHello(h);
      case SendServerCertificate => SendsServerCertificate(h);
      case SendServerKeyExchange => SendsServerKeyExchange(h, a);
      case SendServerHelloDone => SendsHelloDone(h);
      case ReadClientCertificate => ReadsClientCertificate(h);
      case VerifyClientCertificate => VerifiesClient(h, a);
      case ReadClientKeyExchange => ReadsClientKeyExchange(h, a);
      case ReadClientCertificateVerify => ReadsVerify(h);
      case ReadClientCcs => SwitchesClient(h);
      case ProcessClientCcs => SwitchesClient(h);
      case ReadNextProto => ReadsNextProto(h);
      case ReadChannelId => ReadsChannelId(h);
      case ReadClientFinished => ReadsClientFinished(h);
      case SendServerFinished => SendsFinished(h);
      case FinishServerHandshake => LastState(h);
    }
  }

  lemma LastState(h: Hs)
    requires Formed(h) && h.cfg.Server?
    ensures h.state.FinishServerHandshake? ==> Leads(h, h.Go(Done))
  {
    ServerNumbers();
    HandshakeLocal.ServerPlaces(h.known.params.resumed);
    hide Form, Pos, Number;
  }

  /** The invariant looks at nothing else. */
  lemma FormedSame(h: Hs, h': Hs)
    requires Formed(h) && h'.cfg == h.cfg && h'.state == h.state && h'.known == h.known && h'.log == h.log
    ensures Formed(h')
  {
    hide Form, Pos, Number, Visits;
  }

  lemma StepFormed(t: R.Track, e: R.Event)
    requires Formed(t.h) && R.Enabled(t, e)
    ensures Formed(R.Step(t, e).h)
  {
    match e {
      case Turn(act) =>
        hide ClientSteps.Do, ServerSteps.Do, Leads, O.EndWork;
        if act.Run? {
          assert O.InPlace(t.h);
          O.RunWorks(t.h, act.a);
          O.ConfigKept(t.h, act.a);
          if t.h.cfg.Client? {
            ClientLeads(t.h, act.a);
          } else {
            ServerLeads(t.h, act.a);
          }
          LeadsFormed(t.h, Act1(t.h, act));
        } else {
          hide Formed;
          FormedSame(t.h, Act1(t.h, act));
        }
      case Arrive(r) =>
        hide Formed;
        FormedSame(t.h, R.Step(t, e).h);
    }
  }

  lemma LeadsFormed(h: Hs, h': Hs)
    requires Formed(h) && Leads(h, h') && O.InPlace(h')
    ensures Formed(h')
  {
    hide Form, Pos, Number, Visits;
  }

  lemma {:induction false} RunFormed(cfg: Config, run: seq<R.Event>)
    requires R.Possible(cfg, run)
    ensures Formed(R.After(cfg, run).h)
  {
    if run != [] {
      RunFormed(cfg, run[..|run| - 1]);
      hide Formed, R.Step, R.Enabled;
      StepFormed(R.After(cfg, run[..|run| - 1]), run[|run| - 1]);
    }
  }

  // What a transcript of this form says.

  /** Each message fits some place. */
  lemma {:induction false} MessageFits(c: Config, k: Known, p: nat, t: seq<Msg>, i: nat) returns (q: nat)
    requires Form(c, k, p, t) && i < |t|
    ensures q < p && Gets(c, k, q, t[i], t[..i])
  {
    hide Needed, Fits, At;
    var kind := At(k.params.resumed, p - 1);
    if Needed(c, k, kind) != Always && Form(c, k, p - 1, t) {
      q := MessageFits(c, k, p - 1, t, i);
    } else if i == |t| - 1 {
      q := p - 1;
    } else {
      q := MessageFits(c, k, p - 1, t[..|t| - 1], i);
      assert t[..|t| - 1][..i] == t[..i];
    }
  }

  /** Each place that needs a message has one, behind those of the places before. */
  lemma {:induction false} PlaceFilled(c: Config, k: Known, p: nat, t: seq<Msg>, q: nat) returns (i: nat)
    requires Form(c, k, p, t) && q < p && Needed(c, k, At(k.params.resumed, q)) == Always
    ensures i < |t| && Fits(c, k, At(k.params.resumed, q), t[i], t[..i]) && Form(c, k, q, t[..i])
  {
    hide Needed, Fits, At;
    var kind := At(k.params.resumed, p - 1);
    if Needed(c, k, kind) != Always && Form(c, k, p - 1, t) {
      i := PlaceFilled(c, k, p - 1, t, q);
    } else if q == p - 1 {
      i := |t| - 1;
    } else {
      i := PlaceFilled(c, k, p - 1, t[..|t| - 1], q);
      assert t[..|t| - 1][..i] == t[..i];
    }
  }

  /** Whatever records arrive and however operations answer: the transcript of an end that is done is a handshake of
      section 7.3 of RFC 5246, with every message there that its parameters need and no other, all in their order. */
  lemma DoneForm(cfg: Config, run: seq<R.Event>)
    requires R.Possible(cfg, run) && R.After(cfg, run).h.state.Done?
    ensures var h := R.After(cfg, run).h;
            && Form(cfg, h.known, if h.known.params.resumed then 9 else 17, h.log.transcript)
            && (cfg.Client? && h.known.params.resumed ==> cfg.offersSession)
            && (cfg.Server? && h.known.peerKey ==> h.known.certRequest && !h.known.params.resumed)
  {
    var h := R.After(cfg, run).h;
    RunFormed(cfg, run);
    O.SameConfig(cfg, run);
    HandshakeLocal.ClientPlaces(h.known.params.resumed);
    hide Form, Pos, Number, Visits;
  }

  /** A server that is done has settled what its configuration says: it resumes only a session that it has found and the
      client has offered, and asks for a certificate in a full handshake with one of its own just if it verifies peers
      and Channel ID does not stand in for it. */
  lemma ServerSettles(cfg: Config, run: seq<R.Event>)
    requires R.Possible(cfg, run) && R.After(cfg, run).h.state.Done? && cfg.Server?
    ensures var h := R.After(cfg, run).h;
            var p := h.known.params;
            && (p.resumed ==> cfg.findsSession && h.log.transcript != [] && h.log.transcript[0] == ClientHello(true))
            && h.known.certRequest
               == (!p.resumed && cfg.cert && cfg.verifyPeer && !(cfg.verifyIfNoObc && cfg.channelIdOffered))
            && p == Params(p.resumed, cfg.kx, cfg.cert,
                           if p.resumed then cfg.renewTicket else cfg.ticketsSupported,
                           cfg.ocspReady && !p.resumed && cfg.cert,
                           cfg.npnOffered,
                           cfg.channelIdOffered && cfg.kx == Ecdhe && (p.resumed ==> cfg.originalHashes))
  {
    var h := R.After(cfg, run).h;
    RunFormed(cfg, run);
    O.SameConfig(cfg, run);
    ServerNumbers();
    HandshakeLocal.ServerPlaces(h.known.params.resumed);
    hide Form, Pos, Number, Visits, R.After, R.Possible;
    FirstIs(h.cfg, h.known, Place(h), h.log.transcript);
  }

  lemma {:induction false} FirstIs(c: Config, k: Known, p: nat, t: seq<Msg>)
    requires Form(c, k, p, t) && p > 0
    ensures t != [] && Fits(c, k, KClientHello, t[0], [])
  {
    if p == 1 {
      assert At(k.params.resumed, 0) == KClientHello;
    } else {
      hide Needed, Fits, At;
      if Form(c, k, p - 1, t) {
        FirstIs(c, k, p - 1, t);
      } else {
        FirstIs(c, k, p - 1, t[..|t| - 1]);
      }
    }
  }

  /** At every time, a signature or Finished message in the transcript is over exactly the messages before it; what the
      other end has sent included. */
  lemma SignedBefore(cfg: Config, run: seq<R.Event>, i: nat)
    requires R.Possible(cfg, run) && i < |R.After(cfg, run).h.log.transcript|
    ensures var t := R.After(cfg, run).h.log.transcript;
            && (t[i].CertificateVerify? ==> t[i].signed == t[..i])
            && (t[i].ChannelId? ==> t[i].signed == t[..i])
            && (t[i].Finished? ==> t[i].over == t[..i])
  {
    var h := R.After(cfg, run).h;
    RunFormed(cfg, run);
    hide Form, Pos, Number, Visits, Needed, At, Fits, R.After, R.Possible;
    var q := MessageFits(h.cfg, h.known, Place(h), h.log.transcript, i);
    FitsSigned(h.cfg, h.known, At(h.known.params.resumed, q), h.log.transcript[i], h.log.transcript[..i]);
  }

  lemma FitsSigned(c: Config, k: Known, kind: Kind, m: Msg, t: seq<Msg>)
    requires Fits(c, k, kind, m, t)
    ensures (m.CertificateVerify? || m.ChannelId? ==> m.signed == t) && (m.Finished? ==> m.over == t)
  {
  }

  /** A server that is done and has a client's key has checked a signature made with it, over everything before it, and
      the certificate is among that. */
  lemma ClientProvesKey(cfg: Config, run: seq<R.Event>) returns (i: nat, j: nat)
    requires R.Possible(cfg, run) && cfg.Server?
    requires R.After(cfg, run).h.state.Done? && R.After(cfg, run).h.known.peerKey
    ensures var t := R.After(cfg, run).h.log.transcript;
            && i < |t| && t[i] == CertificateVerify(t[..i])
            && j < i && t[j] == Certificate(true)
  {
    var h := R.After(cfg, run).h;
    DoneForm(cfg, run);
    hide R.After, R.Possible;
    i, j := KeyProved(cfg, h.known, h.log.transcript);
  }

  /** If it insists on a certificate it has got one. */
  lemma DemandedKey(cfg: Config, run: seq<R.Event>)
    requires R.Possible(cfg, run) && cfg.Server? && R.After(cfg, run).h.state.Done?
    requires !R.After(cfg, run).h.known.params.resumed && cfg.cert && cfg.verifyPeer && cfg.failIfNoCert
    requires !(cfg.verifyIfNoObc && cfg.channelIdOffered)
    ensures R.After(cfg, run).h.known.peerKey
  {
    var h := R.After(cfg, run).h;
    DoneForm(cfg, run);
    ServerSettles(cfg, run);
    hide Form, R.After, R.Possible;
    var i := PlaceFilled(cfg, h.known, 17, h.log.transcript, 7);
  }

  lemma KeyProved(c: Config, k: Known, t: seq<Msg>) returns (i: nat, j: nat)
    requires Form(c, k, 17, t) && c.Server? && k.peerKey && k.certRequest && !k.params.resumed
    ensures i < |t| && t[i] == CertificateVerify(t[..i]) && j < i && t[j] == Certificate(true)
  {
    hide Form;
    i := PlaceFilled(c, k, 17, t, 9);
    j := PlaceFilled(c, k, 9, t[..i], 7);
  }
}
