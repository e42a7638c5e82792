/** What one end of a TLS 1.2 handshake knows and has done, by where it stands in the script, and that every
    do_* step keeps it so. */
module HandshakeLocal {
  import opened Bytes
  import opened HandshakeState
  import opened HandshakeScript
  import ClientSteps
  import ServerSteps

  /** What an end has learned by place p. */
  function KnownAt(s: Config, f: Facts, server: bool, state: State, p: nat): Known
    requires s.Server?
  {
    if server then
      if p == 0 then Known(EarlyParams(s, state), false, false, false, false)
      else
        Known(if state.SendServerHello? then EarlyParams(s, state).(resumed := f.params.resumed) else f.params,
              f.params.ticket, f.certRequest, p > 7 && f.certRequest && f.hasCert,
              state.SendServerKeyExchange? && f.keyExchangeSent)
    else if p <= 1 then Known(NoParams, false, false, false, false)
    else
      Known(f.params, f.params.ticket && !(p > TicketAt(f) && f.emptyTicket), p > 5 && f.certRequest,
            p > 2 && f.params.cert && !f.params.resumed, false)
  }

  /** The parameters of a server that has not sent its ServerHello. */
  function EarlyParams(s: Config, state: State): Params
    requires s.Server?
  {
    if state.StartAccept? || state.ReadClientHello? then NoParams
    else
      var p := NoParams.(npn := s.npnOffered, channelId := s.channelIdOffered);
      if state.SelectCertificate? then p else p.(kx := s.kx, cert := s.cert)
  }

  function KeysAt(f: Facts, server: bool, state: State, p: nat): Keys {
    var clientNew, serverNew := p > ClientCcsAt(f), p > ServerCcsAt(f);
    if server then Keys(clientNew && !state.ProcessClientCcs?, serverNew)
    else Keys(serverNew && !state.ProcessServerCcs?, clientNew)
  }

  /** Where an end may wait, and for what; when it must hold a message, or none; and when a flight is open. */
  ghost predicate WaitOk(f: Facts, h: Hs) {
    var n := Number(h.state);
    && (n == 20 || n == 21 ==> h.held.Some?)
    && (n == 15 || n == 31 ==> h.held.None?)
    && (h.flight == [] || MidFlight(n) || h.wait.Flush?)
    && match h.wait
       case Ok => true
       case Error => false
       case Flush => n == 1 || n == 13 || n == 26 || n == 30 || n == 36
       case ReadMessage => h.held.None? && Expects(f, h) && !MidFlight(n)
       case ReadCcs => n == 15 || n == 31
       case Pending(_) => n != 37
       case EarlyReturn => n == 14
  }

  /** Whether the state asks for a message; if it does, one must come. */
  predicate Expects(f: Facts, h: Hs) {
    var n := Number(h.state);
    || AlwaysAsks(n)
    || (AsksIfPresent(n) && Present(f, KindAt(f, Place(f, h))))
    || (AsksIfCert(n) && f.params.cert)
  }

  function Place(f: Facts, h: Hs): nat {
    Pos(h.state, h.wait, f.params.resumed)
  }

  ghost predicate Local(c: Config, s: Config, server: bool, h: Hs)
    requires c.Client? && s.Server?
  {
    var f := Agree(c, s);
    var p := Place(f, h);
    && h.cfg == (if server then s else c)
    && Visits(Number(h.state), server, f.params.resumed)
    && h.known == KnownAt(s, f, server, h.state, p)
    && h.keys == KeysAt(f, server, h.state, p)
    && h.log == LogAt(f, p)
    && WaitOk(f, h)
    && (server && p > 7 && !f.params.resumed ==> Compatible(f))
  }

  /** m is the first message from place p on. */
  ghost predicate IsNext(f: Facts, p: nat, m: Msg)
    decreases 17 - p
  {
    p < 17 &&
    var k := KindAt(f, p);
    if Present(f, k) then !IsCcs(k) && m == MsgOf(f, k, LogAt(f, p).transcript) else IsNext(f, p + 1, m)
  }

  /** An end that may run its state machine, with the message it holds. */
  ghost predicate CanDo(c: Config, s: Config, server: bool, h: Hs) {
    && c.Client? && s.Server? && CipherOk(s)
    && Local(c, s, server, h) && h.wait.Ok?
    && (h.held.Some? ==> IsNext(Agree(c, s), Place(Agree(c, s), h), h.held.value))
  }

  /** What a step of one end can do to the wire: send what comes next in the script, or take it. */
  ghost predicate Moves(f: Facts, server: bool, h: Hs, h': Hs) {
    var p, p' := Place(f, h), Place(f, h');
    && p <= p' && h'.inbox == h.inbox
    && if h'.held == h.held then Only(f, server, p, p') && h'.flight == h.flight + Recs(f, p, p')
       else h.held.Some? && h'.held.None? && h'.flight == h.flight && p' == p + 1 && Present(f, KindAt(f, p))
  }

  ghost predicate StepOk(c: Config, s: Config, server: bool, h: Hs, h': Hs)
    requires c.Client? && s.Server?
  {
    Local(c, s, server, h') && Moves(Agree(c, s), server, h, h') && Goes(Agree(c, s), h, h')
  }

  /** A step leads to the next state, or is held up where it is. */
  ghost predicate Goes(f: Facts, h: Hs, h': Hs) {
    || Number(h'.state) == Succ(Number(h.state), f.params.resumed)
    || (h'.state == h.state && (h'.wait.Pending? || (h'.wait.ReadMessage? && h.held.None?)))
  }

  /** The places of the states, for proofs that need no more of Pos. */
  lemma ClientPlaces1(r: bool)
    ensures Pos(StartConnect, Ok, r) == 0
    ensures Pos(EnterEarlyData, Ok, r) == 1
    ensures Pos(EnterEarlyData, Flush, r) == 1
    ensures Pos(ReadServerHello, Ok, r) == 1
    ensures !r ==> Pos(ReadServerCertificate, Ok, r) == 2
    ensures !r ==> Pos(ReadCertificateStatus, Ok, r) == 3
    ensures !r ==> Pos(VerifyServerCertificate, Ok, r) == 4
    ensures !r ==> Pos(ReadServerKeyExchange, Ok, r) == 4
  {
  }

  lemma ClientPlaces2(r: bool)
    ensures !r ==> Pos(ReadCertificateRequest, Ok, r) == 5
    ensures !r ==> Pos(ReadServerHelloDone, Ok, r) == 6
    ensures !r ==> Pos(SendClientCertificate, Ok, r) == 7
    ensures !r ==> Pos(SendClientKeyExchange, Ok, r) == 8
    ensures !r ==> Pos(SendClientCertificateVerify, Ok, r) == 9
    ensures Pos(SendClientFinished, Ok, r) == if r then 5 else 10
    ensures Pos(FinishFlight, Ok, r) == if r then 9 else 14
    ensures Pos(FinishFlight, Flush, r) == if r then 9 else 14
  {
  }

  lemma ClientPlaces3(r: bool)
    ensures Pos(ReadSessionTicket, Ok, r) == if r then 2 else 14
    ensures Pos(ReadSessionTicket, EarlyReturn, r) == if r then 2 else 14
    ensures Pos(ProcessServerCcs, Ok, r) == if r then 4 else 16
    ensures Pos(ProcessServerCcs, ReadCcs, r) == if r then 3 else 15
    ensures Pos(ReadServerFinished, Ok, r) == if r then 4 else 16
    ensures Pos(FinishClientHandshake, Ok, r) == if r then 9 else 17
    ensures Pos(Done, Ok, r) == if r then 9 else 17
  {
  }

  lemma ClientPlaces(r: bool)
    ensures Pos(StartConnect, Ok, r) == 0
    ensures Pos(EnterEarlyData, Ok, r) == 1
    ensures Pos(EnterEarlyData, Flush, r) == 1
    ensures Pos(ReadServerHello, Ok, r) == 1
    ensures !r ==> Pos(ReadServerCertificate, Ok, r) == 2
    ensures !r ==> Pos(ReadCertificateStatus, Ok, r) == 3
    ensures !r ==> Pos(VerifyServerCertificate, Ok, r) == 4
    ensures !r ==> Pos(ReadServerKeyExchange, Ok, r) == 4
    ensures !r ==> Pos(ReadCertificateRequest, Ok, r) == 5
    ensures !r ==> Pos(ReadServerHelloDone, Ok, r) == 6
    ensures !r ==> Pos(SendClientCertificate, Ok, r) == 7
    ensures !r ==> Pos(SendClientKeyExchange, Ok, r) == 8
    ensures !r ==> Pos(SendClientCertificateVerify, Ok, r) == 9
    ensures Pos(SendClientFinished, Ok, r) == if r then 5 else 10
    ensures Pos(FinishFlight, Ok, r) == if r then 9 else 14
    ensures Pos(FinishFlight, Flush, r) == if r then 9 else 14
    ensures Pos(ReadSessionTicket, Ok, r) == if r then 2 else 14
    ensures Pos(ReadSessionTicket, EarlyReturn, r) == if r then 2 else 14
    ensures Pos(ProcessServerCcs, Ok, r) == if r then 4 else 16
    ensures Pos(ProcessServerCcs, ReadCcs, r) == if r then 3 else 15
    ensures Pos(ReadServerFinished, Ok, r) == if r then 4 else 16
    ensures Pos(FinishClientHandshake, Ok, r) == if r then 9 else 17
    ensures Pos(Done, Ok, r) == if r then 9 else 17
  {
    hide Pos;
    ClientPlaces1(r);
    ClientPlaces2(r);
    ClientPlaces3(r);
  }

  lemma ServerPlaces1(r: bool)
    ensures Pos(StartAccept, Ok, r) == 0
    ensures Pos(ReadClientHello, Ok, r) == 0
    ensures Pos(SelectCertificate, Ok, r) == 0
    ensures Pos(SelectParameters, Ok, r) == 0
    ensures Pos(SendServerHello, Ok, r) == 1
    ensures !r ==> Pos(SendServerCertificate, Ok, r) == 2
  {
  }

  lemma ServerPlaces2(r: bool)
    ensures !r ==> Pos(SendServerKeyExchange, Ok, r) == 4
    ensures !r ==> Pos(SendServerHelloDone, Ok, r) == 5
    ensures !r ==> Pos(ReadClientCertificate, Ok, r) == 7
    ensures !r ==> Pos(ReadClientCertificate, Flush, r) == 7
    ensures !r ==> Pos(VerifyClientCertificate, Ok, r) == 8
    ensures !r ==> Pos(ReadClientKeyExchange, Ok, r) == 8
  {
  }

  lemma ServerPlaces3(r: bool)
    ensures !r ==> Pos(ReadClientCertificateVerify, Ok, r) == 9
    ensures Pos(ReadClientCcs, Ok, r) == if r then 5 else 10
    ensures Pos(ReadClientCcs, Flush, r) == if r then 5 else 10
    ensures Pos(ProcessClientCcs, Ok, r) == if r then 6 else 11
    ensures Pos(ProcessClientCcs, ReadCcs, r) == if r then 5 else 10
    ensures Pos(ReadNextProto, Ok, r) == if r then 6 else 11
  {
  }

  lemma ServerPlaces4(r: bool)
    ensures Pos(ReadChannelId, Ok, r) == if r then 7 else 12
    ensures Pos(ReadClientFinished, Ok, r) == if r then 8 else 13
    ensures Pos(SendServerFinished, Ok, r) == if r then 2 else 14
    ensures Pos(FinishServerHandshake, Ok, r) == if r then 9 else 17
    ensures Pos(FinishServerHandshake, Flush, r) == if r then 9 else 17
    ensures Pos(Done, Ok, r) == if r then 9 else 17
  {
  }

  lemma ServerPlaces(r: bool)
    ensures Pos(StartAccept, Ok, r) == 0
    ensures Pos(ReadClientHello, Ok, r) == 0
    ensures Pos(SelectCertificate, Ok, r) == 0
    ensures Pos(SelectParameters, Ok, r) == 0
    ensures Pos(SendServerHello, Ok, r) == 1
    ensures !r ==> Pos(SendServerCertificate, Ok, r) == 2
    ensures !r ==> Pos(SendServerKeyExchange, Ok, r) == 4
    ensures !r ==> Pos(SendServerHelloDone, Ok, r) == 5
    ensures !r ==> Pos(ReadClientCertificate, Ok, r) == 7
    ensures !r ==> Pos(ReadClientCertificate, Flush, r) == 7
    ensures !r ==> Pos(VerifyClientCertificate, Ok, r) == 8
    ensures !r ==> Pos(ReadClientKeyExchange, Ok, r) == 8
    ensures !r ==> Pos(ReadClientCertificateVerify, Ok, r) == 9
    ensures Pos(ReadClientCcs, Ok, r) == if r then 5 else 10
    ensures Pos(ReadClientCcs, Flush, r) == if r then 5 else 10
    ensures Pos(ProcessClientCcs, Ok, r) == if r then 6 else 11
    ensures Pos(ProcessClientCcs, ReadCcs, r) == if r then 5 else 10
    ensures Pos(ReadNextProto, Ok, r) == if r then 6 else 11
    ensures Pos(ReadChannelId, Ok, r) == if r then 7 else 12
    ensures Pos(ReadClientFinished, Ok, r) == if r then 8 else 13
    ensures Pos(SendServerFinished, Ok, r) == if r then 2 else 14
    ensures Pos(FinishServerHandshake, Ok, r) == if r then 9 else 17
    ensures Pos(FinishServerHandshake, Flush, r) == if r then 9 else 17
    ensures Pos(Done, Ok, r) == if r then 9 else 17
  {
    hide Pos;
    ServerPlaces1(r);
    ServerPlaces2(r);
    ServerPlaces3(r);
    ServerPlaces4(r);
  }

  /** What the facts are like, whatever the configurations. */
  ghost predicate About(c: Config, f: Facts) {
    && c.Client? && f.hasCert == c.hasCert && f.offersSession == c.offersSession
    && (f.params.resumed ==> c.offersSession && !f.certRequest && !f.params.ocsp)
    && (f.params.ocsp || f.certRequest ==> f.params.cert)
    && (f.params.kx == Ecdhe ==> f.keyExchangeSent)
    && (f.params.kx == Rsa ==> !f.keyExchangeSent)
  }

  /** How the server's configuration decides the facts. */
  ghost predicate Settled(c: Config, s: Config, f: Facts) {
    && c.Client? && s.Server?
    && f.params.resumed == (s.findsSession && c.offersSession)
    && f.params.ticket == (if f.params.resumed then s.renewTicket else s.ticketsSupported)
    && f.certRequest == (!f.params.resumed && s.verifyPeer && !(s.verifyIfNoObc && s.channelIdOffered) && s.cert)
    && f.params.kx == s.kx && f.params.cert == s.cert && f.params.npn == s.npnOffered
    && f.params.channelId == (s.channelIdOffered && s.kx == Ecdhe && !(f.params.resumed && !s.originalHashes))
    && f.params.ocsp == (s.ocspReady && !f.params.resumed && s.cert)
    && f.keyExchangeSent == (s.kx == Ecdhe || (!s.cert && s.pskHint))
  }

  /** The held message is the one at place p, if that has one. */
  ghost predicate Held(f: Facts, p: nat, held: Option<Msg>) {
    held.Some? && Present(f, KindAt(f, p)) ==>
      !IsCcs(KindAt(f, p)) && held.value == MsgOf(f, KindAt(f, p), LogAt(f, p).transcript)
  }

  /** An end in a given state at place p, about to run its state machine. */
  ghost predicate Core(c: Config, s: Config, f: Facts, server: bool, h: Hs, p: nat) {
    && About(c, f) && s.Server? && s.emptyTicket == f.emptyTicket && h.wait.Ok?
    && h.cfg == (if server then s else c)
    && p == Pos(h.state, Ok, f.params.resumed)
    && h.known == KnownAt(s, f, server, h.state, p) && h.keys == KeysAt(f, server, h.state, p)
    && h.log == LogAt(f, p) && LogAt(f, p + 1) == LogNext(f, KindAt(f, p), LogAt(f, p))
    && Held(f, p, h.held)
  }

  /** The step is held up: for a message that must come, or by an operation that is pending. */
  ghost predicate HeldUp(h: Hs, h': Hs, asks: bool) {
    || (asks && h.held.None? && h' == h.Stop(ReadMessage))
    || (h'.wait.Pending? && h' == h.Stop(h'.wait))
  }

  /** The step goes to the next state, at place q. */
  ghost predicate Arrives(s: Config, f: Facts, server: bool, h: Hs, h': Hs, next: State, w: Wait, q: nat)
    requires s.Server?
  {
    && h'.cfg == h.cfg && h'.inbox == h.inbox && h'.state == next && h'.wait == w && q == Pos(next, w, f.params.resumed)
    && h'.known == KnownAt(s, f, server, next, q) && h'.keys == KeysAt(f, server, next, q) && h'.log == LogAt(f, q)
  }

  /** ... having taken the message of place p, if that has one. */
  ghost predicate TakesTo(s: Config, f: Facts, server: bool, h: Hs, h': Hs, next: State, w: Wait, p: nat)
    requires s.Server?
  {
    && Arrives(s, f, server, h, h', next, w, p + 1) && h'.flight == h.flight
    && (if Present(f, KindAt(f, p)) then h.held.Some? && h'.held.None? else h'.held == h.held)
  }

  /** ... having added the messages of places p to q. */
  ghost predicate SendsTo(s: Config, f: Facts, server: bool, h: Hs, h': Hs, next: State, w: Wait, p: nat, q: nat)
    requires s.Server?
  {
    && Arrives(s, f, server, h, h', next, w, q) && h'.held == h.held && h'.flight == h.flight + Recs(f, p, q)
    && Only(f, server, p, q)
  }

  /** What place p adds to the log and to the wire. */
  lemma Slot(f: Facts, p: nat)
    ensures LogAt(f, p + 1) == LogNext(f, KindAt(f, p), LogAt(f, p))
    ensures Recs(f, p, p + 1)
         == if Present(f, KindAt(f, p)) then [RecOf(f, KindAt(f, p), LogAt(f, p).transcript)] else []
    ensures Recs(f, p, p) == []
    ensures Only(f, true, p, p) && Only(f, false, p, p)
    ensures Only(f, FromServer(KindAt(f, p)), p, p + 1)
    ensures !Present(f, KindAt(f, p)) ==> Only(f, true, p, p + 1) && Only(f, false, p, p + 1)
  {
    assert Recs(f, p, p) == [];
  }

  /** The held message is the one at the first place from p on that has one. */
  lemma HeldFirst(f: Facts, p: nat, held: Option<Msg>)
    requires p <= 16 && (held.Some? ==> IsNext(f, p, held.value))
    ensures held.Some? ==>
              var k := KindAt(f, p);
              if Present(f, k) then !IsCcs(k) && held.value == MsgOf(f, k, LogAt(f, p).transcript)
              else IsNext(f, p + 1, held.value)
  {
  }

  /** From h0 at place p to h, the messages of places p to q have been added. */
  ghost predicate Sent(f: Facts, p: nat, q: nat, h0: Hs, h: Hs) {
    h == h0.(log := h.log, flight := h.flight, keys := h.keys) && h.log == LogAt(f, q)
    && h.flight == h0.flight + Recs(f, p, q)
  }

  lemma NothingSent(f: Facts, p: nat, h: Hs)
    requires h.log == LogAt(f, p)
    ensures Sent(f, p, p, h, h)
  {
    assert h.flight + [] == h.flight;
  }

  /** Adding the message of the next place, if there is one. */
  lemma SendNext(f: Facts, p: nat, q: nat, h0: Hs, h: Hs, present: bool, m: Msg)
    requires p <= q && Sent(f, p, q, h0, h)
    requires var k := KindAt(f, q);
             && present == Present(f, k) && !IsCcs(k) && k != KClientFinished && k != KServerFinished
             && (present ==> m == MsgOf(f, k, h.log.transcript) && h.keys.write == IsSealed(k))
    ensures Sent(f, p, q + 1, h0, if present then h.Add(m) else h)
  {
    hide MsgOf, KindAt, Present;
    RecsJoin(f, p, q, q + 1);
    Slot(f, q);
    if present {
      assert h0.flight + Recs(f, p, q) + Recs(f, q, q + 1) == h0.flight + (Recs(f, p, q) + Recs(f, q, q + 1));
    }
  }

  lemma SendCcs(f: Facts, p: nat, q: nat, h0: Hs, h: Hs)
    requires p <= q && Sent(f, p, q, h0, h) && !h.keys.write && Present(f, KindAt(f, q)) && IsCcs(KindAt(f, q))
    ensures Sent(f, p, q + 1, h0, h.ChangeWriteKeys())
  {
    hide KindAt, Present;
    RecsJoin(f, p, q, q + 1);
    Slot(f, q);
    assert h0.flight + Recs(f, p, q) + Recs(f, q, q + 1) == h0.flight + (Recs(f, p, q) + Recs(f, q, q + 1));
  }

  lemma SendFinished(f: Facts, p: nat, q: nat, h0: Hs, h: Hs, server: bool)
    requires p <= q && Sent(f, p, q, h0, h) && h.keys.write
    requires KindAt(f, q) == if server then KServerFinished else KClientFinished
    ensures Sent(f, p, q + 1, h0, h.AddFinished(server))
  {
    RecsJoin(f, p, q, q + 1);
    Slot(f, q);
    assert h0.flight + Recs(f, p, q) + Recs(f, q, q + 1) == h0.flight + (Recs(f, p, q) + Recs(f, q, q + 1));
  }

  lemma SendNextProto(f: Facts, p: nat, q: nat, h0: Hs, h: Hs)
    requires p <= q && Sent(f, p, q, h0, h) && KindAt(f, q) == KNextProto && h.keys.write
    ensures Sent(f, p, q + 1, h0, if f.params.npn then h.Add(NextProto) else h)
  {
    hide KindAt, LogAt, Recs;
    SendNext(f, p, q, h0, h, f.params.npn, NextProto);
  }

  lemma SendChannelId(f: Facts, p: nat, q: nat, h0: Hs, h: Hs)
    requires p <= q && Sent(f, p, q, h0, h) && KindAt(f, q) == KChannelId && h.keys.write
    ensures Sent(f, p, q + 1, h0, if f.params.channelId then h.Add(ChannelId(h.log.transcript)) else h)
  {
    hide KindAt, LogAt, Recs;
    SendNext(f, p, q, h0, h, f.params.channelId, ChannelId(h.log.transcript));
  }

  lemma ClientTail(f: Facts, p: nat)
    requires p == ClientCcsAt(f)
    ensures KindAt(f, p) == KClientCcs && KindAt(f, p + 1) == KNextProto && KindAt(f, p + 2) == KChannelId
    ensures KindAt(f, p + 3) == KClientFinished
  {
  }

  lemma WritesClientFinished(f: Facts, h: Hs)
    requires h.log == LogAt(f, ClientCcsAt(f)) && h.known.params == f.params && !h.keys.write
    ensures var h' := ClientSteps.WriteClientFinished(h);
            && h'.state.FinishFlight? && h'.wait.Flush? && h'.keys == h.keys.(write := true)
            && Sent(f, ClientCcsAt(f), ClientCcsAt(f) + 4, h, h'.(state := h.state, wait := h.wait))
  {
    var p := ClientCcsAt(f);
    ClientTail(f, p);
    hide LogAt, Recs, KindAt, ClientCcsAt;
    NothingSent(f, p, h);
    SendCcs(f, p, p, h, h);
    var h1 := h.ChangeWriteKeys();
    SendNextProto(f, p, p + 1, h, h1);
    var h2 := if f.params.npn then h1.Add(NextProto) else h1;
    SendChannelId(f, p, p + 2, h, h2);
    var h3 := if f.params.channelId then h2.Add(ChannelId(h2.log.transcript)) else h2;
    SendFinished(f, p, p + 3, h, h3, false);
  }

  lemma SettlesParameters(c: Config, s: Config, f: Facts, h: Hs)
    requires Settled(c, s, f) && h.cfg == s && h.held.Some? && h.known == KnownAt(s, f, true, SelectParameters, 0)
    ensures var h' := ServerSteps.SettleParameters(h, f.params.resumed);
            && h' == h.Consume().(known := h'.known).Go(SendServerHello)
            && h'.known == KnownAt(s, f, true, SendServerHello, 1)
    ensures h.held == Some(ClientHello(c.offersSession)) ==>
              (h.cfg.findsSession && h.held.value.offersSession) == f.params.resumed
  {
  }

  lemma SettlesHello(c: Config, s: Config, f: Facts, h: Hs)
    requires Settled(c, s, f) && h.cfg == s && h.known == KnownAt(s, f, true, SendServerHello, 1)
    ensures ServerSteps.DoSendServerHello(h)
         == h.(known := h.known.(params := f.params)).Add(ServerHello(f.params))
            .Go(if f.params.resumed then SendServerFinished else SendServerCertificate)
  {
  }

  lemma WritesServerCertificate(f: Facts, h: Hs)
    requires h.cfg.Server? && h.log == LogAt(f, 2) && h.known.params == f.params && !h.keys.write
    requires !f.params.resumed && (f.params.ocsp ==> f.params.cert)
    ensures var h' := ServerSteps.DoSendServerCertificate(h);
            Sent(f, 2, 4, h, h'.(state := h.state, wait := h.wait, known := h.known))
  {
    hide LogAt, Recs;
    NothingSent(f, 2, h);
    SendNext(f, 2, 2, h, h, f.params.cert, Certificate(true));
    var h1 := if f.params.cert then h.Add(Certificate(true)) else h;
    SendNext(f, 2, 3, h, h1, f.params.ocsp, CertificateStatus);
  }

  lemma WritesServerHelloDone(f: Facts, h: Hs)
    requires h.log == LogAt(f, 5) && h.known.certRequest == f.certRequest && !h.keys.write && !f.params.resumed
    ensures var h' := ServerSteps.DoSendServerHelloDone(h);
            Sent(f, 5, 7, h, h'.(state := h.state, wait := h.wait))
  {
    hide LogAt, Recs;
    NothingSent(f, 5, h);
    SendNext(f, 5, 5, h, h, f.certRequest, CertificateRequest);
    var h1 := if f.certRequest then h.Add(CertificateRequest) else h;
    SendNext(f, 5, 6, h, h1, true, ServerHelloDone);
  }

  lemma ServerTail(f: Facts, p: nat)
    requires p == TicketAt(f)
    ensures KindAt(f, p) == KNewSessionTicket && KindAt(f, p + 1) == KServerCcs && KindAt(f, p + 2) == KServerFinished
  {
  }

  lemma WritesServerFinished(f: Facts, h: Hs)
    requires h.cfg.Server? && h.cfg.emptyTicket == f.emptyTicket && h.known.ticketExpected == f.params.ticket
    requires h.log == LogAt(f, TicketAt(f)) && h.known.params == f.params && !h.keys.write
    ensures var h' := ServerSteps.DoSendServerFinished(h);
            && h'.keys == h.keys.(write := true) && h'.wait.Flush?
            && h'.state == (if f.params.resumed then ReadClientCcs else FinishServerHandshake)
            && Sent(f, TicketAt(f), TicketAt(f) + 3, h, h'.(state := h.state, wait := h.wait))
  {
    hide LogAt, Recs, KindAt;
    var p := TicketAt(f);
    ServerTail(f, p);
    hide TicketAt;
    NothingSent(f, p, h);
    SendNext(f, p, p, h, h, f.params.ticket, NewSessionTicket(f.emptyTicket));
    var h1 := if f.params.ticket then h.Add(NewSessionTicket(f.emptyTicket)) else h;
    SendCcs(f, p, p + 1, h, h1);
    SendFinished(f, p, p + 2, h, h1.ChangeWriteKeys(), true);
  }

  lemma AtStartConnect(c: Config, s: Config, f: Facts, h: Hs, p: nat)
    requires Core(c, s, f, false, h, p) && h.state.StartConnect?
    ensures var h' := ClientSteps.DoStartConnect(h);
            SendsTo(s, f, false, h, h', EnterEarlyData, Flush, p, p + 1)
  {
    hide LogAt, Recs, Pos;
    ClientPlaces(f.params.resumed);
    Slot(f, p);
  }

  lemma AtEnterEarlyData(c: Config, s: Config, f: Facts, h: Hs, p: nat)
    requires Core(c, s, f, false, h, p) && h.state.EnterEarlyData?
    ensures var h' := h.Go(ReadServerHello);
            SendsTo(s, f, false, h, h', ReadServerHello, Ok, p, p)
  {
    hide LogAt, Recs, Pos;
    ClientPlaces(f.params.resumed);
    Slot(f, p);
    assert h.flight + [] == h.flight;
  }

  lemma AtReadServerHello(c: Config, s: Config, f: Facts, h: Hs, p: nat)
    requires Core(c, s, f, false, h, p) && h.state.ReadServerHello?
    ensures var h' := ClientSteps.DoReadServerHello(h);
            || HeldUp(h, h', true)
            || TakesTo(s, f, false, h, h', if f.params.resumed then ReadSessionTicket else ReadServerCertificate,
                       Ok, p)
  {
    hide LogAt, Recs, Pos;
    ClientPlaces(f.params.resumed);
    Slot(f, p);
  }

  lemma AtReadServerCertificate(c: Config, s: Config, f: Facts, h: Hs, p: nat)
    requires Core(c, s, f, false, h, p) && h.state.ReadServerCertificate? && !f.params.resumed
    ensures var h' := ClientSteps.DoReadServerCertificate(h);
            HeldUp(h, h', Present(f, KindAt(f, p))) || TakesTo(s, f, false, h, h', ReadCertificateStatus, Ok, p)
  {
    hide LogAt, Recs, Pos;
    ClientPlaces(f.params.resumed);
    Slot(f, p);
  }

  lemma AtReadCertificateStatus(c: Config, s: Config, f: Facts, h: Hs, p: nat)
    requires Core(c, s, f, false, h, p) && h.state.ReadCertificateStatus? && !f.params.resumed
    ensures var h' := ClientSteps.DoReadCertificateStatus(h);
            HeldUp(h, h', Present(f, KindAt(f, p))) || TakesTo(s, f, false, h, h', VerifyServerCertificate, Ok, p)
  {
    hide LogAt, Recs, Pos;
    ClientPlaces(f.params.resumed);
    Slot(f, p);
  }

  lemma AtVerifyServerCertificate(c: Config, s: Config, f: Facts, h: Hs, p: nat, a: Answer)
    requires Core(c, s, f, false, h, p) && h.state.VerifyServerCertificate? && !a.Fail? && !f.params.resumed
    ensures var h' := ClientSteps.DoVerifyServerCertificate(h, a);
            HeldUp(h, h', false) || SendsTo(s, f, false, h, h', ReadServerKeyExchange, Ok, p, p)
  {
    hide LogAt, Recs, Pos;
    ClientPlaces(f.params.resumed);
    Slot(f, p);
    assert h.flight + [] == h.flight;
  }

  lemma AtReadServerKeyExchange(c: Config, s: Config, f: Facts, h: Hs, p: nat)
    requires Core(c, s, f, false, h, p) && h.state.ReadServerKeyExchange? && !f.params.resumed
    requires h.held.Some? && !f.keyExchangeSent ==> !h.held.value.ServerKeyExchange?
    ensures var h' := ClientSteps.DoReadServerKeyExchange(h);
            HeldUp(h, h', true) || TakesTo(s, f, false, h, h', ReadCertificateRequest, Ok, p)
  {
    hide LogAt, Recs, Pos;
    ClientPlaces(f.params.resumed);
    Slot(f, p);
  }

  lemma AtReadCertificateRequest(c: Config, s: Config, f: Facts, h: Hs, p: nat)
    requires Core(c, s, f, false, h, p) && h.state.ReadCertificateRequest? && !f.params.resumed
    requires h.held.Some? && !f.certRequest ==> h.held.value.ServerHelloDone?
    ensures var h' := ClientSteps.DoReadCertificateRequest(h);
            HeldUp(h, h', f.params.cert) || TakesTo(s, f, false, h, h', ReadServerHelloDone, Ok, p)
  {
    hide LogAt, Recs, Pos;
    ClientPlaces(f.params.resumed);
    Slot(f, p);
  }

  lemma AtReadServerHelloDone(c: Config, s: Config, f: Facts, h: Hs, p: nat)
    requires Core(c, s, f, false, h, p) && h.state.ReadServerHelloDone? && !f.params.resumed
    ensures var h' := ClientSteps.DoReadServerHelloDone(h);
            HeldUp(h, h', true) || TakesTo(s, f, false, h, h', SendClientCertificate, Ok, p)
  {
    hide LogAt, Recs, Pos;
    ClientPlaces(f.params.resumed);
    Slot(f, p);
  }

  lemma AtSendClientCertificate(c: Config, s: Config, f: Facts, h: Hs, p: nat, a: Answer)
    requires Core(c, s, f, false, h, p) && h.state.SendClientCertificate? && !a.Fail? && !f.params.resumed
    ensures var h' := ClientSteps.DoSendClientCertificate(h, a);
            HeldUp(h, h', false) || SendsTo(s, f, false, h, h', SendClientKeyExchange, Ok, p, p + 1)
  {
    hide LogAt, Recs, Pos;
    ClientPlaces(f.params.resumed);
    Slot(f, p);
    assert h.flight + [] == h.flight;
  }

  lemma AtSendClientKeyExchange(c: Config, s: Config, f: Facts, h: Hs, p: nat)
    requires Core(c, s, f, false, h, p) && h.state.SendClientKeyExchange? && !f.params.resumed
    ensures var h' := ClientSteps.DoSendClientKeyExchange(h);
            SendsTo(s, f, false, h, h', SendClientCertificateVerify, Ok, p, p + 1)
  {
    hide LogAt, Recs, Pos;
    ClientPlaces(f.params.resumed);
    Slot(f, p);
  }

  lemma AtSendClientCertificateVerify(c: Config, s: Config, f: Facts, h: Hs, p: nat, a: Answer)
    requires Core(c, s, f, false, h, p) && h.state.SendClientCertificateVerify? && !a.Fail? && !f.params.resumed
    ensures var h' := ClientSteps.DoSendClientCertificateVerify(h, a);
            HeldUp(h, h', false) || SendsTo(s, f, false, h, h', SendClientFinished, Ok, p, p + 1)
  {
    hide LogAt, Recs, Pos;
    ClientPlaces(f.params.resumed);
    Slot(f, p);
    assert h.flight + [] == h.flight;
  }

  lemma AtSendClientFinished(c: Config, s: Config, f: Facts, h: Hs, p: nat, a: Answer)
    requires Core(c, s, f, false, h, p) && h.state.SendClientFinished? && !a.Fail?
    ensures var h' := ClientSteps.DoSendClientFinished(h, a);
            HeldUp(h, h', false) || SendsTo(s, f, false, h, h', FinishFlight, Flush, p, p + 4)
  {
    hide LogAt, Recs, Pos, KindAt, Only, ClientSteps.WriteClientFinished;
    ClientPlaces2(f.params.resumed);
    LastFlights(f);
    WritesClientFinished(f, h);
  }

  lemma AtFinishFlight(c: Config, s: Config, f: Facts, h: Hs, p: nat)
    requires Core(c, s, f, false, h, p) && h.state.FinishFlight?
    ensures var h' := ClientSteps.DoFinishFlight(h);
            SendsTo(s, f, false, h, h', if f.params.resumed then FinishClientHandshake else ReadSessionTicket,
                    h'.wait, p, p)
            && (h'.wait.Ok? || (h'.wait.EarlyReturn? && !f.params.resumed))
  {
    hide LogAt, Recs, Pos;
    ClientPlaces(f.params.resumed);
    Slot(f, p);
    assert h.flight + [] == h.flight;
  }

  /** The messages at the places where an end reads towards the end of the handshake. */
  lemma LastKinds(f: Facts, state: State, p: nat)
    requires p == Pos(state, Ok, f.params.resumed)
    ensures state.ReadSessionTicket? || state.SendServerFinished? ==> KindAt(f, p) == KNewSessionTicket
    ensures state.ReadServerFinished? ==> KindAt(f, p) == KServerFinished
    ensures state.ReadNextProto? ==> KindAt(f, p) == KNextProto
    ensures state.ReadChannelId? ==> KindAt(f, p) == KChannelId
    ensures state.ReadClientFinished? ==> KindAt(f, p) == KClientFinished
  {
  }

  /** A server's last flight, and a client's. */
  lemma LastFlights(f: Facts)
    ensures Only(f, true, TicketAt(f), TicketAt(f) + 3) && Only(f, false, ClientCcsAt(f), ClientCcsAt(f) + 4)
  {
  }

  /** A Finished message that is due is the right one. */
  lemma FinishedTaken(f: Facts, h: Hs, p: nat, fromServer: bool, next: State)
    requires KindAt(f, p) == if fromServer then KServerFinished else KClientFinished
    requires h.held.Some? && Held(f, p, h.held) && h.log == LogAt(f, p)
    requires LogAt(f, p + 1) == LogNext(f, KindAt(f, p), LogAt(f, p))
    ensures Present(f, KindAt(f, p))
    ensures h.TakeFinished(fromServer, next) == h.(log := LogAt(f, p + 1), held := None).Go(next)
  {
    hide LogAt, KindAt;
  }

  lemma AtReadSessionTicket(c: Config, s: Config, f: Facts, h: Hs, p: nat)
    requires Core(c, s, f, false, h, p) && h.state.ReadSessionTicket?
    ensures var h' := ClientSteps.DoReadSessionTicket(h);
            HeldUp(h, h', Present(f, KindAt(f, p))) || TakesTo(s, f, false, h, h', ProcessServerCcs, ReadCcs, p)
  {
    hide LogAt, Recs, Pos, KindAt;
    LastKinds(f, h.state, p);
    ClientPlaces3(f.params.resumed);
    Slot(f, p);
  }

  lemma AtProcessServerCcs(c: Config, s: Config, f: Facts, h: Hs, p: nat)
    requires Core(c, s, f, false, h, p) && h.state.ProcessServerCcs? && h.held.None?
    ensures var h' := h.ChangeReadKeys(ReadServerFinished);
            SendsTo(s, f, false, h, h', ReadServerFinished, Ok, p, p)
  {
    hide LogAt, Recs, Pos;
    ClientPlaces(f.params.resumed);
    Slot(f, p);
    assert h.flight + [] == h.flight;
  }

  lemma AtReadServerFinished(c: Config, s: Config, f: Facts, h: Hs, p: nat)
    requires Core(c, s, f, false, h, p) && h.state.ReadServerFinished?
    ensures var h' := ClientSteps.DoReadServerFinished(h);
            || HeldUp(h, h', true)
            || TakesTo(s, f, false, h, h', if f.params.resumed then SendClientFinished else FinishClientHandshake,
                       Ok, p)
  {
    hide LogAt, Recs, Pos, KindAt, LogNext, Held;
    LastKinds(f, h.state, p);
    ClientPlaces2(f.params.resumed);
    ClientPlaces3(f.params.resumed);
    if h.held.Some? {
      FinishedTaken(f, h, p, true, if f.params.resumed then SendClientFinished else FinishClientHandshake);
    }
    hide MsgOf;
  }

  lemma AtFinishClientHandshake(c: Config, s: Config, f: Facts, h: Hs, p: nat)
    requires Core(c, s, f, false, h, p) && h.state.FinishClientHandshake?
    ensures var h' := h.Go(Done);
            SendsTo(s, f, false, h, h', Done, Ok, p, p)
  {
    hide LogAt, Recs, Pos;
    ClientPlaces(f.params.resumed);
    Slot(f, p);
    assert h.flight + [] == h.flight;
  }

  lemma AtStartAccept(c: Config, s: Config, f: Facts, h: Hs, p: nat)
    requires Core(c, s, f, true, h, p) && h.state.StartAccept?
    ensures var h' := h.Go(ReadClientHello);
            SendsTo(s, f, true, h, h', ReadClientHello, Ok, p, p)
  {
    hide LogAt, Recs, Pos;
    ServerPlaces(f.params.resumed);
    Slot(f, p);
    assert h.flight + [] == h.flight;
  }

  lemma AtReadClientHello(c: Config, s: Config, f: Facts, h: Hs, p: nat, a: Answer)
    requires Core(c, s, f, true, h, p) && h.state.ReadClientHello? && !a.Fail?
    ensures var h' := ServerSteps.DoReadClientHello(h, a);
            HeldUp(h, h', true) || (h.held.Some? && SendsTo(s, f, true, h, h', SelectCertificate, Ok, p, p))
  {
    hide LogAt, Recs, Pos;
    ServerPlaces(f.params.resumed);
    Slot(f, p);
    assert h.flight + [] == h.flight;
  }

  lemma AtSelectCertificate(c: Config, s: Config, f: Facts, h: Hs, p: nat, a: Answer)
    requires Core(c, s, f, true, h, p) && h.state.SelectCertificate? && !a.Fail? && h.held.Some?
    ensures var h' := ServerSteps.DoSelectCertificate(h, a);
            HeldUp(h, h', false) || SendsTo(s, f, true, h, h', SelectParameters, Ok, p, p)
  {
    hide LogAt, Recs, Pos;
    ServerPlaces(f.params.resumed);
    Slot(f, p);
    assert h.flight + [] == h.flight;
  }

  lemma AtSelectParameters(c: Config, s: Config, f: Facts, h: Hs, p: nat, a: Answer)
    requires Core(c, s, f, true, h, p) && h.state.SelectParameters? && !a.Fail? && h.held.Some? && Settled(c, s, f)
    ensures var h' := ServerSteps.DoSelectParameters(h, a);
            HeldUp(h, h', false) || TakesTo(s, f, true, h, h', SendServerHello, Ok, p)
  {
    hide LogAt, Recs, Pos, ServerSteps.SettleParameters, Settled;
    ServerPlaces(f.params.resumed);
    Slot(f, p);
    SettlesParameters(c, s, f, h);
  }

  lemma AtSendServerHello(c: Config, s: Config, f: Facts, h: Hs, p: nat)
    requires Core(c, s, f, true, h, p) && h.state.SendServerHello? && Settled(c, s, f)
    ensures var h' := ServerSteps.DoSendServerHello(h);
            SendsTo(s, f, true, h, h', if f.params.resumed then SendServerFinished else SendServerCertificate,
                    Ok, p, p + 1)
  {
    hide LogAt, Recs, Pos, ServerSteps.DoSendServerHello, Settled;
    ServerPlaces(f.params.resumed);
    Slot(f, p);
    SettlesHello(c, s, f, h);
  }

  lemma AtSendServerCertificate(c: Config, s: Config, f: Facts, h: Hs, p: nat)
    requires Core(c, s, f, true, h, p) && h.state.SendServerCertificate? && !f.params.resumed && Settled(c, s, f)
    ensures var h' := ServerSteps.DoSendServerCertificate(h);
            SendsTo(s, f, true, h, h', SendServerKeyExchange, Ok, p, p + 2)
  {
    hide LogAt, Recs, Pos;
    ServerPlaces(f.params.resumed);
    Slot(f, p);
    WritesServerCertificate(f, h);
  }

  lemma AtSendServerKeyExchange(c: Config, s: Config, f: Facts, h: Hs, p: nat, a: Answer)
    requires Core(c, s, f, true, h, p) && h.state.SendServerKeyExchange? && !a.Fail? && !f.params.resumed
    ensures var h' := ServerSteps.DoSendServerKeyExchange(h, a);
            HeldUp(h, h', false) || SendsTo(s, f, true, h, h', SendServerHelloDone, Ok, p, p + 1)
  {
    hide LogAt, Recs, Pos;
    ServerPlaces(f.params.resumed);
    Slot(f, p);
    assert h.flight + [] == h.flight;
  }

  lemma AtSendServerHelloDone(c: Config, s: Config, f: Facts, h: Hs, p: nat)
    requires Core(c, s, f, true, h, p) && h.state.SendServerHelloDone? && !f.params.resumed
    ensures var h' := ServerSteps.DoSendServerHelloDone(h);
            SendsTo(s, f, true, h, h', ReadClientCertificate, Flush, p, p + 2)
  {
    hide LogAt, Recs, Pos;
    ServerPlaces(f.params.resumed);
    Slot(f, p);
    WritesServerHelloDone(f, h);
  }

  lemma AtReadClientCertificate(c: Config, s: Config, f: Facts, h: Hs, p: nat)
    requires Core(c, s, f, true, h, p) && h.state.ReadClientCertificate? && !f.params.resumed
    requires s.failIfNoCert == f.certDemanded
    ensures var h' := ServerSteps.DoReadClientCertificate(h);
            HeldUp(h, h', Present(f, KindAt(f, p))) || (h'.wait.Error? && !Compatible(f))
            || (Compatible(f) && TakesTo(s, f, true, h, h', VerifyClientCertificate, Ok, p))
  {
    hide LogAt, Recs, Pos;
    ServerPlaces(f.params.resumed);
    Slot(f, p);
  }

  lemma AtVerifyClientCertificate(c: Config, s: Config, f: Facts, h: Hs, p: nat, a: Answer)
    requires Core(c, s, f, true, h, p) && h.state.VerifyClientCertificate? && !a.Fail? && !f.params.resumed
    ensures var h' := ServerSteps.DoVerifyClientCertificate(h, a);
            HeldUp(h, h', false) || SendsTo(s, f, true, h, h', ReadClientKeyExchange, Ok, p, p)
  {
    hide LogAt, Recs, Pos;
    ServerPlaces(f.params.resumed);
    Slot(f, p);
    assert h.flight + [] == h.flight;
  }

  lemma AtReadClientKeyExchange(c: Config, s: Config, f: Facts, h: Hs, p: nat, a: Answer)
    requires Core(c, s, f, true, h, p) && h.state.ReadClientKeyExchange? && !a.Fail? && !f.params.resumed
    ensures var h' := ServerSteps.DoReadClientKeyExchange(h, a);
            HeldUp(h, h', true) || TakesTo(s, f, true, h, h', ReadClientCertificateVerify, Ok, p)
  {
    hide LogAt, Recs, Pos;
    ServerPlaces(f.params.resumed);
    Slot(f, p);
  }

  lemma AtReadClientCertificateVerify(c: Config, s: Config, f: Facts, h: Hs, p: nat)
    requires Core(c, s, f, true, h, p) && h.state.ReadClientCertificateVerify? && !f.params.resumed
    ensures var h' := ServerSteps.DoReadClientCertificateVerify(h);
            HeldUp(h, h', Present(f, KindAt(f, p))) || TakesTo(s, f, true, h, h', ReadClientCcs, Ok, p)
  {
    hide LogAt, Recs, Pos;
    ServerPlaces(f.params.resumed);
    Slot(f, p);
  }

  lemma AtReadClientCcs(c: Config, s: Config, f: Facts, h: Hs, p: nat)
    requires Core(c, s, f, true, h, p) && h.state.ReadClientCcs?
    ensures var h' := h.(state := ProcessClientCcs).Stop(ReadCcs);
            SendsTo(s, f, true, h, h', ProcessClientCcs, ReadCcs, p, p)
  {
    hide LogAt, Recs, Pos;
    ServerPlaces(f.params.resumed);
    Slot(f, p);
    assert h.flight + [] == h.flight;
  }

  lemma AtProcessClientCcs(c: Config, s: Config, f: Facts, h: Hs, p: nat)
    requires Core(c, s, f, true, h, p) && h.state.ProcessClientCcs? && h.held.None?
    ensures var h' := h.ChangeReadKeys(ReadNextProto);
            SendsTo(s, f, true, h, h', ReadNextProto, Ok, p, p)
  {
    hide LogAt, Recs, Pos;
    ServerPlaces(f.params.resumed);
    Slot(f, p);
    assert h.flight + [] == h.flight;
  }

  lemma AtReadNextProto(c: Config, s: Config, f: Facts, h: Hs, p: nat)
    requires Core(c, s, f, true, h, p) && h.state.ReadNextProto?
    ensures var h' := ServerSteps.DoReadNextProto(h);
            HeldUp(h, h', Present(f, KindAt(f, p))) || TakesTo(s, f, true, h, h', ReadChannelId, Ok, p)
  {
    hide LogAt, Recs, Pos, KindAt;
    LastKinds(f, h.state, p);
    ServerPlaces3(f.params.resumed);
    ServerPlaces4(f.params.resumed);
    Slot(f, p);
  }

  lemma AtReadChannelId(c: Config, s: Config, f: Facts, h: Hs, p: nat)
    requires Core(c, s, f, true, h, p) && h.state.ReadChannelId?
    ensures var h' := ServerSteps.DoReadChannelId(h);
            HeldUp(h, h', Present(f, KindAt(f, p))) || TakesTo(s, f, true, h, h', ReadClientFinished, Ok, p)
  {
    hide LogAt, Recs, Pos, KindAt;
    LastKinds(f, h.state, p);
    ServerPlaces4(f.params.resumed);
    Slot(f, p);
  }

  lemma AtReadClientFinished(c: Config, s: Config, f: Facts, h: Hs, p: nat)
    requires Core(c, s, f, true, h, p) && h.state.ReadClientFinished?
    ensures var h' := ServerSteps.DoReadClientFinished(h);
            || HeldUp(h, h', true)
            || TakesTo(s, f, true, h, h', if f.params.resumed then FinishServerHandshake else SendServerFinished,
                       Ok, p)
  {
    hide LogAt, Recs, Pos, KindAt, LogNext, Held;
    LastKinds(f, h.state, p);
    ServerPlaces4(f.params.resumed);
    if h.held.Some? {
      FinishedTaken(f, h, p, false, if f.params.resumed then FinishServerHandshake else SendServerFinished);
    }
    hide MsgOf;
  }

  lemma AtSendServerFinished(c: Config, s: Config, f: Facts, h: Hs, p: nat)
    requires Core(c, s, f, true, h, p) && h.state.SendServerFinished?
    ensures var h' := ServerSteps.DoSendServerFinished(h);
            SendsTo(s, f, true, h, h', if f.params.resumed then ReadClientCcs else FinishServerHandshake,
                    Flush, p, p + 3)
  {
    hide LogAt, Recs, Pos, KindAt, Only, ServerSteps.DoSendServerFinished;
    ServerPlaces3(f.params.resumed);
    ServerPlaces4(f.params.resumed);
    LastFlights(f);
    WritesServerFinished(f, h);
  }

  lemma AtFinishServerHandshake(c: Config, s: Config, f: Facts, h: Hs, p: nat)
    requires Core(c, s, f, true, h, p) && h.state.FinishServerHandshake?
    ensures var h' := h.Go(Done);
            SendsTo(s, f, true, h, h', Done, Ok, p, p)
  {
    hide LogAt, Recs, Pos;
    ServerPlaces(f.params.resumed);
    Slot(f, p);
    assert h.flight + [] == h.flight;
  }

  // Every step keeps Local and moves along the script.

  lemma Unpack(c: Config, s: Config, server: bool, h: Hs)
    requires CanDo(c, s, server, h)
    ensures var f := Agree(c, s);
            Core(c, s, f, server, h, Place(f, h)) && s.failIfNoCert == f.certDemanded && Settled(c, s, f)
    ensures Visits(Number(h.state), server, Agree(c, s).params.resumed)
    ensures Number(h.state) == 20 || Number(h.state) == 21 ==> h.held.Some?
    ensures Number(h.state) == 15 || Number(h.state) == 31 ==> h.held.None?
    ensures server && Place(Agree(c, s), h) > 7 && !Agree(c, s).params.resumed ==> Compatible(Agree(c, s))
  {
    hide LogAt, Recs, Pos, Number;
    var f := Agree(c, s);
    Slot(f, Place(f, h));
    if Place(f, h) <= 16 {
      HeldFirst(f, Place(f, h), h.held);
    }
  }

  lemma StopsOk(c: Config, s: Config, server: bool, h: Hs, h': Hs, asks: bool)
    requires CanDo(c, s, server, h) && HeldUp(h, h', asks)
    requires asks ==> Expects(Agree(c, s), h) && !MidFlight(Number(h.state))
    requires Number(h.state) != 37
    ensures StepOk(c, s, server, h, h')
  {
    hide LogAt, Recs, Agree, Number, KnownAt, KeysAt, IsNext;
    var f := Agree(c, s);
    Slot(f, Place(f, h));
    assert h.flight + [] == h.flight;
  }

  lemma TakesMoves(c: Config, s: Config, server: bool, h: Hs, h': Hs, next: State, w: Wait)
    requires CanDo(c, s, server, h)
    requires var f := Agree(c, s);
             && TakesTo(s, f, server, h, h', next, w, Place(f, h))
             && Number(next) == Succ(Number(h.state), f.params.resumed)
    ensures Moves(Agree(c, s), server, h, h') && Goes(Agree(c, s), h, h')
  {
    hide LogAt, Recs, Agree, Number, KnownAt, KeysAt, IsNext, Only, WaitOk, Pos;
    var f := Agree(c, s);
    Slot(f, Place(f, h));
    assert h.flight + [] == h.flight;
  }

  lemma TakesLocal(c: Config, s: Config, server: bool, h: Hs, h': Hs, next: State, w: Wait)
    requires CanDo(c, s, server, h)
    requires var f := Agree(c, s);
             && TakesTo(s, f, server, h, h', next, w, Place(f, h))
             && Number(next) == Succ(Number(h.state), f.params.resumed)
             && Takes(Number(h.state)) && w == WaitOf(Number(h.state))
             && (w.ReadCcs? ==> h'.held.None?)
             && (Number(h.state) == 26 ==> Compatible(f))
    ensures Local(c, s, server, h')
  {
    hide LogAt, Recs, Agree, Number, KnownAt, KeysAt, IsNext, Only, Present, KindAt;
  }

  lemma TakesOk(c: Config, s: Config, server: bool, h: Hs, h': Hs, next: State, w: Wait)
    requires CanDo(c, s, server, h)
    requires var f := Agree(c, s);
             && TakesTo(s, f, server, h, h', next, w, Place(f, h))
             && Number(next) == Succ(Number(h.state), f.params.resumed)
             && Takes(Number(h.state)) && w == WaitOf(Number(h.state))
             && (w.ReadCcs? ==> h'.held.None?)
             && (Number(h.state) == 26 ==> Compatible(f))
    ensures StepOk(c, s, server, h, h')
  {
    hide LogAt, Recs, Agree, Number, KnownAt, KeysAt, IsNext, Only;
    TakesMoves(c, s, server, h, h', next, w);
    TakesLocal(c, s, server, h, h', next, w);
    hide Local, TakesTo, Pos, Succ, Takes, WaitOf, Compatible;
  }

  lemma SendsOk(c: Config, s: Config, server: bool, h: Hs, h': Hs, next: State, w: Wait, q: nat)
    requires CanDo(c, s, server, h)
    requires var f, n, m := Agree(c, s), Number(h.state), Number(next);
             && SendsTo(s, f, server, h, h', next, w, Place(f, h), q)
             && m == Succ(n, f.params.resumed) && !Takes(n)
             && (w == WaitOf(n) || (w.EarlyReturn? && m == 14))
             && Place(f, h) <= q && (q > 7 ==> Place(f, h) > 7 || !server || f.params.resumed)
             && (MidFlight(n) ==> MidFlight(m) || w.Flush?)
             && (q > Place(f, h) ==> MidFlight(m) || w.Flush?)
             && (m == 20 || m == 21 ==> h.held.Some?) && (m == 15 || m == 31 ==> h.held.None?)
    ensures StepOk(c, s, server, h, h')
  {
    hide LogAt, Recs, Agree, Number, Pos, KnownAt, KeysAt, IsNext, Only;
    var f := Agree(c, s);
    Slot(f, Place(f, h));
    assert h.flight + [] == h.flight;
  }

  /** An end that comes to a ChangeCipherSpec of the other holds nothing. */
  lemma HoldsNothing(c: Config, s: Config, server: bool, h: Hs, p: nat)
    requires CanDo(c, s, server, h) && p <= 15 && IsCcs(KindAt(Agree(c, s), p))
    requires Present(Agree(c, s), KindAt(Agree(c, s), p))
    requires p == Place(Agree(c, s), h)
             || (p == Place(Agree(c, s), h) + 1 && !Present(Agree(c, s), KindAt(Agree(c, s), p - 1)))
    ensures h.held.None?
  {
    hide LogAt, Recs, Agree, Pos, Number, KindAt, Present, MsgOf;
    HeldFirst(Agree(c, s), Place(Agree(c, s), h), h.held);
    HeldFirst(Agree(c, s), p, h.held);
  }

  lemma TicketNext(c: Config, s: Config, h: Hs)
    requires CanDo(c, s, false, h) && h.state.ReadSessionTicket? && !Agree(c, s).params.ticket
    ensures h.held.None?
  {
    hide LogAt, Recs, Agree;
    HoldsNothing(c, s, false, h, Place(Agree(c, s), h) + 1);
  }

  lemma CcsNext(c: Config, s: Config, h: Hs)
    requires CanDo(c, s, true, h) && h.state.ReadClientCcs?
    ensures h.held.None?
  {
    hide LogAt, Recs, Agree;
    HoldsNothing(c, s, true, h, Place(Agree(c, s), h));
  }

  /** A client that holds a message before a place without one holds that of the next. */
  lemma HoldsLater(c: Config, s: Config, h: Hs)
    requires CanDo(c, s, false, h) && !Agree(c, s).params.resumed
    ensures var f := Agree(c, s);
            && (Place(f, h) == 4 && h.held.Some? && !f.keyExchangeSent ==> !h.held.value.ServerKeyExchange?)
            && (Place(f, h) == 5 && h.held.Some? && !f.certRequest ==> h.held.value.ServerHelloDone?)
  {
    hide LogAt, Recs, Pos, Number, Agree, Local;
    var f := Agree(c, s);
    if h.held.Some? {
      if Place(f, h) == 4 && !f.keyExchangeSent {
        HoldsAfter4(f, h.held);
      } else if Place(f, h) == 5 && !f.certRequest {
        HoldsAfter5(f, h.held);
      }
    }
  }

  lemma HoldsAfter5(f: Facts, held: Option<Msg>)
    requires !f.params.resumed && held.Some? && IsNext(f, 5, held.value) && !f.certRequest
    ensures held.value.ServerHelloDone?
  {
    hide LogAt, Recs;
    HeldFirst(f, 5, held);
    HeldFirst(f, 6, held);
  }

  lemma HoldsAfter4(f: Facts, held: Option<Msg>)
    requires !f.params.resumed && held.Some? && IsNext(f, 4, held.value) && !f.keyExchangeSent
    ensures !held.value.ServerKeyExchange?
  {
    hide LogAt, Recs;
    HeldFirst(f, 4, held);
    HeldFirst(f, 5, held);
    if !f.certRequest {
      HoldsAfter5(f, held);
    }
  }

  /** The numbers of the states, for proofs that need no more of Number. */
  lemma ClientNumbers()
    ensures Number(StartConnect) == 0 && Number(EnterEarlyData) == 1
    ensures Number(ReadServerHello) == 2 && Number(ReadServerCertificate) == 3
    ensures Number(ReadCertificateStatus) == 4 && Number(VerifyServerCertificate) == 5
    ensures Number(ReadServerKeyExchange) == 6 && Number(ReadCertificateRequest) == 7
    ensures Number(ReadServerHelloDone) == 8 && Number(SendClientCertificate) == 9
    ensures Number(SendClientKeyExchange) == 10 && Number(SendClientCertificateVerify) == 11
    ensures Number(SendClientFinished) == 12 && Number(FinishFlight) == 13
    ensures Number(ReadSessionTicket) == 14 && Number(ProcessServerCcs) == 15
    ensures Number(ReadServerFinished) == 16 && Number(FinishClientHandshake) == 17
    ensures Number(Done) == 37
  {
  }

  lemma ServerNumbers1()
    ensures Number(StartAccept) == 18 && Number(ReadClientHello) == 19
    ensures Number(SelectCertificate) == 20 && Number(SelectParameters) == 21
    ensures Number(SendServerHello) == 22 && Number(SendServerCertificate) == 23
    ensures Number(SendServerKeyExchange) == 24 && Number(SendServerHelloDone) == 25
  {
  }

  lemma ServerNumbers2()
    ensures Number(ReadClientCertificate) == 26 && Number(VerifyClientCertificate) == 27
    ensures Number(ReadClientKeyExchange) == 28 && Number(ReadClientCertificateVerify) == 29
    ensures Number(ReadClientCcs) == 30 && Number(ProcessClientCcs) == 31
    ensures Number(ReadNextProto) == 32 && Number(ReadChannelId) == 33
  {
  }

  lemma ServerNumbers3()
    ensures Number(ReadClientFinished) == 34 && Number(SendServerFinished) == 35
    ensures Number(FinishServerHandshake) == 36 && Number(Done) == 37
  {
  }

  lemma ServerNumbers()
    ensures Number(StartAccept) == 18 && Number(ReadClientHello) == 19
    ensures Number(SelectCertificate) == 20 && Number(SelectParameters) == 21
    ensures Number(SendServerHello) == 22 && Number(SendServerCertificate) == 23
    ensures Number(SendServerKeyExchange) == 24 && Number(SendServerHelloDone) == 25
    ensures Number(ReadClientCertificate) == 26 && Number(VerifyClientCertificate) == 27
    ensures Number(ReadClientKeyExchange) == 28 && Number(ReadClientCertificateVerify) == 29
    ensures Number(ReadClientCcs) == 30 && Number(ProcessClientCcs) == 31
    ensures Number(ReadNextProto) == 32 && Number(ReadChannelId) == 33
    ensures Number(ReadClientFinished) == 34 && Number(SendServerFinished) == 35
    ensures Number(FinishServerHandshake) == 36 && Number(Done) == 37
  {
    hide Number;
    ServerNumbers1();
    ServerNumbers2();
    ServerNumbers3();
  }

  lemma ClientDo1(c: Config, s: Config, h: Hs, a: Answer)
    requires CanDo(c, s, false, h) && !a.Fail?
    ensures h.state.StartConnect? ==> StepOk(c, s, false, h, ClientSteps.DoStartConnect(h))
  {
    var f, p := Agree(c, s), Place(Agree(c, s), h);
    Unpack(c, s, false, h);
    hide CanDo, StepOk, LogAt, Recs, Pos, Number, Agree, KnownAt, KeysAt, HeldUp, TakesTo, SendsTo, Arrives, Only, Core,
         KindAt, Present, About, Settled;
    hide ClientSteps.DoStartConnect;
    ClientNumbers();
    match h.state {
      case StartConnect =>
        var h' := ClientSteps.DoStartConnect(h);
        AtStartConnect(c, s, f, h, p);
        SendsOk(c, s, false, h, h', EnterEarlyData, Flush, p + 1);
      case _ =>
    }
  }

  lemma ClientDo2(c: Config, s: Config, h: Hs, a: Answer)
    requires CanDo(c, s, false, h) && !a.Fail?
    ensures h.state.EnterEarlyData? ==> StepOk(c, s, false, h, h.Go(ReadServerHello))
    ensures h.state.ReadServerHello? ==> StepOk(c, s, false, h, ClientSteps.DoReadServerHello(h))
  {
    var f, p := Agree(c, s), Place(Agree(c, s), h);
    Unpack(c, s, false, h);
    hide CanDo, StepOk, LogAt, Recs, Pos, Number, Agree, KnownAt, KeysAt, HeldUp, TakesTo, SendsTo, Arrives, Only, Core,
         KindAt, Present, About, Settled;
    hide ClientSteps.DoReadServerHello;
    ClientNumbers();
    match h.state {
      case EnterEarlyData =>
        var h' := h.Go(ReadServerHello);
        AtEnterEarlyData(c, s, f, h, p);
        SendsOk(c, s, false, h, h', ReadServerHello, Ok, p);
      case ReadServerHello =>
        var h' := ClientSteps.DoReadServerHello(h);
        AtReadServerHello(c, s, f, h, p);
        if HeldUp(h, h', true) {
          StopsOk(c, s, false, h, h', true);
        } else {
          TakesOk(c, s, false, h, h', if f.params.resumed then ReadSessionTicket else ReadServerCertificate, Ok);
        }
      case _ =>
    }
  }

  lemma ClientDo3(c: Config, s: Config, h: Hs, a: Answer)
    requires CanDo(c, s, false, h) && !a.Fail?
    ensures h.state.ReadServerCertificate? ==> StepOk(c, s, false, h, ClientSteps.DoReadServerCertificate(h))
    ensures h.state.ReadCertificateStatus? ==> StepOk(c, s, false, h, ClientSteps.DoReadCertificateStatus(h))
  {
    var f, p := Agree(c, s), Place(Agree(c, s), h);
    Unpack(c, s, false, h);
    hide CanDo, StepOk, LogAt, Recs, Pos, Number, Agree, KnownAt, KeysAt, HeldUp, TakesTo, SendsTo, Arrives, Only, Core,
         KindAt, Present, About, Settled;
    hide ClientSteps.DoReadServerCertificate, ClientSteps.DoReadCertificateStatus;
    ClientNumbers();
    match h.state {
      case ReadServerCertificate =>
        var h' := ClientSteps.DoReadServerCertificate(h);
        AtReadServerCertificate(c, s, f, h, p);
        if HeldUp(h, h', Present(f, KindAt(f, p))) {
          StopsOk(c, s, false, h, h', Present(f, KindAt(f, p)));
        } else {
          TakesOk(c, s, false, h, h', ReadCertificateStatus, Ok);
        }
      case ReadCertificateStatus =>
        var h' := ClientSteps.DoReadCertificateStatus(h);
        AtReadCertificateStatus(c, s, f, h, p);
        if HeldUp(h, h', Present(f, KindAt(f, p))) {
          StopsOk(c, s, false, h, h', Present(f, KindAt(f, p)));
        } else {
          TakesOk(c, s, false, h, h', VerifyServerCertificate, Ok);
        }
      case _ =>
    }
  }

  lemma ClientDo4(c: Config, s: Config, h: Hs, a: Answer)
    requires CanDo(c, s, false, h) && !a.Fail?
    ensures h.state.VerifyServerCertificate? ==> StepOk(c, s, false, h, ClientSteps.DoVerifyServerCertificate(h, a))
    ensures h.state.ReadServerKeyExchange? ==> StepOk(c, s, false, h, ClientSteps.DoReadServerKeyExchange(h))
  {
    var f, p := Agree(c, s), Place(Agree(c, s), h);
    Unpack(c, s, false, h);
    hide CanDo, StepOk, LogAt, Recs, Pos, Number, Agree, KnownAt, KeysAt, HeldUp, TakesTo, SendsTo, Arrives, Only, Core,
         KindAt, Present, About, Settled;
    hide ClientSteps.DoVerifyServerCertificate, ClientSteps.DoReadServerKeyExchange;
    ClientNumbers();
    match h.state {
      case VerifyServerCertificate =>
        var h' := ClientSteps.DoVerifyServerCertificate(h, a);
        AtVerifyServerCertificate(c, s, f, h, p, a);
        if HeldUp(h, h', false) {
          StopsOk(c, s, false, h, h', false);
        } else {
          SendsOk(c, s, false, h, h', ReadServerKeyExchange, Ok, p);
        }
      case ReadServerKeyExchange =>
        var h' := ClientSteps.DoReadServerKeyExchange(h);
        HoldsLater(c, s, h);
        AtReadServerKeyExchange(c, s, f, h, p);
        if HeldUp(h, h', true) {
          StopsOk(c, s, false, h, h', true);
        } else {
          TakesOk(c, s, false, h, h', ReadCertificateRequest, Ok);
        }
      case _ =>
    }
  }

  lemma ClientDo5(c: Config, s: Config, h: Hs, a: Answer)
    requires CanDo(c, s, false, h) && !a.Fail?
    ensures h.state.ReadCertificateRequest? ==> StepOk(c, s, false, h, ClientSteps.DoReadCertificateRequest(h))
    ensures h.state.ReadServerHelloDone? ==> StepOk(c, s, false, h, ClientSteps.DoReadServerHelloDone(h))
  {
    var f, p := Agree(c, s), Place(Agree(c, s), h);
    Unpack(c, s, false, h);
    hide CanDo, StepOk, LogAt, Recs, Pos, Number, Agree, KnownAt, KeysAt, HeldUp, TakesTo, SendsTo, Arrives, Only, Core,
         KindAt, Present, About, Settled;
    hide ClientSteps.DoReadCertificateRequest, ClientSteps.DoReadServerHelloDone;
    ClientNumbers();
    match h.state {
      case ReadCertificateRequest =>
        var h' := ClientSteps.DoReadCertificateRequest(h);
        HoldsLater(c, s, h);
        AtReadCertificateRequest(c, s, f, h, p);
        if HeldUp(h, h', f.params.cert) {
          StopsOk(c, s, false, h, h', f.params.cert);
        } else {
          TakesOk(c, s, false, h, h', ReadServerHelloDone, Ok);
        }
      case ReadServerHelloDone =>
        var h' := ClientSteps.DoReadServerHelloDone(h);
        AtReadServerHelloDone(c, s, f, h, p);
        if HeldUp(h, h', true) {
          StopsOk(c, s, false, h, h', true);
        } else {
          TakesOk(c, s, false, h, h', SendClientCertificate, Ok);
        }
      case _ =>
    }
  }

  lemma ClientDo6(c: Config, s: Config, h: Hs, a: Answer)
    requires CanDo(c, s, false, h) && !a.Fail?
    ensures h.state.SendClientCertificate? ==> StepOk(c, s, false, h, ClientSteps.DoSendClientCertificate(h, a))
  {
    var f, p := Agree(c, s), Place(Agree(c, s), h);
    Unpack(c, s, false, h);
    hide CanDo, StepOk, LogAt, Recs, Pos, Number, Agree, KnownAt, KeysAt, HeldUp, TakesTo, SendsTo, Arrives, Only, Core,
         KindAt, Present, About, Settled;
    hide ClientSteps.DoSendClientCertificate;
    ClientNumbers();
    match h.state {
      case SendClientCertificate =>
        var h' := ClientSteps.DoSendClientCertificate(h, a);
        AtSendClientCertificate(c, s, f, h, p, a);
        if HeldUp(h, h', false) {
          StopsOk(c, s, false, h, h', false);
        } else {
          SendsOk(c, s, false, h, h', SendClientKeyExchange, Ok, p + 1);
        }
      case _ =>
    }
  }

  lemma ClientDo7(c: Config, s: Config, h: Hs, a: Answer)
    requires CanDo(c, s, false, h) && !a.Fail?
    ensures h.state.SendClientKeyExchange? ==> StepOk(c, s, false, h, ClientSteps.DoSendClientKeyExchange(h))
  {
    var f, p := Agree(c, s), Place(Agree(c, s), h);
    Unpack(c, s, false, h);
    hide CanDo, StepOk, LogAt, Recs, Pos, Number, Agree, KnownAt, KeysAt, HeldUp, TakesTo, SendsTo, Arrives, Only, Core,
         KindAt, Present, About, Settled;
    hide ClientSteps.DoSendClientKeyExchange;
    ClientNumbers();
    match h.state {
      case SendClientKeyExchange =>
        var h' := ClientSteps.DoSendClientKeyExchange(h);
        AtSendClientKeyExchange(c, s, f, h, p);
        SendsOk(c, s, false, h, h', SendClientCertificateVerify, Ok, p + 1);
      case _ =>
    }
  }

  lemma ClientDo8(c: Config, s: Config, h: Hs, a: Answer)
    requires CanDo(c, s, false, h) && !a.Fail?
    ensures h.state.SendClientCertificateVerify? ==>
              StepOk(c, s, false, h, ClientSteps.DoSendClientCertificateVerify(h, a))
  {
    var f, p := Agree(c, s), Place(Agree(c, s), h);
    Unpack(c, s, false, h);
    hide CanDo, StepOk, LogAt, Recs, Pos, Number, Agree, KnownAt, KeysAt, HeldUp, TakesTo, SendsTo, Arrives, Only, Core,
         KindAt, Present, About, Settled;
    hide ClientSteps.DoSendClientCertificateVerify;
    ClientNumbers();
    match h.state {
      case SendClientCertificateVerify =>
        var h' := ClientSteps.DoSendClientCertificateVerify(h, a);
        AtSendClientCertificateVerify(c, s, f, h, p, a);
        if HeldUp(h, h', false) {
          StopsOk(c, s, false, h, h', false);
        } else {
          SendsOk(c, s, false, h, h', SendClientFinished, Ok, p + 1);
        }
      case _ =>
    }
  }

  lemma ClientDo9(c: Config, s: Config, h: Hs, a: Answer)
    requires CanDo(c, s, false, h) && !a.Fail?
    ensures h.state.SendClientFinished? ==> StepOk(c, s, false, h, ClientSteps.DoSendClientFinished(h, a))
  {
    var f, p := Agree(c, s), Place(Agree(c, s), h);
    Unpack(c, s, false, h);
    hide CanDo, StepOk, LogAt, Recs, Pos, Number, Agree, KnownAt, KeysAt, HeldUp, TakesTo, SendsTo, Arrives, Only, Core,
         KindAt, Present, About, Settled;
    hide ClientSteps.DoSendClientFinished;
    ClientNumbers();
    match h.state {
      case SendClientFinished =>
        var h' := ClientSteps.DoSendClientFinished(h, a);
        AtSendClientFinished(c, s, f, h, p, a);
        if HeldUp(h, h', false) {
          StopsOk(c, s, false, h, h', false);
        } else {
          SendsOk(c, s, false, h, h', FinishFlight, Flush, p + 4);
        }
      case _ =>
    }
  }

  lemma ClientDo10(c: Config, s: Config, h: Hs, a: Answer)
    requires CanDo(c, s, false, h) && !a.Fail?
    ensures h.state.FinishFlight? ==> StepOk(c, s, false, h, ClientSteps.DoFinishFlight(h))
    ensures h.state.ReadSessionTicket? ==> StepOk(c, s, false, h, ClientSteps.DoReadSessionTicket(h))
  {
    var f, p := Agree(c, s), Place(Agree(c, s), h);
    Unpack(c, s, false, h);
    hide CanDo, StepOk, LogAt, Recs, Pos, Number, Agree, KnownAt, KeysAt, HeldUp, TakesTo, SendsTo, Arrives, Only, Core,
         KindAt, Present, About, Settled;
    hide ClientSteps.DoFinishFlight, ClientSteps.DoReadSessionTicket;
    ClientNumbers();
    match h.state {
      case FinishFlight =>
        var h' := ClientSteps.DoFinishFlight(h);
        AtFinishFlight(c, s, f, h, p);
        SendsOk(c, s, false, h, h', if f.params.resumed then FinishClientHandshake else ReadSessionTicket, h'.wait, p);
      case ReadSessionTicket =>
        var h' := ClientSteps.DoReadSessionTicket(h);
        if !f.params.ticket {
          TicketNext(c, s, h);
        }
        AtReadSessionTicket(c, s, f, h, p);
        if HeldUp(h, h', Present(f, KindAt(f, p))) {
          StopsOk(c, s, false, h, h', Present(f, KindAt(f, p)));
        } else {
          TakesOk(c, s, false, h, h', ProcessServerCcs, ReadCcs);
        }
      case _ =>
    }
  }

  lemma ClientDo11(c: Config, s: Config, h: Hs, a: Answer)
    requires CanDo(c, s, false, h) && !a.Fail?
    ensures h.state.ProcessServerCcs? ==> StepOk(c, s, false, h, h.ChangeReadKeys(ReadServerFinished))
    ensures h.state.ReadServerFinished? ==> StepOk(c, s, false, h, ClientSteps.DoReadServerFinished(h))
    ensures h.state.FinishClientHandshake? ==> StepOk(c, s, false, h, h.Go(Done))
  {
    var f, p := Agree(c, s), Place(Agree(c, s), h);
    Unpack(c, s, false, h);
    hide CanDo, StepOk, LogAt, Recs, Pos, Number, Agree, KnownAt, KeysAt, HeldUp, TakesTo, SendsTo, Arrives, Only, Core,
         KindAt, Present, About, Settled;
    hide ClientSteps.DoReadServerFinished;
    ClientNumbers();
    match h.state {
      case ProcessServerCcs =>
        var h' := h.ChangeReadKeys(ReadServerFinished);
        AtProcessServerCcs(c, s, f, h, p);
        SendsOk(c, s, false, h, h', ReadServerFinished, Ok, p);
      case ReadServerFinished =>
        var h' := ClientSteps.DoReadServerFinished(h);
        AtReadServerFinished(c, s, f, h, p);
        if HeldUp(h, h', true) {
          StopsOk(c, s, false, h, h', true);
        } else {
          TakesOk(c, s, false, h, h', if f.params.resumed then SendClientFinished else FinishClientHandshake, Ok);
        }
      case FinishClientHandshake =>
        var h' := h.Go(Done);
        AtFinishClientHandshake(c, s, f, h, p);
        SendsOk(c, s, false, h, h', Done, Ok, p);
      case _ =>
    }
  }

  lemma ServerDo1(c: Config, s: Config, h: Hs, a: Answer)
    requires CanDo(c, s, true, h) && !a.Fail?
    ensures h.state.StartAccept? ==> StepOk(c, s, true, h, h.Go(ReadClientHello))
    ensures h.state.ReadClientHello? ==> StepOk(c, s, true, h, ServerSteps.DoReadClientHello(h, a))
    ensures h.state.SelectCertificate? ==> StepOk(c, s, true, h, ServerSteps.DoSelectCertificate(h, a))
  {
    var f, p := Agree(c, s), Place(Agree(c, s), h);
    Unpack(c, s, true, h);
    hide CanDo, StepOk, LogAt, Recs, Pos, Number, Agree, KnownAt, KeysAt, HeldUp, TakesTo, SendsTo, Arrives, Only, Core,
         KindAt, Present, About, Settled;
    hide ServerSteps.DoReadClientHello, ServerSteps.DoSelectCertificate;
    ServerNumbers();
    match h.state {
      case StartAccept =>
        var h' := h.Go(ReadClientHello);
        AtStartAccept(c, s, f, h, p);
        SendsOk(c, s, true, h, h', ReadClientHello, Ok, p);
      case ReadClientHello =>
        var h' := ServerSteps.DoReadClientHello(h, a);
        AtReadClientHello(c, s, f, h, p, a);
        if HeldUp(h, h', true) {
          StopsOk(c, s, true, h, h', true);
        } else {
          SendsOk(c, s, true, h, h', SelectCertificate, Ok, p);
        }
      case SelectCertificate =>
        var h' := ServerSteps.DoSelectCertificate(h, a);
        AtSelectCertificate(c, s, f, h, p, a);
        if HeldUp(h, h', false) {
          StopsOk(c, s, true, h, h', false);
        } else {
          SendsOk(c, s, true, h, h', SelectParameters, Ok, p);
        }
      case _ =>
    }
  }

  lemma ServerDo2(c: Config, s: Config, h: Hs, a: Answer)
    requires CanDo(c, s, true, h) && !a.Fail? && h.state.SelectParameters?
    ensures StepOk(c, s, true, h, ServerSteps.DoSelectParameters(h, a))
  {
    var f, p := Agree(c, s), Place(Agree(c, s), h);
    Unpack(c, s, true, h);
    hide CanDo, StepOk, LogAt, Recs, Pos, Number, Agree, KnownAt, KeysAt, HeldUp, TakesTo, SendsTo, Arrives, Only, Core,
         KindAt, Present, About, Settled;
    hide ServerSteps.DoSelectParameters;
    ServerNumbers1();
    var h' := ServerSteps.DoSelectParameters(h, a);
    AtSelectParameters(c, s, f, h, p, a);
    if HeldUp(h, h', false) {
      StopsOk(c, s, true, h, h', false);
    } else {
      TakesOk(c, s, true, h, h', SendServerHello, Ok);
    }
  }

  lemma ServerDo10(c: Config, s: Config, h: Hs)
    requires CanDo(c, s, true, h) && h.state.SendServerHello?
    ensures StepOk(c, s, true, h, ServerSteps.DoSendServerHello(h))
  {
    hide LogAt, Recs, Pos, Number, Agree, KnownAt, KeysAt, Only, KindAt, Present, About, Settled;
    var f := Agree(c, s);
    assert h.wait.Ok? && h.cfg == s;
    Unpack(c, s, true, h);
    hide CanDo, StepOk, HeldUp, TakesTo, SendsTo, Arrives, Core, ServerSteps.DoSendServerHello;
    ServerNumbers1();
    ServerNumbers3();
    ServerPlaces1(f.params.resumed);
    var h' := ServerSteps.DoSendServerHello(h);
    AtSendServerHello(c, s, f, h, 1);
    if f.params.resumed {
      SendsOk(c, s, true, h, h', SendServerFinished, Ok, 2);
    } else {
      SendsOk(c, s, true, h, h', SendServerCertificate, Ok, 2);
    }
  }

  lemma ServerDo3(c: Config, s: Config, h: Hs, a: Answer)
    requires CanDo(c, s, true, h) && !a.Fail?
    ensures h.state.SendServerCertificate? ==> StepOk(c, s, true, h, ServerSteps.DoSendServerCertificate(h))
  {
    var f, p := Agree(c, s), Place(Agree(c, s), h);
    Unpack(c, s, true, h);
    hide CanDo, StepOk, LogAt, Recs, Pos, Number, Agree, KnownAt, KeysAt, HeldUp, TakesTo, SendsTo, Arrives, Only, Core,
         KindAt, Present, About, Settled;
    hide ServerSteps.DoSendServerCertificate;
    ServerNumbers();
    match h.state {
      case SendServerCertificate =>
        var h' := ServerSteps.DoSendServerCertificate(h);
        AtSendServerCertificate(c, s, f, h, p);
        SendsOk(c, s, true, h, h', SendServerKeyExchange, Ok, p + 2);
      case _ =>
    }
  }

  lemma ServerDo4(c: Config, s: Config, h: Hs, a: Answer)
    requires CanDo(c, s, true, h) && !a.Fail?
    ensures h.state.SendServerKeyExchange? ==> StepOk(c, s, true, h, ServerSteps.DoSendServerKeyExchange(h, a))
  {
    var f, p := Agree(c, s), Place(Agree(c, s), h);
    Unpack(c, s, true, h);
    hide CanDo, StepOk, LogAt, Recs, Pos, Number, Agree, KnownAt, KeysAt, HeldUp, TakesTo, SendsTo, Arrives, Only, Core,
         KindAt, Present, About, Settled;
    hide ServerSteps.DoSendServerKeyExchange;
    ServerNumbers();
    if h.state.SendServerKeyExchange? {
      var h' := ServerSteps.DoSendServerKeyExchange(h, a);
      AtSendServerKeyExchange(c, s, f, h, p, a);
      if HeldUp(h, h', false) {
        StopsOk(c, s, true, h, h', false);
      } else {
        SendsOk(c, s, true, h, h', SendServerHelloDone, Ok, p + 1);
      }
    }
  }

  lemma ServerDo9(c: Config, s: Config, h: Hs)
    requires CanDo(c, s, true, h)
    ensures h.state.SendServerHelloDone? ==> StepOk(c, s, true, h, ServerSteps.DoSendServerHelloDone(h))
  {
    var f, p := Agree(c, s), Place(Agree(c, s), h);
    Unpack(c, s, true, h);
    hide CanDo, StepOk, LogAt, Recs, Pos, Number, Agree, KnownAt, KeysAt, HeldUp, TakesTo, SendsTo, Arrives, Only, Core,
         KindAt, Present, About, Settled;
    hide ServerSteps.DoSendServerHelloDone;
    ServerNumbers();
    if h.state.SendServerHelloDone? {
      var h' := ServerSteps.DoSendServerHelloDone(h);
      AtSendServerHelloDone(c, s, f, h, p);
      SendsOk(c, s, true, h, h', ReadClientCertificate, Flush, p + 2);
    }
  }

  lemma ServerDo5(c: Config, s: Config, h: Hs, a: Answer)
    requires CanDo(c, s, true, h) && !a.Fail?
    ensures h.state.ReadClientCertificate? ==>
              var h' := ServerSteps.DoReadClientCertificate(h);
              StepOk(c, s, true, h, h') || (h'.wait.Error? && !Compatible(Agree(c, s)))
    ensures h.state.VerifyClientCertificate? ==> StepOk(c, s, true, h, ServerSteps.DoVerifyClientCertificate(h, a))
  {
    var f, p := Agree(c, s), Place(Agree(c, s), h);
    Unpack(c, s, true, h);
    hide CanDo, StepOk, LogAt, Recs, Pos, Number, Agree, KnownAt, KeysAt, HeldUp, TakesTo, SendsTo, Arrives, Only, Core,
         KindAt, Present, About, Settled;
    hide ServerSteps.DoReadClientCertificate, ServerSteps.DoVerifyClientCertificate;
    ServerNumbers();
    match h.state {
      case ReadClientCertificate =>
        var h' := ServerSteps.DoReadClientCertificate(h);
        AtReadClientCertificate(c, s, f, h, p);
        if HeldUp(h, h', Present(f, KindAt(f, p))) {
          StopsOk(c, s, true, h, h', Present(f, KindAt(f, p)));
        } else if Compatible(f) {
          TakesOk(c, s, true, h, h', VerifyClientCertificate, Ok);
        }
      case VerifyClientCertificate =>
        var h' := ServerSteps.DoVerifyClientCertificate(h, a);
        AtVerifyClientCertificate(c, s, f, h, p, a);
        if HeldUp(h, h', false) {
          StopsOk(c, s, true, h, h', false);
        } else {
          SendsOk(c, s, true, h, h', ReadClientKeyExchange, Ok, p);
        }
      case _ =>
    }
  }

  lemma ServerDo6(c: Config, s: Config, h: Hs, a: Answer)
    requires CanDo(c, s, true, h) && !a.Fail?
    ensures h.state.ReadClientKeyExchange? ==> StepOk(c, s, true, h, ServerSteps.DoReadClientKeyExchange(h, a))
    ensures h.state.ReadClientCertificateVerify? ==> StepOk(c, s, true, h, ServerSteps.DoReadClientCertificateVerify(h))
  {
    var f, p := Agree(c, s), Place(Agree(c, s), h);
    Unpack(c, s, true, h);
    hide CanDo, StepOk, LogAt, Recs, Pos, Number, Agree, KnownAt, KeysAt, HeldUp, TakesTo, SendsTo, Arrives, Only, Core,
         KindAt, Present, About, Settled;
    hide ServerSteps.DoReadClientKeyExchange, ServerSteps.DoReadClientCertificateVerify;
    ServerNumbers();
    match h.state {
      case ReadClientKeyExchange =>
        var h' := ServerSteps.DoReadClientKeyExchange(h, a);
        AtReadClientKeyExchange(c, s, f, h, p, a);
        if HeldUp(h, h', true) {
          StopsOk(c, s, true, h, h', true);
        } else {
          TakesOk(c, s, true, h, h', ReadClientCertificateVerify, Ok);
        }
      case ReadClientCertificateVerify =>
        var h' := ServerSteps.DoReadClientCertificateVerify(h);
        AtReadClientCertificateVerify(c, s, f, h, p);
        if HeldUp(h, h', Present(f, KindAt(f, p))) {
          StopsOk(c, s, true, h, h', Present(f, KindAt(f, p)));
        } else {
          TakesOk(c, s, true, h, h', ReadClientCcs, Ok);
        }
      case _ =>
    }
  }

  lemma ServerDo7(c: Config, s: Config, h: Hs, a: Answer)
    requires CanDo(c, s, true, h) && !a.Fail?
    ensures h.state.ReadClientCcs? ==> StepOk(c, s, true, h, h.(state := ProcessClientCcs).Stop(ReadCcs))
    ensures h.state.ProcessClientCcs? ==> StepOk(c, s, true, h, h.ChangeReadKeys(ReadNextProto))
    ensures h.state.ReadNextProto? ==> StepOk(c, s, true, h, ServerSteps.DoReadNextProto(h))
  {
    var f, p := Agree(c, s), Place(Agree(c, s), h);
    Unpack(c, s, true, h);
    hide CanDo, StepOk, LogAt, Recs, Pos, Number, Agree, KnownAt, KeysAt, HeldUp, TakesTo, SendsTo, Arrives, Only, Core,
         KindAt, Present, About, Settled;
    hide ServerSteps.DoReadNextProto;
    ServerNumbers();
    match h.state {
      case ReadClientCcs =>
        var h' := h.(state := ProcessClientCcs).Stop(ReadCcs);
        CcsNext(c, s, h);
        AtReadClientCcs(c, s, f, h, p);
        SendsOk(c, s, true, h, h', ProcessClientCcs, ReadCcs, p);
      case ProcessClientCcs =>
        var h' := h.ChangeReadKeys(ReadNextProto);
        AtProcessClientCcs(c, s, f, h, p);
        SendsOk(c, s, true, h, h', ReadNextProto, Ok, p);
      case ReadNextProto =>
        var h' := ServerSteps.DoReadNextProto(h);
        AtReadNextProto(c, s, f, h, p);
        if HeldUp(h, h', Present(f, KindAt(f, p))) {
          StopsOk(c, s, true, h, h', Present(f, KindAt(f, p)));
        } else {
          TakesOk(c, s, true, h, h', ReadChannelId, Ok);
        }
      case _ =>
    }
  }

  lemma ServerDo8(c: Config, s: Config, h: Hs, a: Answer)
    requires CanDo(c, s, true, h) && !a.Fail?
    ensures h.state.ReadChannelId? ==> StepOk(c, s, true, h, ServerSteps.DoReadChannelId(h))
    ensures h.state.ReadClientFinished? ==> StepOk(c, s, true, h, ServerSteps.DoReadClientFinished(h))
  {
    var f, p := Agree(c, s), Place(Agree(c, s), h);
    Unpack(c, s, true, h);
    hide CanDo, StepOk, LogAt, Recs, Pos, Number, Agree, KnownAt, KeysAt, HeldUp, TakesTo, SendsTo, Arrives, Only, Core,
         KindAt, Present, About, Settled;
    hide ServerSteps.DoReadChannelId, ServerSteps.DoReadClientFinished;
    ServerNumbers2();
    ServerNumbers3();
    match h.state {
      case ReadChannelId =>
        var h' := ServerSteps.DoReadChannelId(h);
        AtReadChannelId(c, s, f, h, p);
        if HeldUp(h, h', Present(f, KindAt(f, p))) {
          StopsOk(c, s, true, h, h', Present(f, KindAt(f, p)));
        } else {
          TakesOk(c, s, true, h, h', ReadClientFinished, Ok);
        }
      case ReadClientFinished =>
        var h' := ServerSteps.DoReadClientFinished(h);
        AtReadClientFinished(c, s, f, h, p);
        if HeldUp(h, h', true) {
          StopsOk(c, s, true, h, h', true);
        } else {
          TakesOk(c, s, true, h, h', if f.params.resumed then FinishServerHandshake else SendServerFinished, Ok);
        }
      case _ =>
    }
  }

  lemma ServerDo11(c: Config, s: Config, h: Hs)
    requires CanDo(c, s, true, h)
    ensures h.state.SendServerFinished? ==> StepOk(c, s, true, h, ServerSteps.DoSendServerFinished(h))
    ensures h.state.FinishServerHandshake? ==> StepOk(c, s, true, h, h.Go(Done))
  {
    var f, p := Agree(c, s), Place(Agree(c, s), h);
    Unpack(c, s, true, h);
    hide CanDo, StepOk, LogAt, Recs, Pos, Number, Agree, KnownAt, KeysAt, HeldUp, TakesTo, SendsTo, Arrives, Only, Core,
         KindAt, Present, About, Settled;
    hide ServerSteps.DoSendServerFinished;
    ServerNumbers2();
    ServerNumbers3();
    match h.state {
      case SendServerFinished =>
        var h' := ServerSteps.DoSendServerFinished(h);
        AtSendServerFinished(c, s, f, h, p);
        SendsOk(c, s, true, h, h', if f.params.resumed then ReadClientCcs else FinishServerHandshake, Flush, p + 3);
      case FinishServerHandshake =>
        var h' := h.Go(Done);
        AtFinishServerHandshake(c, s, f, h, p);
        SendsOk(c, s, true, h, h', Done, Ok, p);
      case _ =>
    }
  }

  predicate IsServerState(s: State) {
    match s
    case StartAccept => true
    case ReadClientHello => true
    case SelectCertificate => true
    case SelectParameters => true
    case SendServerHello => true
    case SendServerCertificate => true
    case SendServerKeyExchange => true
    case SendServerHelloDone => true
    case ReadClientCertificate => true
    case VerifyClientCertificate => true
    case ReadClientKeyExchange => true
    case ReadClientCertificateVerify => true
    case ReadClientCcs => true
    case ProcessClientCcs => true
    case ReadNextProto => true
    case ReadChannelId => true
    case ReadClientFinished => true
    case SendServerFinished => true
    case FinishServerHandshake => true
    case _ => false
  }

  lemma OwnState(c: Config, s: Config, server: bool, h: Hs)
    requires CanDo(c, s, server, h) && !h.state.Done?
    ensures c.Client? && s.Server? && h.cfg == (if server then s else c)
    ensures IsServerState(h.state) == server
  {
    hide LogAt, KnownAt, KeysAt, Agree, WaitOk, IsNext, Place, Compatible;
  }

  /** Every step of a client's state machine keeps what it should know, and sends or takes what the script says. */
  lemma ClientDo(c: Config, s: Config, h: Hs, a: Answer)
    requires CanDo(c, s, false, h) && !a.Fail? && !h.state.Done?
    ensures var h' := ClientSteps.Do(h, a);
            StepOk(c, s, false, h, h')
  {
    OwnState(c, s, false, h);
    hide CanDo, StepOk, Agree;
    hide ClientSteps.DoStartConnect, ClientSteps.DoReadServerHello, ClientSteps.DoReadServerCertificate,
         ClientSteps.DoReadCertificateStatus, ClientSteps.DoVerifyServerCertificate,
         ClientSteps.DoReadServerKeyExchange, ClientSteps.DoReadCertificateRequest,
         ClientSteps.DoReadServerHelloDone, ClientSteps.DoSendClientCertificate,
         ClientSteps.DoSendClientKeyExchange, ClientSteps.DoSendClientCertificateVerify,
         ClientSteps.DoSendClientFinished, ClientSteps.DoFinishFlight, ClientSteps.DoReadSessionTicket,
         ClientSteps.DoReadServerFinished;
    ClientDo1(c, s, h, a);
    ClientDo2(c, s, h, a);
    ClientDo3(c, s, h, a);
    ClientDo4(c, s, h, a);
    ClientDo5(c, s, h, a);
    ClientDo6(c, s, h, a);
    ClientDo7(c, s, h, a);
    ClientDo8(c, s, h, a);
    ClientDo9(c, s, h, a);
    ClientDo10(c, s, h, a);
    ClientDo11(c, s, h, a);
  }

  /** Every step of a server's state machine keeps what it should know, and sends or takes what the script says. */
  lemma ServerDo(c: Config, s: Config, h: Hs, a: Answer)
    requires CanDo(c, s, true, h) && !a.Fail? && !h.state.Done?
    ensures var h' := ServerSteps.Do(h, a);
            StepOk(c, s, true, h, h') || (h'.wait.Error? && !Compatible(Agree(c, s)))
  {
    OwnState(c, s, true, h);
    hide CanDo, StepOk, Agree;
    hide ServerSteps.DoReadClientHello, ServerSteps.DoSelectCertificate, ServerSteps.DoSelectParameters,
         ServerSteps.DoSendServerHello, ServerSteps.DoSendServerCertificate,
         ServerSteps.DoSendServerKeyExchange, ServerSteps.DoSendServerHelloDone,
         ServerSteps.DoReadClientCertificate, ServerSteps.DoVerifyClientCertificate,
         ServerSteps.DoReadClientKeyExchange, ServerSteps.DoReadClientCertificateVerify,
         ServerSteps.DoReadNextProto, ServerSteps.DoReadChannelId, ServerSteps.DoReadClientFinished,
         ServerSteps.DoSendServerFinished;
    ServerDo1(c, s, h, a);
    if h.state.SelectParameters? {
      ServerDo2(c, s, h, a);
    }
    if h.state.SendServerHello? {
      ServerDo10(c, s, h);
    }
    ServerDo3(c, s, h, a);
    ServerDo4(c, s, h, a);
    ServerDo5(c, s, h, a);
    ServerDo6(c, s, h, a);
    ServerDo7(c, s, h, a);
    ServerDo8(c, s, h, a);
    ServerDo9(c, s, h);
    ServerDo11(c, s, h);
  }
}
