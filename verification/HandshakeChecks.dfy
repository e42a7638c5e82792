/** What an end of a handshake asks its caller for, whoever the other end is: it is done only when all of it succeeded,
    and with every certificate verified that it needs. */
module HandshakeChecks {
  import opened Bytes
  import opened HandshakeState
  import opened HandshakeScript
  import opened HandshakeProduct
  import R = Retries
  import O = OneEnd
  import F = HandshakeForm
  import HandshakeLocal
  import ClientSteps
  import ServerSteps

  // The operation that a state asks for, if it has what it needs for that.

  function ClientAsks(h: Hs): Option<Operation>
    requires h.cfg.Client?
  {
    match h.state
    case VerifyServerCertificate => if h.known.params.cert then Some(CertificateVerification) else None
    case SendClientCertificate => if h.known.certRequest then Some(X509Lookup) else None
    case SendClientCertificateVerify => if h.known.certRequest && h.cfg.hasCert then Some(PrivateKey) else None
    case SendClientFinished => if h.known.params.channelId then Some(ChannelIdLookup) else None
    case _ => None
  }

  function ServerAsks(h: Hs): Option<Operation> {
    match h.state
    case ReadClientHello => if h.held.Some? && h.held.value.ClientHello? then Some(CertificateSelection) else None
    case SelectCertificate => if h.held.Some? then Some(X509Lookup) else None
    case SelectParameters => if h.held.Some? && h.held.value.ClientHello? then Some(SessionLookup) else None
    case SendServerKeyExchange => if h.known.serverParams && h.known.params.cert then Some(PrivateKey) else None
    case VerifyClientCertificate => if h.known.peerKey then Some(CertificateVerification) else None
    case ReadClientKeyExchange =>
      if h.held.Some? && h.held.value.ClientKeyExchange? && h.known.params.kx == Rsa then Some(PrivateKey) else None
    case _ => None
  }

  function Asks(h: Hs): Option<Operation> {
    if h.cfg.Client? then ClientAsks(h) else ServerAsks(h)
  }

  /** What the answer to an operation does to the end that asks for it. */
  ghost predicate Obeys(h: Hs, op: Option<Operation>, ready: Hs, retry: Hs, fail: Hs) {
    if op.Some? then fail == h.Stop(Error) && retry == h.Stop(Pending(op.value)) && ready.state != h.state
    else fail == retry == ready
  }

  lemma ClientObeys(h: Hs)
    requires h.cfg.Client?
    ensures Obeys(h, ClientAsks(h), ClientSteps.Do(h, Ready), ClientSteps.Do(h, Retry), ClientSteps.Do(h, Fail))
  {
  }

  lemma ServerObeys(h: Hs)
    requires h.cfg.Server?
    ensures Obeys(h, ServerAsks(h), ServerSteps.Do(h, Ready), ServerSteps.Do(h, Retry), ServerSteps.Do(h, Fail))
  {
  }

  /** In each state that asks for an operation a failure is an error, a result that is pending stops the end there, and
      only success leads on; and no other state looks at an answer. */
  lemma AnswersObeyed(h: Hs)
    requires Can(h, Run(Ready))
    ensures Obeys(h, Asks(h), Act1(h, Run(Ready)), Act1(h, Run(Retry)), Act1(h, Run(Fail)))
  {
    hide ClientSteps.Do, ServerSteps.Do, Obeys, ClientAsks, ServerAsks;
    if h.cfg.Client? {
      ClientObeys(h);
    } else {
      ServerObeys(h);
    }
  }

  // Runs.

  ghost predicate SucceedsAt(cfg: Config, run: seq<R.Event>, state: State, k: nat) {
    k < |run| && R.Possible(cfg, run[..k]) && R.After(cfg, run[..k]).h.state == state && run[k] == R.Turn(Run(Ready))
  }

  /** At some time the end was in the state and what it asked for succeeded. */
  ghost predicate Succeeded(cfg: Config, run: seq<R.Event>, state: State) {
    exists k: nat :: SucceedsAt(cfg, run, state, k)
  }

  lemma SucceededBefore(cfg: Config, run: seq<R.Event>, state: State)
    requires run != [] && Succeeded(cfg, run[..|run| - 1], state)
    ensures Succeeded(cfg, run, state)
  {
    var k: nat :| SucceedsAt(cfg, run[..|run| - 1], state, k);
    assert run[..|run| - 1][..k] == run[..k];
    assert SucceedsAt(cfg, run, state, k);
  }

  lemma SucceededNow(cfg: Config, run: seq<R.Event>, state: State)
    requires run != [] && R.Possible(cfg, run) && run[|run| - 1] == R.Turn(Run(Ready))
    requires R.After(cfg, run[..|run| - 1]).h.state == state
    ensures Succeeded(cfg, run, state)
  {
    assert SucceedsAt(cfg, run, state, |run| - 1);
  }

  /** What a step of the client's can do to its state, in numbers: it is behind the check of the certificate if it was,
      or if it has just succeeded. */
  lemma ClientPasses(h: Hs, a: Answer)
    requires O.InPlace(h) && h.cfg.Client? && Can(h, Run(a))
    ensures var h' := Act1(h, Run(a));
            Number(h'.state) >= 6 && !h'.known.params.resumed && h'.known.params.cert ==>
              || (Number(h.state) >= 6 && !h.known.params.resumed && h.known.params.cert)
              || (h.state.VerifyServerCertificate? && a.Ready?)
  {
    var h' := Act1(h, Run(a));
    Checkpoints(h.state);
    Checkpoints(h'.state);
    hide ClientSteps.Do, Number;
    O.ClientMoves(h, a);
    AnswersObeyed(h);
    if !h.state.ReadServerHello? {
      ParamsKept(h, a);
    }
  }

  lemma Checkpoints(s: State)
    ensures Number(s) <= 37 && (Number(s) == 37 <==> s.Done?) && (Number(s) == 2 <==> s.ReadServerHello?)
    ensures (Number(s) == 5 <==> s.VerifyServerCertificate?) && (Number(s) == 26 <==> s.ReadClientCertificate?)
    ensures Number(s) == 27 <==> s.VerifyClientCertificate?
  {
  }

  lemma ParamsKept(h: Hs, a: Answer)
    requires O.InPlace(h) && h.cfg.Client? && !h.state.ReadServerHello? && !h.state.Done?
    ensures ClientSteps.Do(h, a).known.params == h.known.params
  {
    hide ClientSteps.Do;
    if FirstClientHalf(h.state) {
      ClientSteps.FirstCases(h, a);
      ParamsKept1(h, a);
    } else {
      F.LastClientHalf(h);
      hide Number;
      ClientSteps.Cases(h, a);
      ParamsKept2(h, a);
    }
  }

  lemma ParamsKept1(h: Hs, a: Answer)
    requires h.cfg.Client?
    ensures ClientSteps.DoStartConnect(h).known.params == h.known.params
    ensures ClientSteps.DoReadServerCertificate(h).known.params == h.known.params
    ensures ClientSteps.DoReadCertificateStatus(h).known.params == h.known.params
    ensures ClientSteps.DoVerifyServerCertificate(h, a).known.params == h.known.params
    ensures ClientSteps.DoReadServerKeyExchange(h).known.params == h.known.params
    ensures ClientSteps.DoReadCertificateRequest(h).known.params == h.known.params
    ensures ClientSteps.DoReadServerHelloDone(h).known.params == h.known.params
  {
  }

  lemma ParamsKept2(h: Hs, a: Answer)
    requires h.cfg.Client?
    ensures ClientSteps.DoSendClientCertificate(h, a).known.params == h.known.params
    ensures ClientSteps.DoSendClientKeyExchange(h).known.params == h.known.params
    ensures ClientSteps.DoSendClientCertificateVerify(h, a).known.params == h.known.params
    ensures ClientSteps.DoSendClientFinished(h, a).known.params == h.known.params
    ensures ClientSteps.DoFinishFlight(h).known.params == h.known.params
    ensures ClientSteps.DoReadSessionTicket(h).known.params == h.known.params
    ensures ClientSteps.DoReadServerFinished(h).known.params == h.known.params
  {
  }

  /** The server's check of a client's certificate likewise; it has a client's key only behind reading one. */
  lemma ServerPasses(h: Hs, a: Answer)
    requires F.Formed(h) && h.cfg.Server? && Can(h, Run(a))
    ensures var h' := Act1(h, Run(a));
            Number(h'.state) >= 28 && h'.known.peerKey ==>
              || (Number(h.state) >= 28 && h.known.peerKey)
              || (h.state.VerifyClientCertificate? && a.Ready?)
  {
    var h' := Act1(h, Run(a));
    Checkpoints(h.state);
    Checkpoints(h'.state);
    hide ServerSteps.Do, Number, F.Form, Pos;
    O.ServerMoves(h, a);
    AnswersObeyed(h);
    if !h.state.ReadClientCertificate? {
      KeyKept(h, a);
    }
  }

  lemma KeyKept(h: Hs, a: Answer)
    requires h.cfg.Server? && !h.state.ReadClientCertificate?
    ensures ServerSteps.Do(h, a).known.peerKey == h.known.peerKey
  {
    hide ServerSteps.Do;
    if FirstServerHalf(h.state) {
      ServerSteps.Cases1(h, a);
      KeyKept1(h, a);
      KeyKept2(h, a);
    } else {
      KeyKept3(h, a);
    }
  }

  lemma KeyKept1(h: Hs, a: Answer)
    requires h.cfg.Server?
    ensures ServerSteps.DoReadClientHello(h, a).known.peerKey == h.known.peerKey
    ensures ServerSteps.DoSelectCertificate(h, a).known.peerKey == h.known.peerKey
    ensures ServerSteps.DoSelectParameters(h, a).known.peerKey == h.known.peerKey
  {
  }

  lemma KeyKept2(h: Hs, a: Answer)
    requires h.cfg.Server?
    ensures ServerSteps.DoSendServerHello(h).known.peerKey == h.known.peerKey
    ensures ServerSteps.DoSendServerCertificate(h).known.peerKey == h.known.peerKey
    ensures ServerSteps.DoSendServerKeyExchange(h, a).known.peerKey == h.known.peerKey
    ensures ServerSteps.DoSendServerHelloDone(h).known.peerKey == h.known.peerKey
  {
  }

  lemma KeyKept3(h: Hs, a: Answer)
    requires h.cfg.Server? && !FirstServerHalf(h.state)
    ensures ServerSteps.Do(h, a).known.peerKey == h.known.peerKey
  {
  }

  /** Everything but a step of the machine leaves the state where it is. */
  lemma OtherKeeps(h: Hs, act: Act)
    requires Can(h, act) && !act.Run?
    ensures var h' := Act1(h, act);
            h'.cfg == h.cfg && h'.state == h.state && h'.known == h.known
  {
  }

  lemma {:induction false} ServerChecked(cfg: Config, run: seq<R.Event>)
    requires R.Possible(cfg, run) && cfg.Client?
    ensures var h := R.After(cfg, run).h;
            Number(h.state) >= 6 && !h.known.params.resumed && h.known.params.cert ==>
              Succeeded(cfg, run, VerifyServerCertificate)
  {
    if run != [] {
      var before, e := run[..|run| - 1], run[|run| - 1];
      ServerChecked(cfg, before);
      var h := R.After(cfg, before).h;
      O.SameConfig(cfg, before);
      O.TurnsBounded(cfg, before);
      hide O.InPlace, O.EndWork, Number, ClientSteps.Do, ServerSteps.Do, Succeeded;
      if Succeeded(cfg, before, VerifyServerCertificate) {
        SucceededBefore(cfg, run, VerifyServerCertificate);
      } else if e == R.Turn(Run(Ready)) && h.state.VerifyServerCertificate? {
        SucceededNow(cfg, run, VerifyServerCertificate);
      } else if e.Turn? && e.act.Run? {
        ClientPasses(h, e.act.a);
      } else if e.Turn? {
        OtherKeeps(h, e.act);
      }
    } else {
      HandshakeLocal.ClientNumbers();
    }
  }

  lemma {:induction false} ClientChecked(cfg: Config, run: seq<R.Event>)
    requires R.Possible(cfg, run) && cfg.Server?
    ensures var h := R.After(cfg, run).h;
            Number(h.state) >= 28 && h.known.peerKey ==> Succeeded(cfg, run, VerifyClientCertificate)
  {
    if run != [] {
      var before, e := run[..|run| - 1], run[|run| - 1];
      ClientChecked(cfg, before);
      var h := R.After(cfg, before).h;
      O.SameConfig(cfg, before);
      F.RunFormed(cfg, before);
      hide F.Formed, Number, ClientSteps.Do, ServerSteps.Do, Succeeded;
      if Succeeded(cfg, before, VerifyClientCertificate) {
        SucceededBefore(cfg, run, VerifyClientCertificate);
      } else if e == R.Turn(Run(Ready)) && h.state.VerifyClientCertificate? {
        SucceededNow(cfg, run, VerifyClientCertificate);
      } else if e.Turn? && e.act.Run? {
        ServerPasses(h, e.act.a);
      } else if e.Turn? {
        OtherKeeps(h, e.act);
      }
    } else {
      F.ServerNumbers();
    }
  }

  /** Whoever is on the other side and whatever it sends: a client that is done after a full handshake with certificates
      has had the server's certificate verified, and a server that is done and has a client's key has had that of the
      client. */
  lemma CertificateVerified(cfg: Config, run: seq<R.Event>)
    requires R.Possible(cfg, run) && R.After(cfg, run).h.state.Done?
    ensures var k := R.After(cfg, run).h.known;
            && (cfg.Client? && !k.params.resumed && k.params.cert ==> Succeeded(cfg, run, VerifyServerCertificate))
            && (cfg.Server? && k.peerKey ==> Succeeded(cfg, run, VerifyClientCertificate))
  {
    HandshakeLocal.ClientNumbers();
    hide Number, Succeeded;
    if cfg.Client? {
      ServerChecked(cfg, run);
    } else {
      ClientChecked(cfg, run);
    }
  }

  /** A server that insists on a client's certificate is done with a full handshake only after that certificate was
      verified and the client has signed everything before with its key. */
  lemma InsistsOnCertificate(cfg: Config, run: seq<R.Event>) returns (i: nat)
    requires R.Possible(cfg, run) && cfg.Server? && R.After(cfg, run).h.state.Done?
    requires !R.After(cfg, run).h.known.params.resumed && cfg.cert && cfg.verifyPeer && cfg.failIfNoCert
    requires !(cfg.verifyIfNoObc && cfg.channelIdOffered)
    ensures Succeeded(cfg, run, VerifyClientCertificate)
    ensures var t := R.After(cfg, run).h.log.transcript;
            i < |t| && t[i] == CertificateVerify(t[..i]) && Certificate(true) in t[..i]
  {
    hide Succeeded;
    F.DemandedKey(cfg, run);
    CertificateVerified(cfg, run);
    var j;
    i, j := F.ClientProvesKey(cfg, run);
    assert R.After(cfg, run).h.log.transcript[..i][j] == Certificate(true);
  }

  /** When what an end asks for fails, the handshake has failed for good. */
  lemma FailureIsFinal(cfg: Config, run: seq<R.Event>, more: seq<R.Event>)
    requires R.Possible(cfg, run) && Asks(R.After(cfg, run).h).Some? && Can(R.After(cfg, run).h, Run(Fail))
    requires R.Possible(cfg, run + [R.Turn(Run(Fail))]) && R.Possible(cfg, run + [R.Turn(Run(Fail))] + more)
    ensures R.After(cfg, run + [R.Turn(Run(Fail))] + more).h.wait.Error?
  {
    var h, failed := R.After(cfg, run).h, run + [R.Turn(Run(Fail))];
    AnswersObeyed(h);
    assert failed[..|failed| - 1] == run;
    hide Asks, Act1;
    R.ErrorIsFinal(cfg, failed, more);
  }
}
