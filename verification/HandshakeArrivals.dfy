/** What has to have come and gone before an end of a handshake goes on, whoever the other end is: its own Finished
    before it returns early, a ChangeCipherSpec before it changes its keys, and the Finished of the other end, sealed,
    before it is done. */
module HandshakeArrivals {
  import opened Bytes
  import opened HandshakeState
  import opened HandshakeScript
  import opened HandshakeProduct
  import R = Retries
  import O = OneEnd
  import F = HandshakeForm
  import ClientSteps
  import ServerSteps

  // Sending early.

  /** The end returns early only where false start allows it, with nothing left to flush. */
  predicate Early(h: Hs) {
    && (h.state.FinishFlight? ==> h.wait.Flush? || h.flight == [])
    && (h.wait.EarlyReturn? ==>
          && h.cfg.Client? && h.cfg.falseStart && h.known.params.kx == Ecdhe && !h.known.params.resumed
          && h.state.ReadSessionTicket? && h.flight == [])
  }

  lemma ClientEarly(h: Hs, a: Answer)
    requires Early(h) && h.cfg.Client? && O.InPlace(h) && Can(h, Run(a))
    ensures Early(ClientSteps.Do(h, a))
  {
    hide ClientSteps.Do;
    if FirstClientHalf(h.state) {
      ClientSteps.FirstCases(h, a);
      EarlyFirst(h, a);
    } else {
      F.LastClientHalf(h);
      hide Number, Visits;
      ClientSteps.Cases(h, a);
    }
  }

  lemma EarlyFirst(h: Hs, a: Answer)
    requires h.cfg.Client? && FirstClientHalf(h.state)
    ensures var h' := ClientSteps.Do(h, a);
            !h'.wait.EarlyReturn? && !h'.state.FinishFlight?
  {
  }

  lemma ServerEarly(h: Hs, a: Answer)
    requires h.cfg.Server? && O.InPlace(h) && Can(h, Run(a))
    ensures Early(ServerSteps.Do(h, a))
  {
    hide ServerSteps.Do;
    if FirstServerHalf(h.state) {
      ServerWaits1(h, a);
    } else {
      LastServerHalf(h);
      hide O.InPlace;
      ServerWaits2(h, a);
    }
  }

  lemma ServerWaits1(h: Hs, a: Answer)
    requires h.cfg.Server? && FirstServerHalf(h.state)
    ensures var h' := ServerSteps.Do(h, a);
            !h'.wait.EarlyReturn? && !h'.state.FinishFlight?
  {
    hide ServerSteps.Do;
    ServerSteps.Cases1(h, a);
  }

  lemma ServerWaits2(h: Hs, a: Answer)
    requires h.cfg.Server? && !FirstServerHalf(h.state)
    requires h.state.VerifyClientCertificate? || h.state.ReadClientKeyExchange? || h.state.ReadClientCertificateVerify?
             || h.state.ReadClientCcs? || h.state.ProcessClientCcs? || h.state.ReadNextProto? || h.state.ReadChannelId?
             || h.state.ReadClientFinished? || h.state.SendServerFinished? || h.state.FinishServerHandshake?
    ensures var h' := ServerSteps.Do(h, a);
            !h'.wait.EarlyReturn? && !h'.state.FinishFlight?
  {
    hide ServerSteps.Do;
    ServerSteps.Cases1(h, a);
    ServerSteps.Cases2(h, a);
  }

  lemma StepEarly(t: R.Track, e: R.Event)
    requires Early(t.h) && O.InPlace(t.h) && R.Enabled(t, e)
    ensures Early(R.Step(t, e).h)
  {
    hide ClientSteps.Do, ServerSteps.Do, O.InPlace;
    if e.Turn? && e.act.Run? {
      if t.h.cfg.Client? {
        ClientEarly(t.h, e.act.a);
      } else {
        ServerEarly(t.h, e.act.a);
      }
    }
  }

  lemma {:induction false} RunEarly(cfg: Config, run: seq<R.Event>)
    requires R.Possible(cfg, run)
    ensures Early(R.After(cfg, run).h)
  {
    if run != [] {
      RunEarly(cfg, run[..|run| - 1]);
      O.TurnsBounded(cfg, run[..|run| - 1]);
      hide Early, R.Step, R.Enabled, O.InPlace, O.EndWork;
      StepEarly(R.After(cfg, run[..|run| - 1]), run[|run| - 1]);
    }
  }

  /** A client returns to its caller before the server's Finished only with false start, an ephemeral key exchange and a
      full handshake, and only when the transport has taken its own Finished under the new keys. */
  lemma EarlyReturnSafe(cfg: Config, run: seq<R.Event>)
    requires R.Possible(cfg, run) && R.After(cfg, run).h.wait.EarlyReturn?
    ensures var t := R.After(cfg, run);
            && cfg.Client? && cfg.falseStart && t.h.known.params.kx == Ecdhe && !t.h.known.params.resumed
            && t.h.flight == [] && t.h.log.clientFinished.Some?
            && HandshakeState.Handshake(Finished(false, t.h.log.clientFinished.value), true) in t.sent
  {
    var t := R.After(cfg, run);
    RunEarly(cfg, run);
    O.RunSound(cfg, run);
    O.SameConfig(cfg, run);
    hide R.After, R.Possible, O.InPlace, O.FinishedSent, FinishedIn;
    assert t.sent + t.h.flight == t.sent;
  }

  // The records that have arrived.

  /** In their order. */
  function Received(run: seq<R.Event>): seq<Rec> {
    if run == [] then []
    else
      var e := run[|run| - 1];
      Received(run[..|run| - 1]) + if e.Arrive? then [e.r] else []
  }

  /** What the end holds and what it has taken for the other end's Finished has arrived, sealed if the keys were changed
      by then. */
  ghost predicate Came(got: seq<Rec>, h: Hs) {
    && (forall r | r in h.inbox :: r in got)
    && (h.held.Some? ==> HandshakeState.Handshake(h.held.value, h.keys.read) in got)
    && var theirs := O.Own(h.log, !h.cfg.Server?);
       theirs.Some? ==> HandshakeState.Handshake(Finished(!h.cfg.Server?, theirs.value), true) in got
  }

  /** A step takes a message or keeps it, changes keys only without one, and takes a Finished only as it is held. */
  ghost predicate Takes(h: Hs, h': Hs) {
    var theirs, theirs' := O.Own(h.log, !h.cfg.Server?), O.Own(h'.log, !h.cfg.Server?);
    && h'.inbox == h.inbox && (h'.held == h.held || h'.held.None?)
    && (h'.keys.read == h.keys.read || h'.held.None?)
    && (theirs' == theirs
        || (theirs'.Some? && h.held == Some(Finished(!h.cfg.Server?, theirs'.value))
            && (h.state.ReadServerFinished? || h.state.ReadClientFinished?)))
  }

  lemma ClientTakes1(h: Hs, a: Answer)
    requires h.cfg.Client?
    ensures Takes(h, ClientSteps.DoStartConnect(h))
    ensures Takes(h, ClientSteps.DoReadServerHello(h))
    ensures Takes(h, ClientSteps.DoReadServerCertificate(h))
    ensures Takes(h, ClientSteps.DoReadCertificateStatus(h))
  {
  }

  lemma ClientTakes2(h: Hs, a: Answer)
    requires h.cfg.Client?
    ensures Takes(h, ClientSteps.DoVerifyServerCertificate(h, a))
    ensures Takes(h, ClientSteps.DoReadServerKeyExchange(h))
    ensures Takes(h, ClientSteps.DoReadCertificateRequest(h))
    ensures Takes(h, ClientSteps.DoReadServerHelloDone(h))
  {
  }

  lemma ClientTakes3(h: Hs, a: Answer)
    requires h.cfg.Client?
    ensures Takes(h, ClientSteps.DoSendClientCertificate(h, a))
    ensures Takes(h, ClientSteps.DoSendClientKeyExchange(h))
    ensures Takes(h, ClientSteps.DoSendClientCertificateVerify(h, a))
  {
  }

  lemma ClientTakes4(h: Hs, a: Answer)
    requires h.cfg.Client?
    ensures Takes(h, ClientSteps.DoSendClientFinished(h, a))
  {
  }

  lemma ClientTakes5(h: Hs, a: Answer)
    requires h.cfg.Client?
    ensures h.state.FinishFlight? ==> Takes(h, ClientSteps.DoFinishFlight(h))
    ensures h.state.ReadSessionTicket? ==> Takes(h, ClientSteps.DoReadSessionTicket(h))
    ensures h.state.ReadServerFinished? ==> Takes(h, ClientSteps.DoReadServerFinished(h))
  {
  }

  lemma SameTakes(h: Hs, h': Hs)
    requires h'.log == h.log && h'.inbox == h.inbox && h'.held == h.held
    requires h'.keys.read == h.keys.read || h'.held.None?
    ensures Takes(h, h')
  {
  }

  lemma ClientTakes(h: Hs, a: Answer)
    requires h.cfg.Client? && O.InPlace(h) && !h.state.Done?
    ensures Takes(h, ClientSteps.Do(h, a))
  {
    hide ClientSteps.Do, Takes;
    if FirstClientHalf(h.state) {
      ClientSteps.FirstCases(h, a);
      SameTakes(h, h.Go(ReadServerHello));
      ClientTakes1(h, a);
      ClientTakes2(h, a);
    } else {
      F.LastClientHalf(h);
      ClientSteps.Cases(h, a);
      SameTakes(h, h.Go(Done));
      SameTakes(h, h.ChangeReadKeys(ReadServerFinished));
      ClientTakes3(h, a);
      ClientTakes4(h, a);
      ClientTakes5(h, a);
    }
  }

  lemma ServerTakes1(h: Hs, a: Answer)
    requires h.cfg.Server?
    ensures Takes(h, ServerSteps.DoReadClientHello(h, a))
    ensures Takes(h, ServerSteps.DoSelectCertificate(h, a))
    ensures Takes(h, ServerSteps.DoSelectParameters(h, a))
  {
  }

  lemma ServerTakes2(h: Hs, a: Answer)
    requires h.cfg.Server?
    ensures Takes(h, ServerSteps.DoSendServerHello(h))
    ensures Takes(h, ServerSteps.DoSendServerCertificate(h))
    ensures Takes(h, ServerSteps.DoSendServerHelloDone(h))
  {
  }

  lemma ServerTakes3(h: Hs, a: Answer)
    requires h.cfg.Server?
    ensures Takes(h, ServerSteps.DoSendServerKeyExchange(h, a))
    ensures Takes(h, ServerSteps.DoReadClientCertificate(h))
    ensures Takes(h, ServerSteps.DoVerifyClientCertificate(h, a))
  {
  }

  lemma ServerTakes4(h: Hs, a: Answer)
    requires h.cfg.Server?
    ensures Takes(h, ServerSteps.DoReadClientKeyExchange(h, a))
    ensures Takes(h, ServerSteps.DoReadClientCertificateVerify(h))
    ensures Takes(h, ServerSteps.DoReadNextProto(h))
    ensures Takes(h, ServerSteps.DoReadChannelId(h))
  {
  }

  lemma ServerTakes5(h: Hs, a: Answer)
    requires h.cfg.Server?
    ensures h.state.ReadClientFinished? ==> Takes(h, ServerSteps.DoReadClientFinished(h))
    ensures h.state.SendServerFinished? ==> Takes(h, ServerSteps.DoSendServerFinished(h))
  {
  }

  lemma ServerTakes(h: Hs, a: Answer)
    requires h.cfg.Server? && O.InPlace(h) && !h.state.Done?
    ensures Takes(h, ServerSteps.Do(h, a))
  {
    hide ServerSteps.Do, Takes;
    if FirstServerHalf(h.state) {
      hide O.InPlace;
      SameTakes(h, h.Go(ReadClientHello));
      ServerSteps.Cases1(h, a);
      ServerTakes1(h, a);
      ServerTakes2(h, a);
      ServerTakes3(h, a);
    } else {
      LastServerHalf(h);
      hide O.InPlace;
      SameTakes(h, h.Go(Done));
      SameTakes(h, h.(state := ProcessClientCcs).Stop(ReadCcs));
      SameTakes(h, h.ChangeReadKeys(ReadNextProto));
      ServerSteps.Cases1(h, a);
      ServerSteps.Cases2(h, a);
      ServerTakes3(h, a);
      ServerTakes4(h, a);
      ServerTakes5(h, a);
    }
  }

  lemma LastServerHalf(h: Hs)
    requires O.InPlace(h) && h.cfg.Server? && !FirstServerHalf(h.state) && !h.state.Done?
    ensures h.state.VerifyClientCertificate? || h.state.ReadClientKeyExchange? || h.state.ReadClientCertificateVerify?
            || h.state.ReadClientCcs? || h.state.ProcessClientCcs? || h.state.ReadNextProto? || h.state.ReadChannelId?
            || h.state.ReadClientFinished? || h.state.SendServerFinished? || h.state.FinishServerHandshake?
  {
  }

  lemma TakesCame(got: seq<Rec>, h: Hs, h': Hs)
    requires Came(got, h) && Takes(h, h') && h'.cfg == h.cfg
    requires h.state.ReadServerFinished? || h.state.ReadClientFinished? ==> h.keys.read
    ensures Came(got, h')
  {
  }

  lemma OtherCame(got: seq<Rec>, h: Hs, act: Act)
    requires Came(got, h) && Can(h, act) && !act.Run?
    ensures Came(got, Act1(h, act))
  {
  }

  lemma ArriveCame(got: seq<Rec>, h: Hs, r: Rec)
    requires Came(got, h)
    ensures Came(got + [r], h.(inbox := h.inbox + [r]))
  {
  }

  /** A Finished is checked under the new keys. */
  lemma ChecksSealed(sent: seq<Rec>, h: Hs)
    requires O.Sound(sent, h)
    ensures O.InPlace(h) && (h.state.ReadServerFinished? || h.state.ReadClientFinished? ==> h.keys.read)
  {
    hide O.InPlace, O.Order, O.Offered;
  }

  lemma {:induction false} RunCame(cfg: Config, run: seq<R.Event>)
    requires R.Possible(cfg, run)
    ensures Came(Received(run), R.After(cfg, run).h)
  {
    if run != [] {
      var before, e := run[..|run| - 1], run[|run| - 1];
      var t := R.After(cfg, before);
      hide O.InPlace, O.Sound, ClientSteps.Do, ServerSteps.Do, Takes, Came;
      RunCame(cfg, before);
      O.RunSound(cfg, before);
      ChecksSealed(t.sent, t.h);
      match e {
        case Turn(act) =>
          assert Received(run) == Received(before);
          if act.Run? {
            O.ConfigKept(t.h, act.a);
            if t.h.cfg.Client? {
              ClientTakes(t.h, act.a);
            } else {
              ServerTakes(t.h, act.a);
            }
            TakesCame(Received(before), t.h, Act1(t.h, act));
          } else {
            OtherCame(Received(before), t.h, act);
          }
        case Arrive(r) => ArriveCame(Received(before), t.h, r);
      }
    }
  }

  /** The Finished of the other end that an end is done with has arrived in a record that was sealed under the new
      keys. */
  lemma FinishedArrived(cfg: Config, run: seq<R.Event>)
    requires R.Possible(cfg, run) && R.After(cfg, run).h.state.Done?
    ensures var theirs := O.Own(R.After(cfg, run).h.log, !cfg.Server?);
            theirs.Some? && HandshakeState.Handshake(Finished(!cfg.Server?, theirs.value), true) in Received(run)
  {
    RunCame(cfg, run);
    O.SameConfig(cfg, run);
    O.DoneChecked(cfg, run);
    hide R.After, R.Possible;
  }

  // Keys for reading are changed only on a ChangeCipherSpec.

  predicate Switching(s: State) {
    s.ProcessServerCcs? || s.ProcessClientCcs?
  }

  /** The end reads under the new keys just behind the state that changes them, and waits for a ChangeCipherSpec just in
      front of it. */
  predicate Switched(h: Hs) {
    && (h.keys.read ==> O.ReadsSealed(h.state, h.known.params.resumed))
    && (h.wait.ReadCcs? ==> Switching(h.state))
  }

  /** The ChangeCipherSpec that this takes has arrived. */
  predicate CcsCame(got: seq<Rec>, h: Hs) {
    && Switched(h)
    && (h.keys.read ==> ChangeCipherSpec(false) in got)
    && (Switching(h.state) ==> h.wait.ReadCcs? || h.wait.Error? || ChangeCipherSpec(false) in got)
  }

  /** What a step does about it. */
  predicate Steps(h: Hs, h': Hs) {
    && Switched(h')
    && (h'.keys.read ==> h.keys.read || Switching(h.state))
    && (Switching(h'.state) ==> h'.wait.ReadCcs? || h'.wait.Error? || Switching(h.state))
  }

  lemma StepsCame(got: seq<Rec>, h: Hs, h': Hs)
    requires CcsCame(got, h) && h.wait.Ok? && Steps(h, h')
    ensures CcsCame(got, h')
  {
  }

  lemma ClientSteps1(h: Hs, a: Answer)
    requires h.cfg.Client? && Switched(h) && h.wait.Ok?
    ensures h.state.StartConnect? ==> Steps(h, ClientSteps.DoStartConnect(h))
    ensures h.state.EnterEarlyData? ==> Steps(h, h.Go(ReadServerHello))
    ensures h.state.ReadServerHello? ==> Steps(h, ClientSteps.DoReadServerHello(h))
    ensures h.state.ReadServerCertificate? ==> Steps(h, ClientSteps.DoReadServerCertificate(h))
  {
  }

  lemma ClientSteps2(h: Hs, a: Answer)
    requires h.cfg.Client? && Switched(h) && h.wait.Ok?
    ensures h.state.ReadCertificateStatus? ==> Steps(h, ClientSteps.DoReadCertificateStatus(h))
    ensures h.state.VerifyServerCertificate? ==> Steps(h, ClientSteps.DoVerifyServerCertificate(h, a))
    ensures h.state.ReadServerKeyExchange? ==> Steps(h, ClientSteps.DoReadServerKeyExchange(h))
  {
  }

  lemma ClientSteps3(h: Hs, a: Answer)
    requires h.cfg.Client? && Switched(h) && h.wait.Ok?
    ensures h.state.ReadCertificateRequest? ==> Steps(h, ClientSteps.DoReadCertificateRequest(h))
    ensures h.state.ReadServerHelloDone? ==> Steps(h, ClientSteps.DoReadServerHelloDone(h))
  {
  }

  lemma ClientSteps4(h: Hs, a: Answer)
    requires h.cfg.Client? && Switched(h) && h.wait.Ok?
    ensures h.state.SendClientCertificate? ==> Steps(h, ClientSteps.DoSendClientCertificate(h, a))
    ensures h.state.SendClientKeyExchange? ==> Steps(h, ClientSteps.DoSendClientKeyExchange(h))
    ensures h.state.SendClientCertificateVerify? ==> Steps(h, ClientSteps.DoSendClientCertificateVerify(h, a))
  {
  }

  lemma ClientSteps5(h: Hs, a: Answer)
    requires h.cfg.Client? && Switched(h) && h.wait.Ok?
    ensures h.state.SendClientFinished? ==> Steps(h, ClientSteps.DoSendClientFinished(h, a))
    ensures h.state.FinishFlight? ==> Steps(h, ClientSteps.DoFinishFlight(h))
  {
  }

  lemma ClientSteps6(h: Hs, a: Answer)
    requires h.cfg.Client? && Switched(h) && h.wait.Ok?
    ensures h.state.ReadSessionTicket? ==> Steps(h, ClientSteps.DoReadSessionTicket(h))
    ensures h.state.ProcessServerCcs? ==> Steps(h, h.ChangeReadKeys(ReadServerFinished))
    ensures h.state.ReadServerFinished? ==> Steps(h, ClientSteps.DoReadServerFinished(h))
    ensures h.state.FinishClientHandshake? ==> Steps(h, h.Go(Done))
  {
  }

  lemma ServerSteps1(h: Hs, a: Answer)
    requires h.cfg.Server? && Switched(h) && h.wait.Ok?
    ensures h.state.StartAccept? ==> Steps(h, h.Go(ReadClientHello))
    ensures h.state.ReadClientHello? ==> Steps(h, ServerSteps.DoReadClientHello(h, a))
    ensures h.state.SelectCertificate? ==> Steps(h, ServerSteps.DoSelectCertificate(h, a))
    ensures h.state.SelectParameters? ==> Steps(h, ServerSteps.DoSelectParameters(h, a))
  {
  }

  lemma ServerSteps2(h: Hs, a: Answer)
    requires h.cfg.Server? && Switched(h) && h.wait.Ok?
    ensures h.state.SendServerHello? ==> Steps(h, ServerSteps.DoSendServerHello(h))
    ensures h.state.SendServerCertificate? ==> Steps(h, ServerSteps.DoSendServerCertificate(h))
  {
  }

  lemma ServerSteps6(h: Hs, a: Answer)
    requires h.cfg.Server? && Switched(h) && h.wait.Ok?
    ensures h.state.SendServerKeyExchange? ==> Steps(h, ServerSteps.DoSendServerKeyExchange(h, a))
    ensures h.state.SendServerHelloDone? ==> Steps(h, ServerSteps.DoSendServerHelloDone(h))
  {
  }

  lemma ServerSteps3(h: Hs, a: Answer)
    requires h.cfg.Server? && Switched(h) && h.wait.Ok?
    ensures h.state.ReadClientCertificate? ==> Steps(h, ServerSteps.DoReadClientCertificate(h))
    ensures h.state.VerifyClientCertificate? ==> Steps(h, ServerSteps.DoVerifyClientCertificate(h, a))
    ensures h.state.ReadClientKeyExchange? ==> Steps(h, ServerSteps.DoReadClientKeyExchange(h, a))
    ensures h.state.ReadClientCertificateVerify? ==> Steps(h, ServerSteps.DoReadClientCertificateVerify(h))
  {
  }

  lemma ServerSteps4(h: Hs, a: Answer)
    requires h.cfg.Server? && Switched(h) && h.wait.Ok?
    ensures h.state.ReadClientCcs? ==> Steps(h, h.(state := ProcessClientCcs).Stop(ReadCcs))
    ensures h.state.ProcessClientCcs? ==> Steps(h, h.ChangeReadKeys(ReadNextProto))
  {
  }

  lemma ServerSteps7(h: Hs, a: Answer)
    requires h.cfg.Server? && Switched(h) && h.wait.Ok?
    ensures h.state.ReadNextProto? ==> Steps(h, ServerSteps.DoReadNextProto(h))
  {
  }

  lemma ServerSteps9(h: Hs, a: Answer)
    requires h.cfg.Server? && Switched(h) && h.wait.Ok?
    ensures h.state.ReadChannelId? ==> Steps(h, ServerSteps.DoReadChannelId(h))
  {
  }

  lemma ServerSteps5(h: Hs, a: Answer)
    requires h.cfg.Server? && Switched(h) && h.wait.Ok?
    ensures h.state.ReadClientFinished? ==> Steps(h, ServerSteps.DoReadClientFinished(h))
  {
  }

  lemma ServerSteps8(h: Hs, a: Answer)
    requires h.cfg.Server? && Switched(h) && h.wait.Ok?
    ensures h.state.SendServerFinished? ==> Steps(h, ServerSteps.DoSendServerFinished(h))
    ensures h.state.FinishServerHandshake? ==> Steps(h, h.Go(Done))
  {
  }

  lemma ClientSwitches(h: Hs, a: Answer)
    requires h.cfg.Client? && O.InPlace(h) && Can(h, Run(a)) && Switched(h)
    ensures Steps(h, ClientSteps.Do(h, a))
  {
    hide ClientSteps.Do, Steps, Switched;
    if FirstClientHalf(h.state) {
      ClientSteps.FirstCases(h, a);
      ClientSteps1(h, a);
      ClientSteps2(h, a);
      ClientSteps3(h, a);
    } else {
      F.LastClientHalf(h);
      hide O.InPlace;
      ClientSteps.Cases(h, a);
      ClientSteps4(h, a);
      ClientSteps5(h, a);
      ClientSteps6(h, a);
    }
  }

  lemma ServerSwitches(h: Hs, a: Answer)
    requires h.cfg.Server? && O.InPlace(h) && Can(h, Run(a)) && Switched(h)
    ensures Steps(h, ServerSteps.Do(h, a))
  {
    hide ServerSteps.Do, Steps, Switched;
    if FirstServerHalf(h.state) {
      hide O.InPlace;
      ServerSteps.Cases1(h, a);
      ServerSteps1(h, a);
      ServerSteps2(h, a);
      ServerSteps6(h, a);
      ServerSteps3(h, a);
    } else {
      LastServerHalf(h);
      hide O.InPlace;
      ServerSteps.Cases1(h, a);
      ServerSteps.Cases2(h, a);
      ServerSteps3(h, a);
      ServerSteps4(h, a);
      ServerSteps7(h, a);
      ServerSteps9(h, a);
      ServerSteps5(h, a);
      ServerSteps8(h, a);
    }
  }

  lemma OtherSwitches(got: seq<Rec>, h: Hs, act: Act)
    requires CcsCame(got, h) && (forall r | r in h.inbox :: r in got) && Can(h, act) && !act.Run?
    ensures CcsCame(got, Act1(h, act))
  {
  }

  lemma ArriveSwitches(got: seq<Rec>, h: Hs, r: Rec)
    requires CcsCame(got, h)
    ensures CcsCame(got + [r], h.(inbox := h.inbox + [r]))
  {
  }

  lemma {:induction false} RunSwitches(cfg: Config, run: seq<R.Event>)
    requires R.Possible(cfg, run)
    ensures CcsCame(Received(run), R.After(cfg, run).h)
  {
    if run != [] {
      var before, e := run[..|run| - 1], run[|run| - 1];
      var t, got := R.After(cfg, before), Received(before);
      RunSwitches(cfg, before);
      RunCame(cfg, before);
      O.TurnsBounded(cfg, before);
      assert (forall r | r in t.h.inbox :: r in got) && Switched(t.h);
      hide O.InPlace, O.EndWork, ClientSteps.Do, ServerSteps.Do, Steps, Switched, Came;
      match e {
        case Turn(act) =>
          assert Received(run) == got;
          if act.Run? {
            if t.h.cfg.Client? {
              ClientSwitches(t.h, act.a);
            } else {
              ServerSwitches(t.h, act.a);
            }
            StepsCame(got, t.h, Act1(t.h, act));
          } else {
            OtherSwitches(got, t.h, act);
          }
        case Arrive(r) => ArriveSwitches(got, t.h, r);
      }
    }
  }

  /** An end reads under the new keys only after a ChangeCipherSpec has arrived in the clear; so whenever it is done one
      has. */
  lemma ChangeCipherSpecArrived(cfg: Config, run: seq<R.Event>)
    requires R.Possible(cfg, run)
    ensures var h := R.After(cfg, run).h;
            h.keys.read || h.state.Done? ==> ChangeCipherSpec(false) in Received(run)
  {
    RunSwitches(cfg, run);
    hide R.After, R.Possible, Received;
    if R.After(cfg, run).h.state.Done? {
      O.DoneChecked(cfg, run);
    }
  }
}
