/** One end of a handshake against anyone: whatever records arrive and however its operations answer, it is done only
    after one Finished message sent and one checked, and it stops within a bounded number of turns. */
module OneEnd {
  import opened Bytes
  import opened HandshakeState
  import opened HandshakeScript
  import opened HandshakeProduct
  import R = Retries
  import HandshakeRuns
  import HandshakeLocal
  import ClientSteps
  import ServerSteps

  function Resumed(h: Hs): bool {
    h.known.params.resumed
  }

  // What a turn of the state machine does to the state.

  /** The end is held up where it is, by an error, an operation that is pending, or for want of a message. */
  ghost predicate Stays(h: Hs, h': Hs) {
    && h' == h.Stop(h'.wait)
    && (h'.wait.Error? || h'.wait.Pending? || (h'.wait.ReadMessage? && h.held.None?))
  }

  /** The end goes on to the next state; its flight grows by at most four records. */
  ghost predicate GoesOn(h: Hs, h': Hs) {
    && h'.cfg == h.cfg && h'.inbox == h.inbox
    && Number(h'.state) == Succ(Number(h.state), Resumed(h'))
    && (Resumed(h') == Resumed(h) || Number(h.state) == 2 || Number(h.state) == 21)
    && (h'.wait.Ok? || h'.wait.Flush? || h'.wait.ReadCcs? || h'.wait.EarlyReturn?)
    && |h'.flight| <= |h.flight| + 4
  }

  ghost predicate Moved(h: Hs, h': Hs) {
    Stays(h, h') || GoesOn(h, h')
  }

  lemma ClientMoves1(h: Hs, a: Answer)
    requires h.cfg.Client? && FirstClientHalf(h.state) && Visits(Number(h.state), false, Resumed(h))
    ensures Moved(h, ClientSteps.Do(h, a))
  {
  }

  lemma ClientMoves2(h: Hs, a: Answer)
    requires h.cfg.Client? && Visits(Number(h.state), false, Resumed(h))
    requires h.state.SendClientCertificate? || h.state.SendClientKeyExchange?
             || h.state.SendClientCertificateVerify? || h.state.SendClientFinished?
    ensures Moved(h, ClientSteps.Do(h, a))
  {
    hide Number, ClientSteps.Do;
    HandshakeLocal.ClientNumbers();
    ClientSteps.Cases(h, a);
  }

  lemma ClientMoves3(h: Hs, a: Answer)
    requires h.cfg.Client? && Visits(Number(h.state), false, Resumed(h))
    requires h.state.FinishFlight? || h.state.ReadSessionTicket? || h.state.ProcessServerCcs?
             || h.state.ReadServerFinished? || h.state.FinishClientHandshake?
    ensures Moved(h, ClientSteps.Do(h, a))
  {
    hide Number, ClientSteps.Do;
    HandshakeLocal.ClientNumbers();
    ClientSteps.Cases(h, a);
  }

  lemma ServerMoves1(h: Hs, a: Answer)
    requires h.cfg.Server? && Visits(Number(h.state), true, Resumed(h))
    requires h.state.StartAccept? || h.state.ReadClientHello? || h.state.SelectCertificate?
    ensures Moved(h, ServerSteps.Do(h, a))
  {
  }

  lemma ServerMoves2(h: Hs, a: Answer)
    requires h.cfg.Server? && Visits(Number(h.state), true, Resumed(h))
    requires h.state.SelectParameters? || h.state.SendServerHello? || h.state.SendServerCertificate?
    ensures Moved(h, ServerSteps.Do(h, a))
  {
    hide Number, ServerSteps.Do;
    HandshakeLocal.ServerNumbers1();
    HandshakeLocal.ServerNumbers3();
    ServerSteps.Cases1(h, a);
  }

  lemma ServerMoves3(h: Hs, a: Answer)
    requires h.cfg.Server? && Visits(Number(h.state), true, Resumed(h))
    requires h.state.SendServerKeyExchange? || h.state.SendServerHelloDone? || h.state.ReadClientCertificate?
    ensures Moved(h, ServerSteps.Do(h, a))
  {
    hide Number, ServerSteps.Do;
    HandshakeLocal.ServerNumbers1();
    HandshakeLocal.ServerNumbers2();
    ServerSteps.Cases1(h, a);
  }

  lemma ServerMoves4(h: Hs, a: Answer)
    requires h.cfg.Server? && Visits(Number(h.state), true, Resumed(h))
    requires h.state.VerifyClientCertificate? || h.state.ReadClientKeyExchange?
             || h.state.ReadClientCertificateVerify?
    ensures Moved(h, ServerSteps.Do(h, a))
  {
    hide Number, ServerSteps.Do;
    HandshakeLocal.ServerNumbers2();
    ServerSteps.Cases1(h, a);
    ServerSteps.Cases2(h, a);
  }

  lemma ServerMoves5(h: Hs, a: Answer)
    requires h.cfg.Server? && Visits(Number(h.state), true, Resumed(h))
    requires h.state.ReadClientCcs? || h.state.ProcessClientCcs? || h.state.ReadNextProto?
             || h.state.ReadChannelId?
    ensures Moved(h, ServerSteps.Do(h, a))
  {
    hide Number, ServerSteps.Do;
    HandshakeLocal.ServerNumbers2();
    HandshakeLocal.ServerNumbers3();
    ServerSteps.Cases2(h, a);
  }

  lemma ServerMoves6(h: Hs, a: Answer)
    requires h.cfg.Server? && Visits(Number(h.state), true, Resumed(h))
    requires h.state.ReadClientFinished? || h.state.SendServerFinished? || h.state.FinishServerHandshake?
    ensures Moved(h, ServerSteps.Do(h, a))
  {
    hide Number, ServerSteps.Do;
    HandshakeLocal.ServerNumbers2();
    HandshakeLocal.ServerNumbers3();
    ServerSteps.Cases2(h, a);
  }

  lemma ClientMoves(h: Hs, a: Answer)
    requires h.cfg.Client? && Visits(Number(h.state), false, Resumed(h)) && !h.state.Done?
    ensures Moved(h, ClientSteps.Do(h, a))
  {
    hide Moved, ClientSteps.Do;
    if FirstClientHalf(h.state) {
      ClientMoves1(h, a);
    } else if h.state.SendClientCertificate? || h.state.SendClientKeyExchange? || h.state.SendClientCertificateVerify?
              || h.state.SendClientFinished? {
      ClientMoves2(h, a);
    } else {
      ClientMoves3(h, a);
    }
  }

  lemma ServerMoves(h: Hs, a: Answer)
    requires h.cfg.Server? && Visits(Number(h.state), true, Resumed(h)) && !h.state.Done?
    ensures Moved(h, ServerSteps.Do(h, a))
  {
    hide Moved, ServerSteps.Do;
    if h.state.StartAccept? || h.state.ReadClientHello? || h.state.SelectCertificate? {
      ServerMoves1(h, a);
    } else if h.state.SelectParameters? || h.state.SendServerHello? || h.state.SendServerCertificate? {
      ServerMoves2(h, a);
    } else if h.state.SendServerKeyExchange? || h.state.SendServerHelloDone? || h.state.ReadClientCertificate? {
      ServerMoves3(h, a);
    } else if h.state.VerifyClientCertificate? || h.state.ReadClientKeyExchange?
              || h.state.ReadClientCertificateVerify? {
      ServerMoves4(h, a);
    } else if h.state.ReadClientCcs? || h.state.ProcessClientCcs? || h.state.ReadNextProto? || h.state.ReadChannelId? {
      ServerMoves5(h, a);
    } else {
      ServerMoves6(h, a);
    }
  }

  // How long it can take.

  /** The end is in a state of its own machine, one that this sort of handshake goes through. */
  predicate InPlace(h: Hs) {
    var n := Number(h.state);
    Visits(n, h.cfg.Server?, Resumed(h)) && (n <= 2 || 18 <= n <= 21 ==> !Resumed(h))
  }

  /** What is left to do in a state; an operation that is pending is as if it had not been asked. */
  function Left(h: Hs): nat {
    match h.wait
    case Ok => if h.held.None? then 3 else 1
    case Pending(_) => if h.held.None? then 3 else 1
    case ReadMessage => 2
    case Flush => 5
    case ReadCcs => 4
    case EarlyReturn => 4
    case Error => 0
  }

  function EndWork(h: Hs): nat {
    16 * HandshakeRuns.Rank(Number(h.state), Resumed(h)) + |h.flight| + Left(h)
  }

  lemma GoesWorks(h: Hs, h': Hs)
    requires InPlace(h) && h.wait.Ok? && !h.state.Done? && GoesOn(h, h')
    ensures InPlace(h') && EndWork(h') < EndWork(h)
  {
    var n := Number(h.state);
    HandshakeRuns.NumberBound(h.state);
    hide Number;
    HandshakeRuns.RankFalls(n, h.cfg.Server?, Resumed(h'));
    assert HandshakeRuns.Rank(n, Resumed(h')) <= HandshakeRuns.Rank(n, Resumed(h));
    assert var n' := Number(h'.state); n' <= 2 || 18 <= n' <= 21 ==> n' == n + 1;
    hide HandshakeRuns.Rank, Succ, Visits;
  }

  lemma RunWorks(h: Hs, a: Answer)
    requires InPlace(h) && Can(h, Run(a))
    ensures var h' := Act1(h, Run(a));
            InPlace(h') && if h'.wait.Pending? then EndWork(h') == EndWork(h) else EndWork(h') < EndWork(h)
  {
    hide ClientSteps.Do, ServerSteps.Do, HandshakeRuns.Rank, Number, GoesOn;
    if h.cfg.Client? {
      ClientMoves(h, a);
    } else {
      ServerMoves(h, a);
    }
    var h' := Act1(h, Run(a));
    if GoesOn(h, h') {
      GoesWorks(h, h');
      GoesNotPending(h, h');
    }
    hide Visits;
  }

  lemma GoesNotPending(h: Hs, h': Hs)
    requires GoesOn(h, h')
    ensures !h'.wait.Pending?
  {
  }

  lemma OtherWorks(h: Hs, act: Act)
    requires InPlace(h) && Can(h, act) && !act.Run?
    ensures var h' := Act1(h, act);
            InPlace(h') && if h.wait.Pending? then EndWork(h') == EndWork(h) else EndWork(h') < EndWork(h)
  {
    hide HandshakeRuns.Rank, Number, Visits;
  }

  /** The turns that do not just ask for an operation that is pending, or come back to it. */
  function TurnCount(cfg: Config, run: seq<R.Event>): nat
    requires R.Possible(cfg, run)
  {
    if run == [] then 0
    else
      var before, e := R.After(cfg, run[..|run| - 1]), run[|run| - 1];
      TurnCount(cfg, run[..|run| - 1]) + if e.Turn? && !R.Idle(before, e) then 1 else 0
  }

  lemma StepWorks(t: R.Track, e: R.Event)
    requires InPlace(t.h) && R.Enabled(t, e)
    ensures InPlace(R.Step(t, e).h)
    ensures EndWork(R.Step(t, e).h) + (if e.Turn? && !R.Idle(t, e) then 1 else 0) <= EndWork(t.h)
  {
    hide Act1, HandshakeRuns.Rank, Number, InPlace;
    match e {
      case Turn(act) =>
        if act.Run? {
          RunWorks(t.h, act.a);
        } else {
          OtherWorks(t.h, act);
        }
        hide EndWork;
      case Arrive(r) => ArriveSame(t.h, r);
    }
  }

  lemma ArriveSame(h: Hs, r: Rec)
    ensures InPlace(h.(inbox := h.inbox + [r])) == InPlace(h)
  {
    hide Number, Visits;
  }

  /** Whoever is on the other side and whatever records it sends, an end has at most 307 turns, besides those for
      operations that are pending. */
  lemma {:induction false} TurnsBounded(cfg: Config, run: seq<R.Event>)
    requires R.Possible(cfg, run)
    ensures InPlace(R.After(cfg, run).h) && TurnCount(cfg, run) + EndWork(R.After(cfg, run).h) <= 307
  {
    if run != [] {
      var before, e := R.After(cfg, run[..|run| - 1]), run[|run| - 1];
      TurnsBounded(cfg, run[..|run| - 1]);
      StepWorks(before, e);
      hide R.Step, R.Enabled, R.Idle, EndWork, InPlace;
    }
  }

  /** And it is never stuck: unless it is done, has met an error, or waits for a record that has not come, it has a
      turn. */
  lemma NotStuck(h: Hs) returns (act: Act)
    requires !(h.state.Done? && h.wait.Ok?) && !h.wait.Error?
    requires (h.wait.ReadMessage? || h.wait.ReadCcs?) ==> h.inbox != []
    ensures Can(h, act) && act != Run(Fail)
  {
    act := if h.wait.Ok? then Run(Ready)
           else if h.wait.Flush? then Accept(|h.flight|)
           else if h.wait.ReadMessage? || h.wait.ReadCcs? then Take
           else CallAgain;
  }

  // The Finished messages.

  /** How many of the two Finished messages an end has behind it in a state. */
  function Phase(s: State, resumed: bool): nat {
    match s
    case SendClientFinished => if resumed then 1 else 0
    case FinishFlight => if resumed then 2 else 1
    case ReadSessionTicket => if resumed then 0 else 1
    case ProcessServerCcs => if resumed then 0 else 1
    case ReadServerFinished => if resumed then 0 else 1
    case FinishClientHandshake => 2
    case SendServerFinished => if resumed then 0 else 1
    case ReadClientCcs => if resumed then 1 else 0
    case ProcessClientCcs => if resumed then 1 else 0
    case ReadNextProto => if resumed then 1 else 0
    case ReadChannelId => if resumed then 1 else 0
    case ReadClientFinished => if resumed then 1 else 0
    case FinishServerHandshake => 2
    case Done => 2
    case _ => 0
  }

  /** The states behind a ChangeCipherSpec of the other end. */
  predicate ReadsSealed(s: State, resumed: bool) {
    match s
    case ReadServerFinished => true
    case SendClientFinished => resumed
    case FinishFlight => resumed
    case FinishClientHandshake => true
    case ReadNextProto => true
    case ReadChannelId => true
    case ReadClientFinished => true
    case SendServerFinished => !resumed
    case FinishServerHandshake => true
    case Done => true
    case _ => false
  }

  /** The Finished messages of a log: the server's comes first if resumed. Each is over all that was before it. */
  ghost predicate Order(log: Log, resumed: bool, phase: nat) {
    var first := if resumed then log.serverFinished else log.clientFinished;
    var second := if resumed then log.clientFinished else log.serverFinished;
    && FinishedIn(log.transcript, resumed) == (if phase > 0 then 1 else 0)
    && FinishedIn(log.transcript, !resumed) == (if phase > 1 then 1 else 0)
    && (first.Some? <==> phase > 0) && (second.Some? <==> phase > 1)
    && (phase == 1 ==> first.value + [Finished(resumed, first.value)] <= log.transcript)
    && (phase > 1 ==>
          && first.value + [Finished(resumed, first.value)] <= second.value
          && log.transcript == second.value + [Finished(!resumed, second.value)])
  }

  lemma OrderAdd(log: Log, resumed: bool, phase: nat, m: Msg)
    requires Order(log, resumed, phase) && phase <= 1 && !m.Finished?
    ensures Order(log.Add(m), resumed, phase)
  {
    FinishedAdd(log.transcript, m, true);
    FinishedAdd(log.transcript, m, false);
    hide FinishedIn;
  }

  lemma OrderFinish(log: Log, resumed: bool, phase: nat)
    requires Order(log, resumed, phase) && phase <= 1
    ensures Order(log.Finish(if phase == 0 then resumed else !resumed), resumed, phase + 1)
  {
    var fromServer := if phase == 0 then resumed else !resumed;
    FinishedAdd(log.transcript, Finished(fromServer, log.transcript), true);
    FinishedAdd(log.transcript, Finished(fromServer, log.transcript), false);
    hide FinishedIn;
  }

  /** Which of the two is first does not matter before there is any. */
  lemma OrderNone(log: Log, resumed: bool)
    ensures Order(log, resumed, 0) <==> Order(log, !resumed, 0)
  {
    hide FinishedIn;
  }

  /** How many Finished messages are among the records. */
  function FinishedSent(s: seq<Rec>): nat {
    if s == [] then 0
    else
      var r := s[|s| - 1];
      FinishedSent(s[..|s| - 1]) + if r.Handshake? && r.msg.Finished? then 1 else 0
  }

  lemma SentAdd(s: seq<Rec>, r: Rec)
    ensures FinishedSent(s + [r]) == FinishedSent(s) + if r.Handshake? && r.msg.Finished? then 1 else 0
  {
    assert (s + [r])[..|s|] == s;
  }

  /** What an end has put out: its own Finished message just if the log has it, and that under the new keys. */
  ghost predicate Offered(own: Option<seq<Msg>>, server: bool, out: seq<Rec>, keys: Keys) {
    && FinishedSent(out) == (if own.Some? then 1 else 0)
    && (own.Some? ==> keys.write && Handshake(Finished(server, own.value), true) in out)
  }

  function Own(log: Log, server: bool): Option<seq<Msg>> {
    if server then log.serverFinished else log.clientFinished
  }

  /** What holds of an end and of what its transport has taken. */
  ghost predicate Sound(sent: seq<Rec>, h: Hs) {
    && InPlace(h)
    && Order(h.log, Resumed(h), Phase(h.state, Resumed(h)))
    && Offered(Own(h.log, h.cfg.Server?), h.cfg.Server?, sent + h.flight, h.keys)
    && (ReadsSealed(h.state, Resumed(h)) ==> h.keys.read)
  }

  // Steps that read a message, or nothing.

  /** The step neither sends nor reads a Finished message. */
  ghost predicate Reads(h: Hs, h': Hs) {
    && h'.cfg == h.cfg && h'.flight == h.flight && h'.keys.write == h.keys.write
    && Phase(h'.state, Resumed(h')) == Phase(h.state, Resumed(h))
    && (Resumed(h') == Resumed(h) || Phase(h.state, Resumed(h)) == 0)
    && (ReadsSealed(h'.state, Resumed(h')) ==> h'.keys.read || (ReadsSealed(h.state, Resumed(h)) && h'.keys == h.keys))
    && (h'.log == h.log
        || (h.held.Some? && !h.held.value.Finished? && h'.log == h.log.Add(h.held.value)
            && Phase(h.state, Resumed(h)) <= 1))
  }

  lemma ReadsSound(sent: seq<Rec>, h: Hs, h': Hs)
    requires Sound(sent, h) && InPlace(h') && Reads(h, h')
    ensures Sound(sent, h')
  {
    var phase := Phase(h.state, Resumed(h));
    hide Phase, ReadsSealed, InPlace;
    if h'.log != h.log {
      OrderAdd(h.log, Resumed(h), phase, h.held.value);
    }
    if Resumed(h') != Resumed(h) {
      OrderNone(h'.log, Resumed(h));
    }
    hide Order, Offered;
  }

  lemma ClientReads1(h: Hs, a: Answer)
    requires h.cfg.Client? && FirstClientHalf(h.state) && !h.state.StartConnect?
    ensures Reads(h, ClientSteps.Do(h, a))
  {
  }

  lemma ClientReads2(h: Hs, a: Answer)
    requires h.cfg.Client?
    requires h.state.FinishFlight? || h.state.ReadSessionTicket? || h.state.ProcessServerCcs?
             || h.state.FinishClientHandshake?
    ensures Reads(h, ClientSteps.Do(h, a))
  {
    hide ClientSteps.Do;
    ClientSteps.Cases(h, a);
  }

  lemma ServerReads1(h: Hs, a: Answer)
    requires h.cfg.Server?
    requires h.state.StartAccept? || h.state.ReadClientHello? || h.state.SelectCertificate? || h.state.SelectParameters?
    ensures Reads(h, ServerSteps.Do(h, a))
  {
    hide ServerSteps.Do;
    ServerSteps.Cases1(h, a);
  }

  lemma ServerReads2(h: Hs, a: Answer)
    requires h.cfg.Server? && !Resumed(h)
    requires h.state.ReadClientCertificate? || h.state.VerifyClientCertificate? || h.state.ReadClientKeyExchange?
             || h.state.ReadClientCertificateVerify?
    ensures Reads(h, ServerSteps.Do(h, a))
  {
    hide ServerSteps.Do;
    ServerSteps.Cases1(h, a);
    ServerSteps.Cases2(h, a);
  }

  lemma ServerReads3(h: Hs, a: Answer)
    requires h.cfg.Server? && (h.state.ReadNextProto? || h.state.ReadChannelId?)
    ensures Reads(h, ServerSteps.Do(h, a))
  {
    hide ServerSteps.Do;
    ServerSteps.Cases2(h, a);
  }

  lemma ServerReads4(h: Hs, a: Answer)
    requires h.cfg.Server?
    requires h.state.ReadClientCcs? || h.state.ProcessClientCcs? || h.state.FinishServerHandshake?
    ensures Reads(h, ServerSteps.Do(h, a))
  {
    hide ServerSteps.Do;
    ServerSteps.Cases2(h, a);
  }

  // Steps that add messages.

  /** An end whose log, flight and keys are those of another. */
  ghost predicate Same(h: Hs, h': Hs) {
    h'.cfg == h.cfg && h'.log == h.log && h'.flight == h.flight && h'.keys == h.keys
  }

  /** The Finished messages of a log and of what was put out, whatever the state. */
  ghost predicate Kept(sent: seq<Rec>, h: Hs, resumed: bool, phase: nat) {
    && Order(h.log, resumed, phase)
    && Offered(Own(h.log, h.cfg.Server?), h.cfg.Server?, sent + h.flight, h.keys)
  }

  lemma KeptAdd(sent: seq<Rec>, h: Hs, resumed: bool, phase: nat, m: Msg)
    requires Kept(sent, h, resumed, phase) && phase <= 1 && !m.Finished?
    ensures Kept(sent, h.Add(m), resumed, phase)
  {
    var r := HandshakeState.Handshake(m, h.keys.write);
    assert sent + (h.flight + [r]) == sent + h.flight + [r];
    OrderAdd(h.log, resumed, phase, m);
    SentAdd(sent + h.flight, r);
    hide Order, FinishedSent;
  }

  lemma KeptMaybe(sent: seq<Rec>, h: Hs, h': Hs, resumed: bool, phase: nat, m: Msg)
    requires Kept(sent, h, resumed, phase) && phase <= 1 && !m.Finished? && (h' == h || h' == h.Add(m))
    ensures Kept(sent, h', resumed, phase)
  {
    KeptAdd(sent, h, resumed, phase, m);
    hide Order, Offered;
  }

  lemma KeptCcs(sent: seq<Rec>, h: Hs, resumed: bool, phase: nat)
    requires Kept(sent, h, resumed, phase)
    ensures Kept(sent, h.ChangeWriteKeys(), resumed, phase)
  {
    var r := ChangeCipherSpec(h.keys.write);
    assert sent + (h.flight + [r]) == sent + h.flight + [r];
    SentAdd(sent + h.flight, r);
    hide Order, FinishedSent;
  }

  lemma KeptSend(sent: seq<Rec>, h: Hs, resumed: bool, phase: nat)
    requires Kept(sent, h, resumed, phase) && phase <= 1 && h.keys.write
    requires h.cfg.Server? == if phase == 0 then resumed else !resumed
    ensures Kept(sent, h.AddFinished(h.cfg.Server?), resumed, phase + 1)
  {
    var r := HandshakeState.Handshake(Finished(h.cfg.Server?, h.log.transcript), true);
    assert sent + (h.flight + [r]) == sent + h.flight + [r];
    OrderFinish(h.log, resumed, phase);
    SentAdd(sent + h.flight, r);
    assert r in sent + h.flight + [r];
    hide FinishedSent, FinishedIn;
  }

  lemma KeptTake(sent: seq<Rec>, h: Hs, resumed: bool, phase: nat)
    requires Kept(sent, h, resumed, phase) && phase <= 1
    requires h.cfg.Server? != if phase == 0 then resumed else !resumed
    ensures Kept(sent, h.(log := h.log.Finish(!h.cfg.Server?)), resumed, phase + 1)
  {
    OrderFinish(h.log, resumed, phase);
    hide FinishedSent, Order;
  }

  lemma KeptSame(sent: seq<Rec>, h: Hs, h': Hs, resumed: bool, phase: nat)
    requires Kept(sent, h, resumed, phase) && Same(h, h')
    ensures Kept(sent, h', resumed, phase)
  {
    hide Order, Offered;
  }

  /** A step that sends messages, none of them a Finished message. */
  ghost predicate Sends(sent: seq<Rec>, h: Hs, h': Hs) {
    && Kept(sent, h', Resumed(h), Phase(h.state, Resumed(h))) && h'.cfg == h.cfg && Resumed(h') == Resumed(h)
    && Phase(h'.state, Resumed(h')) == Phase(h.state, Resumed(h))
    && (ReadsSealed(h'.state, Resumed(h')) ==> h'.keys.read)
  }

  lemma SendsSound(sent: seq<Rec>, h: Hs, h': Hs)
    requires InPlace(h') && Sends(sent, h, h')
    ensures Sound(sent, h')
  {
    hide Order, Offered, InPlace, Phase, ReadsSealed;
  }

  /** At most one message more. */
  lemma SendsOne(sent: seq<Rec>, h: Hs, h': Hs, m: Msg)
    requires Kept(sent, h, Resumed(h), 0) && Phase(h.state, Resumed(h)) == Phase(h'.state, Resumed(h')) == 0
    requires Resumed(h') == Resumed(h) && !m.Finished? && !ReadsSealed(h'.state, Resumed(h'))
    requires Same(h, h') || Same(h.Add(m), h')
    ensures Sends(sent, h, h')
  {
    KeptAdd(sent, h, Resumed(h), 0, m);
    hide Order, Offered, Phase, ReadsSealed;
    if Same(h, h') {
      KeptSame(sent, h, h', Resumed(h), 0);
    } else {
      KeptSame(sent, h.Add(m), h', Resumed(h), 0);
    }
  }

  /** At most two. */
  lemma SendsTwo(sent: seq<Rec>, h: Hs, h': Hs, m: Msg, m': Msg)
    requires Kept(sent, h, Resumed(h), 0) && Phase(h.state, Resumed(h)) == Phase(h'.state, Resumed(h')) == 0
    requires Resumed(h') == Resumed(h) && !m.Finished? && !m'.Finished? && !ReadsSealed(h'.state, Resumed(h'))
    requires Same(h, h') || Same(h.Add(m), h') || Same(h.Add(m'), h') || Same(h.Add(m).Add(m'), h')
    ensures Sends(sent, h, h')
  {
    if Same(h.Add(m).Add(m'), h') {
      KeptAdd(sent, h, Resumed(h), 0, m);
      KeptAdd(sent, h.Add(m), Resumed(h), 0, m');
      hide Order, Offered, Phase, ReadsSealed;
      KeptSame(sent, h.Add(m).Add(m'), h', Resumed(h), 0);
    } else if Same(h.Add(m'), h') {
      SendsOne(sent, h, h', m');
    } else {
      SendsOne(sent, h, h', m);
    }
  }

  lemma ClientSends(sent: seq<Rec>, h: Hs, a: Answer)
    requires Sound(sent, h) && h.cfg.Client?
    requires h.state.StartConnect? || h.state.SendClientCertificate? || h.state.SendClientKeyExchange?
             || h.state.SendClientCertificateVerify?
    ensures Sends(sent, h, ClientSteps.Do(h, a))
  {
    var h' := ClientSteps.Do(h, a);
    assert Kept(sent, h, Resumed(h), 0);
    hide Order, Offered, InPlace;
    var m := match h.state
      case StartConnect => ClientHello(h.cfg.offersSession)
      case SendClientCertificate => Certificate(h.cfg.hasCert)
      case SendClientKeyExchange => ClientKeyExchange
      case _ => CertificateVerify(h.log.transcript);
    hide Sends, Kept;
    SendsOne(sent, h, h', m);
  }

  lemma ServerSends(sent: seq<Rec>, h: Hs, a: Answer)
    requires Sound(sent, h) && h.cfg.Server?
    requires h.state.SendServerHello? || h.state.SendServerCertificate? || h.state.SendServerKeyExchange?
             || h.state.SendServerHelloDone?
    ensures Sends(sent, h, ServerSteps.Do(h, a))
  {
    var h' := ServerSteps.Do(h, a);
    assert Kept(sent, h, Resumed(h), 0);
    ServerSteps.Cases1(h, a);
    hide Order, Offered, InPlace, ServerSteps.Do, Sends, Kept;
    match h.state {
      case SendServerHello => SendsOne(sent, h, h', ServerHello(h'.known.params));
      case SendServerCertificate => SendsTwo(sent, h, h', Certificate(true), CertificateStatus);
      case SendServerKeyExchange => SendsOne(sent, h, h', ServerKeyExchange);
      case SendServerHelloDone => SendsTwo(sent, h, h', CertificateRequest, ServerHelloDone);
    }
  }

  // Steps that send or read a Finished message.

  /** The flight in which an end changes its keys and sends its Finished message. */
  lemma KeptFlight(sent: seq<Rec>, h: Hs, h1: Hs, h2: Hs, h3: Hs, resumed: bool, phase: nat, a: Msg, b: Msg)
    requires Kept(sent, h, resumed, phase) && phase <= 1 && h.cfg.Server? == if phase == 0 then resumed else !resumed
    requires h1 == h.ChangeWriteKeys() && !a.Finished? && !b.Finished?
    requires (h2 == h1 || h2 == h1.Add(a)) && (h3 == h2 || h3 == h2.Add(b))
    ensures Kept(sent, h3.AddFinished(h.cfg.Server?), resumed, phase + 1)
  {
    KeptCcs(sent, h, resumed, phase);
    KeptMaybe(sent, h1, h2, resumed, phase, a);
    KeptMaybe(sent, h2, h3, resumed, phase, b);
    hide Order, Offered;
    KeptSend(sent, h3, resumed, phase);
  }

  lemma ClientWrites(sent: seq<Rec>, h: Hs, resumed: bool, phase: nat)
    requires Kept(sent, h, resumed, phase) && phase <= 1 && h.cfg.Client? && resumed == (phase == 1)
    ensures Kept(sent, ClientSteps.WriteClientFinished(h), resumed, phase + 1)
  {
    hide Order, Offered;
    var h1 := h.ChangeWriteKeys();
    var h2 := if h.known.params.npn then h1.Add(NextProto) else h1;
    var h3 := if h.known.params.channelId then h2.Add(ChannelId(h2.log.transcript)) else h2;
    KeptFlight(sent, h, h1, h2, h3, resumed, phase, NextProto, ChannelId(h2.log.transcript));
    KeptSame(sent, h3.AddFinished(false), ClientSteps.WriteClientFinished(h), resumed, phase + 1);
  }

  lemma ServerWrites(sent: seq<Rec>, h: Hs, resumed: bool, phase: nat)
    requires Kept(sent, h, resumed, phase) && phase <= 1 && h.cfg.Server? && resumed == (phase == 0)
    ensures Kept(sent, ServerSteps.DoSendServerFinished(h), resumed, phase + 1)
  {
    hide Order, Offered;
    var m := NewSessionTicket(h.cfg.emptyTicket);
    var h1 := if h.known.ticketExpected then h.Add(m) else h;
    KeptMaybe(sent, h, h1, resumed, phase, m);
    var h2 := h1.ChangeWriteKeys();
    KeptFlight(sent, h1, h2, h2, h2, resumed, phase, m, m);
    KeptSame(sent, h2.AddFinished(true), ServerSteps.DoSendServerFinished(h), resumed, phase + 1);
  }

  /** A Finished message that is not over the transcript is refused, and one that is becomes part of it. */
  lemma Checks(sent: seq<Rec>, h: Hs, next: State, resumed: bool, phase: nat)
    requires Kept(sent, h, resumed, phase) && phase <= 1 && h.held.Some?
    requires h.cfg.Server? != if phase == 0 then resumed else !resumed
    ensures var h' := h.TakeFinished(!h.cfg.Server?, next);
            h' == h.Stop(Error) || Kept(sent, h', resumed, phase + 1)
  {
    KeptTake(sent, h, resumed, phase);
    hide Order, Offered;
    var h' := h.TakeFinished(!h.cfg.Server?, next);
    if h' != h.Stop(Error) {
      KeptSame(sent, h.(log := h.log.Finish(!h.cfg.Server?)), h', resumed, phase + 1);
    }
  }

  /** The end after a Finished message more. */
  lemma FinishSound(sent: seq<Rec>, h: Hs, h': Hs)
    requires Sound(sent, h) && InPlace(h') && Resumed(h') == Resumed(h) && Phase(h.state, Resumed(h)) <= 1
    requires Kept(sent, h', Resumed(h), Phase(h.state, Resumed(h)) + 1)
    requires Phase(h'.state, Resumed(h')) == Phase(h.state, Resumed(h)) + 1
    requires ReadsSealed(h'.state, Resumed(h')) ==> h'.keys.read
    ensures Sound(sent, h')
  {
    hide Order, Offered, InPlace, Phase, ReadsSealed;
  }

  lemma StaysSound(sent: seq<Rec>, h: Hs, h': Hs)
    requires Sound(sent, h) && h' == h.Stop(h'.wait)
    ensures Sound(sent, h')
  {
    hide Order, Offered, Phase, ReadsSealed, Number, Visits;
  }

  lemma CheckSound(sent: seq<Rec>, h: Hs, h': Hs, next: State)
    requires Sound(sent, h) && InPlace(h') && Phase(h.state, Resumed(h)) <= 1 && ReadsSealed(h.state, Resumed(h))
    requires h' == if h.held.None? then h.Stop(ReadMessage) else h.TakeFinished(!h.cfg.Server?, next)
    requires Phase(next, Resumed(h)) == Phase(h.state, Resumed(h)) + 1
    requires h.cfg.Server? != if Phase(h.state, Resumed(h)) == 0 then Resumed(h) else !Resumed(h)
    ensures Sound(sent, h')
  {
    hide Order, Offered, InPlace, Phase, ReadsSealed;
    if h' == h.Stop(h'.wait) {
      StaysSound(sent, h, h');
    } else {
      assert Kept(sent, h, Resumed(h), Phase(h.state, Resumed(h)));
      Checks(sent, h, next, Resumed(h), Phase(h.state, Resumed(h)));
      FinishSound(sent, h, h');
    }
  }

  lemma ClientFinishes(sent: seq<Rec>, h: Hs, a: Answer)
    requires Sound(sent, h) && h.cfg.Client? && h.state.SendClientFinished?
    requires InPlace(ClientSteps.DoSendClientFinished(h, a))
    ensures Sound(sent, ClientSteps.DoSendClientFinished(h, a))
  {
    var h', r := ClientSteps.DoSendClientFinished(h, a), Resumed(h);
    hide Order, Offered, InPlace;
    if h' == h.Stop(h'.wait) {
      StaysSound(sent, h, h');
    } else {
      assert Kept(sent, h, r, Phase(h.state, r));
      ClientWrites(sent, h, r, Phase(h.state, r));
      FinishSound(sent, h, h');
    }
  }

  lemma ServerFinishes(sent: seq<Rec>, h: Hs)
    requires Sound(sent, h) && h.cfg.Server? && h.state.SendServerFinished?
    requires InPlace(ServerSteps.DoSendServerFinished(h))
    ensures Sound(sent, ServerSteps.DoSendServerFinished(h))
  {
    hide Order, Offered, InPlace;
    assert Kept(sent, h, Resumed(h), Phase(h.state, Resumed(h)));
    ServerWrites(sent, h, Resumed(h), Phase(h.state, Resumed(h)));
    FinishSound(sent, h, ServerSteps.DoSendServerFinished(h));
  }

  lemma ClientReads(h: Hs, a: Answer)
    requires InPlace(h) && h.cfg.Client? && !h.state.Done? && !h.state.StartConnect?
    requires !h.state.SendClientCertificate? && !h.state.SendClientKeyExchange? && !h.state.SendClientCertificateVerify?
    requires !h.state.SendClientFinished? && !h.state.ReadServerFinished?
    ensures Reads(h, ClientSteps.Do(h, a))
  {
    hide Reads, ClientSteps.Do;
    if FirstClientHalf(h.state) {
      ClientReads1(h, a);
    } else {
      ClientReads2(h, a);
    }
  }

  lemma ServerReads(h: Hs, a: Answer)
    requires InPlace(h) && h.cfg.Server? && !h.state.Done? && !h.state.SendServerHello?
    requires !h.state.SendServerCertificate? && !h.state.SendServerKeyExchange? && !h.state.SendServerHelloDone?
    requires !h.state.SendServerFinished? && !h.state.ReadClientFinished?
    ensures Reads(h, ServerSteps.Do(h, a))
  {
    hide Reads, ServerSteps.Do;
    if h.state.StartAccept? || h.state.ReadClientHello? || h.state.SelectCertificate? || h.state.SelectParameters? {
      ServerReads1(h, a);
    } else if h.state.ReadClientCertificate? || h.state.VerifyClientCertificate? || h.state.ReadClientKeyExchange?
              || h.state.ReadClientCertificateVerify? {
      ServerReads2(h, a);
    } else if h.state.ReadNextProto? || h.state.ReadChannelId? {
      ServerReads3(h, a);
    } else {
      ServerReads4(h, a);
    }
  }

  lemma ClientSound(sent: seq<Rec>, h: Hs, a: Answer)
    requires Sound(sent, h) && h.cfg.Client? && !h.state.Done? && InPlace(ClientSteps.Do(h, a))
    ensures Sound(sent, ClientSteps.Do(h, a))
  {
    hide Order, Offered, Reads, Sends, InPlace, ClientSteps.Do;
    ClientSteps.Cases(h, a);
    if h.state.StartConnect? || h.state.SendClientCertificate? || h.state.SendClientKeyExchange?
       || h.state.SendClientCertificateVerify?
    {
      hide Sound;
      ClientSends(sent, h, a);
      SendsSound(sent, h, ClientSteps.Do(h, a));
    } else if h.state.SendClientFinished? {
      hide Sound, ClientSteps.DoSendClientFinished;
      ClientFinishes(sent, h, a);
    } else if h.state.ReadServerFinished? {
      CheckSound(sent, h, ClientSteps.Do(h, a), if Resumed(h) then SendClientFinished else FinishClientHandshake);
    } else {
      hide Sound;
      ClientReads(h, a);
      ReadsSound(sent, h, ClientSteps.Do(h, a));
    }
  }

  lemma ServerSound(sent: seq<Rec>, h: Hs, a: Answer)
    requires Sound(sent, h) && h.cfg.Server? && !h.state.Done? && InPlace(ServerSteps.Do(h, a))
    ensures Sound(sent, ServerSteps.Do(h, a))
  {
    hide Order, Offered, Reads, Sends, InPlace, ServerSteps.Do;
    ServerSteps.Cases2(h, a);
    if h.state.SendServerHello? || h.state.SendServerCertificate? || h.state.SendServerKeyExchange?
       || h.state.SendServerHelloDone?
    {
      hide Sound;
      ServerSends(sent, h, a);
      SendsSound(sent, h, ServerSteps.Do(h, a));
    } else if h.state.SendServerFinished? {
      hide Sound, ServerSteps.DoSendServerFinished;
      ServerFinishes(sent, h);
    } else if h.state.ReadClientFinished? {
      CheckSound(sent, h, ServerSteps.Do(h, a), if Resumed(h) then FinishServerHandshake else SendServerFinished);
    } else {
      hide Sound;
      ServerReads(h, a);
      ReadsSound(sent, h, ServerSteps.Do(h, a));
    }
  }

  /** Receiving, having records accepted and being called again leave the log alone. */
  lemma OtherSound(sent: seq<Rec>, h: Hs, act: Act)
    requires Sound(sent, h) && Can(h, act) && !act.Run?
    ensures Sound(sent + Output(h, act), Act1(h, act))
  {
    hide Order, FinishedSent, Phase, ReadsSealed, Number, Visits;
    match act {
      case Accept(n) => assert sent + h.flight[..n] + h.flight[n..] == sent + h.flight;
      case Take => assert sent + [] == sent;
      case CallAgain => assert sent + [] == sent;
    }
  }

  lemma StepSound(t: R.Track, e: R.Event)
    requires Sound(t.sent, t.h) && R.Enabled(t, e)
    ensures Sound(R.Step(t, e).sent, R.Step(t, e).h)
  {
    match e {
      case Turn(act) =>
        hide Order, Offered, Phase, ReadsSealed, Number, Visits, ClientSteps.Do, ServerSteps.Do;
        if act.Run? {
          assert t.sent + [] == t.sent;
          RunWorks(t.h, act.a);
          hide InPlace, Sound;
          if t.h.cfg.Client? {
            ClientSound(t.sent, t.h, act.a);
          } else {
            ServerSound(t.sent, t.h, act.a);
          }
        } else {
          hide Act1;
          OtherSound(t.sent, t.h, act);
        }
      case Arrive(r) => hide Order, Offered, Phase, ReadsSealed, Number, Visits;
    }
  }

  lemma {:induction false} RunSound(cfg: Config, run: seq<R.Event>)
    requires R.Possible(cfg, run)
    ensures Sound(R.After(cfg, run).sent, R.After(cfg, run).h)
  {
    if run != [] {
      RunSound(cfg, run[..|run| - 1]);
      hide Sound, R.Step, R.Enabled;
      StepSound(R.After(cfg, run[..|run| - 1]), run[|run| - 1]);
    }
  }

  /** Whoever is on the other side and whatever records it sends: an end that is done has sent one Finished message
      under the new keys, and has checked one of the other end, and no other; each is over everything before it, the
      client's comes first unless a session was resumed, and the second ends the transcript. */
  lemma DoneChecked(cfg: Config, run: seq<R.Event>)
    requires R.Possible(cfg, run) && R.After(cfg, run).h.state.Done?
    ensures var t := R.After(cfg, run);
            var log, resumed, server := t.h.log, t.h.known.params.resumed, cfg.Server?;
            var first, second := if resumed then log.serverFinished else log.clientFinished,
                                 if resumed then log.clientFinished else log.serverFinished;
            && FinishedIn(log.transcript, true) == FinishedIn(log.transcript, false) == 1
            && first.Some? && second.Some?
            && first.value + [Finished(resumed, first.value)] <= second.value
            && log.transcript == second.value + [Finished(!resumed, second.value)]
            && FinishedSent(t.sent + t.h.flight) == 1
            && Handshake(Finished(server, Own(log, server).value), true) in t.sent + t.h.flight
            && t.h.keys == Keys(true, true)
  {
    RunSound(cfg, run);
    SameConfig(cfg, run);
    hide FinishedIn, FinishedSent, InPlace;
  }

  lemma {:induction false} SameConfig(cfg: Config, run: seq<R.Event>)
    requires R.Possible(cfg, run)
    ensures R.After(cfg, run).h.cfg == cfg
  {
    if run != [] {
      var before, e := R.After(cfg, run[..|run| - 1]), run[|run| - 1];
      SameConfig(cfg, run[..|run| - 1]);
      TurnsBounded(cfg, run[..|run| - 1]);
      hide ClientSteps.Do, ServerSteps.Do, InPlace, EndWork;
      if e.Turn? && e.act.Run? {
        ConfigKept(before.h, e.act.a);
      }
    }
  }

  lemma ConfigKept(h: Hs, a: Answer)
    requires InPlace(h) && Can(h, Run(a))
    ensures Act1(h, Run(a)).cfg == h.cfg
  {
    hide ClientSteps.Do, ServerSteps.Do, Number;
    if h.cfg.Client? {
      ClientMoves(h, a);
    } else {
      ServerMoves(h, a);
    }
    hide Visits;
  }
}
