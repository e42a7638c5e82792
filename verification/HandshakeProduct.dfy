/** A client and a server over two FIFO channels: no deadlock, termination, and agreement (sections 7.3 and
    7.4.9 of RFC 5246, section 3 of RFC 5077). */
module HandshakeProduct {
  import opened Bytes
  import opened HandshakeState
  import opened HandshakeScript
  import opened HandshakeLocal
  import ClientSteps
  import ServerSteps

  // One turn of ssl_run_handshake at one end.

  /** Running the state machine with what its operation answers, or resolving what it waits for: taking a
      record, having n records of the flight accepted by the transport, or returning to the caller and being
      called again. */
  datatype Act = Run(a: Answer) | Take | Accept(n: nat) | CallAgain

  predicate Can(h: Hs, act: Act) {
    match act
    case Run(_) => h.wait.Ok? && !h.state.Done?
    case Take => (h.wait.ReadMessage? || h.wait.ReadCcs?) && h.inbox != []
    case Accept(n) => h.wait.Flush? && n <= |h.flight| && (n > 0 || h.flight == [])
    case CallAgain => h.wait.Pending? || h.wait.EarlyReturn?
  }

  function Act1(h: Hs, act: Act): Hs
    requires Can(h, act)
  {
    match act
    case Run(a) => if h.cfg.Client? then ClientSteps.Do(h, a) else ServerSteps.Do(h, a)
    case Take => TakeRecord(h)
    case Accept(n) => h.(flight := h.flight[n..], wait := if n == |h.flight| then Ok else Flush)
    case CallAgain => h.Stop(Ok)
  }

  /** What the turn puts into the other end's channel. */
  function Output(h: Hs, act: Act): seq<Rec>
    requires Can(h, act)
  {
    if act.Accept? then h.flight[..act.n] else []
  }

  datatype Pair = Pair(c: Hs, s: Hs)
  {
    function End(server: bool): Hs {
      if server then s else c
    }
  }

  datatype Event = Event(server: bool, act: Act)

  function Start(c: Config, s: Config): Pair {
    Pair(Begin(c), Begin(s))
  }

  predicate Enabled(j: Pair, e: Event) {
    Can(j.End(e.server), e.act)
  }

  function Step(j: Pair, e: Event): Pair
    requires Enabled(j, e)
  {
    var h := j.End(e.server);
    var h', out := Act1(h, e.act), Output(h, e.act);
    if e.server then Pair(j.c.(inbox := j.c.inbox + out), h') else Pair(h', j.s.(inbox := j.s.inbox + out))
  }

  predicate Possible(start: Pair, run: seq<Event>)
    decreases |run|, 0
  {
    run == [] || (Possible(start, run[..|run| - 1]) && Enabled(After(start, run[..|run| - 1]), run[|run| - 1]))
  }

  function After(start: Pair, run: seq<Event>): Pair
    requires Possible(start, run)
    decreases |run|, 1
  {
    if run == [] then start else Step(After(start, run[..|run| - 1]), run[|run| - 1])
  }

  /** Cryptography and callbacks succeed, sooner or later. */
  predicate NoneFails(run: seq<Event>) {
    forall e | e in run :: e.act != Run(Fail)
  }

  // The invariant.

  function HeldRecs(h: Hs): seq<Rec> {
    if h.held.None? then [] else [Handshake(h.held.value, h.keys.read)]
  }

  /** End a is at or ahead of end b in the script: what lies between is a's, and on its way to b. */
  ghost predicate Ahead(f: Facts, server: bool, a: Hs, b: Hs) {
    var pa, pb := Place(f, a), Place(f, b);
    && pb <= pa && Only(f, server, pb, pa)
    && HeldRecs(b) + b.inbox + a.flight == Recs(f, pb, pa)
    && a.held.None? && a.inbox == [] && b.flight == []
  }

  /** server tells whether a is the server. */
  ghost predicate Linked(f: Facts, server: bool, a: Hs, b: Hs) {
    Ahead(f, server, a, b) || Ahead(f, !server, b, a)
  }

  ghost predicate Inv(c: Config, s: Config, j: Pair) {
    && c.Client? && s.Server? && CipherOk(s)
    && Local(c, s, false, j.c) && Local(c, s, true, j.s)
    && Linked(Agree(c, s), false, j.c, j.s)
  }

  /** The first place from p on that has a message, or 17. */
  function First(f: Facts, p: nat): (q: nat)
    ensures p <= 17 ==> p <= q <= 17
    ensures q < 17 ==> Present(f, KindAt(f, q))
    decreases 17 - p
  {
    if p >= 17 || Present(f, KindAt(f, p)) then p else First(f, p + 1)
  }

  lemma {:induction false} RecsHead(f: Facts, a: nat, b: nat)
    requires a <= b <= 17
    ensures Recs(f, a, b) == [] <==> First(f, a) >= b
    ensures Recs(f, a, b) != [] ==>
              var q := First(f, a); Recs(f, a, b)[0] == RecOf(f, KindAt(f, q), LogAt(f, q).transcript)
    ensures Recs(f, a, b) == [] ==> First(f, a) == First(f, b)
    decreases b - a
  {
    hide LogAt, RecOf, KindAt, Present;
    if a < b {
      RecsFirst(f, a, b);
      if !Present(f, KindAt(f, a)) {
        RecsHead(f, a + 1, b);
      }
    }
  }

  lemma {:induction false} FirstIsNext(f: Facts, p: nat, m: Msg)
    requires p <= 17 && First(f, p) < 17
    requires var q := First(f, p); !IsCcs(KindAt(f, q)) && m == MsgOf(f, KindAt(f, q), LogAt(f, q).transcript)
    ensures IsNext(f, p, m)
    decreases 17 - p
  {
    hide LogAt, MsgOf;
    if !Present(f, KindAt(f, p)) {
      FirstIsNext(f, p + 1, m);
    }
  }

  lemma PlaceBound(c: Config, s: Config, server: bool, h: Hs)
    requires c.Client? && s.Server? && Local(c, s, server, h)
    ensures Place(Agree(c, s), h) <= 17
  {
    hide LogAt, KnownAt, KeysAt, WaitOk, Agree;
  }

  /** What an end holds is the next message of the script. */
  lemma HeldIsNext(c: Config, s: Config, server: bool, h: Hs, g: Hs)
    requires c.Client? && s.Server? && Local(c, s, server, h) && Local(c, s, !server, g) && h.held.Some?
    requires Linked(Agree(c, s), server, h, g)
    ensures IsNext(Agree(c, s), Place(Agree(c, s), h), h.held.value)
  {
    var f := Agree(c, s);
    PlaceBound(c, s, server, h);
    PlaceBound(c, s, !server, g);
    hide LogAt, KnownAt, KeysAt, WaitOk, Agree, Recs, Pos, IsNext, MsgOf, Only, Number;
    var p, pg := Place(f, h), Place(f, g);
    RecsHead(f, p, pg);
    assert Recs(f, p, pg)[0] == HeldRecs(h)[0];
    FirstIsNext(f, p, h.held.value);
  }

  /** A step that sends keeps the link: it cannot be behind, for then what comes next would be the other's. */
  lemma SendLinked(f: Facts, server: bool, h: Hs, h': Hs, g: Hs)
    requires Linked(f, server, h, g)
    requires var p, p' := Place(f, h), Place(f, h');
             p <= p' && h'.inbox == h.inbox && h'.held == h.held && (h.held.Some? ==> h'.keys.read == h.keys.read)
             && Only(f, server, p, p') && h'.flight == h.flight + Recs(f, p, p')
    ensures Linked(f, server, h', g)
  {
    hide Recs, Pos, Number, Present, FromServer, KindAt, Only;
    var p, p', pg := Place(f, h), Place(f, h'), Place(f, g);
    if Ahead(f, server, h, g) {
      RecsJoin(f, pg, p, p');
      assert HeldRecs(g) + g.inbox + (h.flight + Recs(f, p, p')) == (HeldRecs(g) + g.inbox + h.flight) + Recs(f, p, p');
      OnlyJoin(f, server, pg, p, p');
      assert Ahead(f, server, h', g);
    } else if pg >= p' {
      OnlyPart(f, !server, p, p', pg);
      NoneOfEither(f, server, p, p');
      RecsJoin(f, p, p', pg);
      assert h.flight + [] == h.flight;
      assert [] + Recs(f, p', pg) == Recs(f, p', pg);
      assert Ahead(f, !server, g, h');
    } else {
      OnlyPart(f, server, p, pg, p');
      NoneOfEither(f, server, p, pg);
      RecsJoin(f, p, pg, p');
      assert [] + Recs(f, pg, p') == Recs(f, pg, p');
      assert HeldRecs(h) + h.inbox + g.flight == [];
      assert Ahead(f, server, h', g);
    }
  }

  lemma OnlyJoin(f: Facts, server: bool, a: nat, b: nat, c: nat)
    requires Only(f, server, a, b) && Only(f, server, b, c)
    ensures Only(f, server, a, c)
  {
  }

  lemma OnlyPart(f: Facts, server: bool, a: nat, b: nat, c: nat)
    requires a <= b <= c && Only(f, server, a, c)
    ensures Only(f, server, a, b) && Only(f, server, b, c)
  {
  }

  lemma TakeLinked(f: Facts, server: bool, h: Hs, h': Hs, g: Hs)
    requires Linked(f, server, h, g)
    requires var p := Place(f, h);
             && h.held.Some? && h'.held.None? && h'.flight == h.flight && h'.inbox == h.inbox
             && Place(f, h') == p + 1 && Present(f, KindAt(f, p))
    ensures Linked(f, server, h', g)
  {
    hide Recs, Pos, Number, Present, FromServer, KindAt;
    var p, pg := Place(f, h), Place(f, g);
    Slot(f, p);
    assert Ahead(f, !server, g, h);
    RecsFirst(f, p, pg);
    OnlyPart(f, !server, p, p + 1, pg);
    hide Only, RecsAt, Place;
    RestOf(HeldRecs(h), h.inbox, g.flight, Recs(f, p, pg));
  }

  lemma RestOf<T>(head: seq<T>, a: seq<T>, b: seq<T>, all: seq<T>)
    requires |head| == 1 && head + a + b == all
    ensures [] + a + b == all[1..]
  {
    assert head + a + b == head + (a + b);
  }

  /** The read keys do not change under a message that is held. */
  lemma ReadKeysStay(c: Config, s: Config, server: bool, h: Hs, h': Hs)
    requires c.Client? && s.Server? && Local(c, s, server, h) && Local(c, s, server, h')
    requires h.held.Some? && h'.held == h.held
    requires Only(Agree(c, s), server, Place(Agree(c, s), h), Place(Agree(c, s), h'))
    requires Place(Agree(c, s), h) <= Place(Agree(c, s), h')
    ensures h'.keys.read == h.keys.read
  {
    KeysOf(c, s, server, h);
    KeysOf(c, s, server, h');
    hide LogAt, KnownAt, Agree, Recs, Pos, KeysAt, Local, Only;
    KeysStay(Agree(c, s), server, h.state, Place(Agree(c, s), h), h'.state, Place(Agree(c, s), h'));
  }

  lemma KeysOf(c: Config, s: Config, server: bool, h: Hs)
    requires c.Client? && s.Server? && Local(c, s, server, h) && h.held.Some?
    ensures h.keys == KeysAt(Agree(c, s), server, h.state, Place(Agree(c, s), h))
    ensures !h.state.ProcessClientCcs? && !h.state.ProcessServerCcs?
  {
    hide LogAt, KnownAt, Agree, Pos, KeysAt;
  }

  lemma KeysStay(f: Facts, server: bool, s: State, p: nat, s': State, p': nat)
    requires p <= p' && Only(f, server, p, p')
    requires !s.ProcessClientCcs? && !s.ProcessServerCcs? && !s'.ProcessClientCcs? && !s'.ProcessServerCcs?
    ensures KeysAt(f, server, s, p).read == KeysAt(f, server, s', p').read
  {
    var ccs := if server then ClientCcsAt(f) else ServerCcsAt(f);
    assert Present(f, KindAt(f, ccs)) && FromServer(KindAt(f, ccs)) != server;
  }

  lemma MayRun(c: Config, s: Config, server: bool, h: Hs, g: Hs)
    requires c.Client? && s.Server? && CipherOk(s) && Local(c, s, server, h) && Local(c, s, !server, g)
    requires Linked(Agree(c, s), server, h, g) && h.wait.Ok?
    ensures CanDo(c, s, server, h) && h.cfg == if server then s else c
  {
    hide LogAt, KnownAt, KeysAt, Agree, Recs, Pos, IsNext, WaitOk, Linked, Number;
    if h.held.Some? {
      HeldIsNext(c, s, server, h, g);
    }
  }

  lemma RunStepOk(c: Config, s: Config, server: bool, h: Hs, g: Hs, a: Answer)
    requires c.Client? && s.Server? && CipherOk(s) && Local(c, s, server, h) && Local(c, s, !server, g)
    requires Linked(Agree(c, s), server, h, g) && Can(h, Run(a)) && !a.Fail?
    ensures var h' := Act1(h, Run(a));
            StepOk(c, s, server, h, h') || (server && h'.wait.Error? && !Compatible(Agree(c, s)))
  {
    hide Local, StepOk, Agree, CanDo, Linked, ClientSteps.Do, ServerSteps.Do, Compatible;
    MayRun(c, s, server, h, g);
    if server {
      ServerDo(c, s, h, a);
    } else {
      ClientDo(c, s, h, a);
    }
  }

  /** Running one end's state machine keeps the invariant, but for the certificate that is missing. */
  lemma RunKeeps(c: Config, s: Config, server: bool, h: Hs, g: Hs, a: Answer)
    requires c.Client? && s.Server? && CipherOk(s) && Local(c, s, server, h) && Local(c, s, !server, g)
    requires Linked(Agree(c, s), server, h, g) && Can(h, Run(a)) && !a.Fail?
    ensures var h' := Act1(h, Run(a));
            || (Local(c, s, server, h') && Linked(Agree(c, s), server, h', g))
            || (server && h'.wait.Error? && !Compatible(Agree(c, s)))
  {
    var f, h' := Agree(c, s), Act1(h, Run(a));
    RunStepOk(c, s, server, h, g, a);
    hide LogAt, KnownAt, KeysAt, Agree, Recs, Pos, Number, WaitOk, ClientSteps.Do, ServerSteps.Do, Local, Goes, Act1;
    if StepOk(c, s, server, h, h') {
      if h'.held == h.held {
        if h.held.Some? {
          ReadKeysStay(c, s, server, h, h');
        }
        SendLinked(f, server, h, h', g);
      } else {
        TakeLinked(f, server, h, h', g);
      }
    }
  }

  /** What a reading end reads is what it is ready for. */
  ghost predicate Ready(f: Facts, h: Hs) {
    var q := First(f, Place(f, h));
    q < 17
    && if h.wait.ReadCcs? then q == Place(f, h) && IsCcs(KindAt(f, q)) && !h.keys.read
       else !IsCcs(KindAt(f, q)) && IsSealed(KindAt(f, q)) == h.keys.read
  }

  /** The message that an asking state asks for is the other end's, and sealed as it expects. */
  lemma AskedNext(f: Facts, server: bool, n: nat, p: nat)
    requires p == (if f.params.resumed then ResumedPlace(n) else FullPlace(n)) && Visits(n, server, f.params.resumed)
    requires AlwaysAsks(n) || (AsksIfPresent(n) && Present(f, KindAt(f, p)))
    requires n != 6
    ensures First(f, p) == p && p < 17
    ensures FromServer(KindAt(f, p)) != server && !IsCcs(KindAt(f, p))
    ensures IsSealed(KindAt(f, p)) == (p > if server then ClientCcsAt(f) else ServerCcsAt(f))
  {
    if f.params.resumed {
      assert n == 2 || n == 14 || n == 16 || n == 19 || n == 32 || n == 33 || n == 34;
    } else {
      assert n == 2 || n == 3 || n == 4 || n == 8 || n == 14 || n == 16 || n == 19 || n == 26 || n == 28 || n == 29
             || n == 32 || n == 33 || n == 34;
    }
  }

  /** ... also when it may be one of several. */
  lemma AskedLater(f: Facts, n: nat, p: nat)
    requires !f.params.resumed && (n == 6 || n == 7) && p == FullPlace(n)
    ensures var q := First(f, p);
            q <= 6 && FromServer(KindAt(f, q)) && !IsCcs(KindAt(f, q)) && !IsSealed(KindAt(f, q))
  {
    assert First(f, 6) == 6;
    assert First(f, 5) == 5 || First(f, 5) == 6;
  }

  lemma MessageWait(f: Facts, server: bool, h: Hs)
    requires Visits(Number(h.state), server, f.params.resumed) && h.wait.ReadMessage? && Expects(f, h)
    requires h.keys == KeysAt(f, server, h.state, Place(f, h))
    ensures Ready(f, h) && FromServer(KindAt(f, First(f, Place(f, h)))) != server
  {
    var p, n := Place(f, h), Number(h.state);
    assert !h.state.ProcessClientCcs? && !h.state.ProcessServerCcs?;
    hide Number, First, KindAt, IsSealed, IsCcs, FromServer, Present;
    if n == 6 || n == 7 {
      AskedLater(f, n, p);
    } else {
      AskedNext(f, server, n, p);
    }
  }

  lemma CcsWait(f: Facts, server: bool, h: Hs)
    requires Visits(Number(h.state), server, f.params.resumed) && h.wait.ReadCcs?
    requires Number(h.state) == 15 || Number(h.state) == 31
    requires h.keys == KeysAt(f, server, h.state, Place(f, h))
    ensures Ready(f, h) && FromServer(KindAt(f, First(f, Place(f, h)))) != server
    ensures Place(f, h) == if server then ClientCcsAt(f) else ServerCcsAt(f)
  {
    assert h.state == if server then ProcessClientCcs else ProcessServerCcs;
  }

  /** A reading end stands before a message of the other end. */
  lemma WaitsForOther(c: Config, s: Config, server: bool, h: Hs)
    requires c.Client? && s.Server? && Local(c, s, server, h) && (h.wait.ReadMessage? || h.wait.ReadCcs?)
    ensures var f := Agree(c, s);
            Ready(f, h) && FromServer(KindAt(f, First(f, Place(f, h)))) != server
  {
    hide LogAt, KnownAt, KeysAt, Agree, Number, Ready, Pos, First, Expects, MidFlight;
    if h.wait.ReadCcs? {
      CcsWait(Agree(c, s), server, h);
    } else {
      MessageWait(Agree(c, s), server, h);
    }
  }

  /** The first record on its way to a reading end is the one it is ready for. */
  lemma InboxHead(f: Facts, server: bool, h: Hs, g: Hs)
    requires Linked(f, server, h, g) && Place(f, h) <= 17 && Place(f, g) <= 17 && h.inbox != [] && h.held.None?
    ensures var p := Place(f, h);
            && Ahead(f, !server, g, h) && p < Place(f, g)
            && h.inbox + g.flight == Recs(f, p, Place(f, g))
            && First(f, p) < Place(f, g)
            && h.inbox[0] == RecOf(f, KindAt(f, First(f, p)), LogAt(f, First(f, p)).transcript)
  {
    hide LogAt, Recs, Pos, Only, RecOf, Number, KindAt;
    var p, pg := Place(f, h), Place(f, g);
    assert HeldRecs(h) + h.inbox + g.flight == h.inbox + g.flight;
    RecsHead(f, p, pg);
    assert Recs(f, p, pg)[0] == h.inbox[0];
  }

  lemma TakeMessageLinked(f: Facts, server: bool, h: Hs, g: Hs)
    requires Linked(f, server, h, g) && Place(f, h) <= 17 && Place(f, g) <= 17 && Ready(f, h)
    requires h.inbox != [] && h.held.None? && h.wait.ReadMessage?
    ensures var h' := TakeRecord(h);
            && h' == h.(held := h'.held, inbox := h'.inbox, wait := Ok) && h'.held.Some?
            && (Place(f, h') == Place(f, h) ==> Linked(f, server, h', g))
  {
    hide LogAt, Recs, Only, First, KindAt, Present, Pos, Number, IsCcs, IsSealed, MsgOf;
    InboxHead(f, server, h, g);
    var h' := TakeRecord(h);
    assert Ahead(f, !server, g, h);
    HeadHeld(h, h', g.flight);
    hide HeldRecs;
    assert Place(f, h') == Place(f, h) ==> Ahead(f, !server, g, h');
  }

  lemma HeadHeld(h: Hs, h': Hs, flight: seq<Rec>)
    requires h.inbox != [] && h.held.None? && h'.held.Some? && h'.inbox == h.inbox[1..]
    requires h.inbox[0] == Handshake(h'.held.value, h'.keys.read)
    ensures HeldRecs(h') + h'.inbox + flight == HeldRecs(h) + h.inbox + flight
  {
    assert HeldRecs(h') + h'.inbox == h.inbox == HeldRecs(h) + h.inbox;
  }

  lemma TakeCcsLinked(f: Facts, server: bool, h: Hs, g: Hs)
    requires Linked(f, server, h, g) && Place(f, h) <= 17 && Place(f, g) <= 17 && Ready(f, h)
    requires h.inbox != [] && h.held.None? && h.wait.ReadCcs?
    ensures var h' := TakeRecord(h);
            && h' == h.(inbox := h'.inbox, wait := Ok)
            && (Place(f, h') == Place(f, h) + 1 ==> Linked(f, server, h', g))
  {
    InboxHead(f, server, h, g);
    var p, pg := Place(f, h), Place(f, g);
    hide LogAt, Recs, Only, KindAt, Pos, Number, IsCcs, IsSealed, MsgOf;
    var h' := TakeRecord(h);
    assert First(f, p) == p && Present(f, KindAt(f, p));
    hide First, Present;
    RecsFirst(f, p, pg);
    OnlyPart(f, !server, p, p + 1, pg);
    DropHead(h.inbox, g.flight, RecsAt(f, p), Recs(f, p + 1, pg));
    if Place(f, h') == p + 1 {
      assert Ahead(f, !server, g, h');
    }
  }

  lemma DropHead(inbox: seq<Rec>, flight: seq<Rec>, head: seq<Rec>, rest: seq<Rec>)
    requires inbox != [] && |head| == 1 && inbox + flight == head + rest
    ensures [] + inbox[1..] + flight == rest
  {
    assert (inbox + flight)[1..] == inbox[1..] + flight;
  }

  /** Holding a message instead of waiting for it keeps an end where it is. */
  lemma MessageTaken(c: Config, s: Config, server: bool, h: Hs, h': Hs)
    requires c.Client? && s.Server? && Local(c, s, server, h) && h.wait.ReadMessage?
    requires h' == h.(held := h'.held, inbox := h'.inbox, wait := Ok) && h'.held.Some?
    ensures Local(c, s, server, h') && Place(Agree(c, s), h') == Place(Agree(c, s), h)
  {
    hide LogAt, KnownAt, Agree, Number;
  }

  lemma CcsTaken(c: Config, s: Config, server: bool, h: Hs, h': Hs)
    requires c.Client? && s.Server? && Local(c, s, server, h) && h.wait.ReadCcs?
    requires h' == h.(inbox := h'.inbox, wait := Ok)
    ensures Local(c, s, server, h') && Place(Agree(c, s), h') == Place(Agree(c, s), h) + 1
    ensures h.held.None?
  {
    hide Agree, LogAt, Recs;
    var f := Agree(c, s);
    CcsWait(f, server, h);
    Slot(f, Place(f, h));
  }

  lemma TakeKeeps(c: Config, s: Config, server: bool, h: Hs, g: Hs)
    requires c.Client? && s.Server? && Local(c, s, server, h) && Local(c, s, !server, g)
    requires Linked(Agree(c, s), server, h, g) && Can(h, Take)
    ensures var h' := Act1(h, Take); Local(c, s, server, h') && Linked(Agree(c, s), server, h', g)
  {
    var f := Agree(c, s);
    WaitsForOther(c, s, server, h);
    PlaceBound(c, s, server, h);
    PlaceBound(c, s, !server, g);
    if h.wait.ReadCcs? {
      CcsTaken(c, s, server, h, h.(inbox := h.inbox[1..], wait := Ok));
      hide Agree, Local, Linked, Pos, Number, Ready;
      TakeCcsLinked(f, server, h, g);
    } else {
      HoldsNone(c, s, server, h);
      hide Agree, Local, Linked, Pos, Number, Ready;
      TakeMessageLinked(f, server, h, g);
      MessageTaken(c, s, server, h, TakeRecord(h));
    }
  }

  lemma HoldsNone(c: Config, s: Config, server: bool, h: Hs)
    requires c.Client? && s.Server? && Local(c, s, server, h) && h.wait.ReadMessage?
    ensures h.held.None?
  {
  }

  /** What the transport accepts is on its way all the same. */
  lemma AcceptLinked(f: Facts, server: bool, h: Hs, h': Hs, g: Hs, g': Hs, n: nat)
    requires Linked(f, server, h, g) && n <= |h.flight| && (n > 0 || h.flight == [])
    requires h' == h.(flight := h.flight[n..], wait := h'.wait) && g' == g.(inbox := g.inbox + h.flight[..n])
    requires Place(f, h') == Place(f, h) && Place(f, g') == Place(f, g)
    ensures Linked(f, server, h', g')
  {
    hide Recs, Pos, Number, Only;
    if Ahead(f, server, h, g) {
      assert h.flight == h.flight[..n] + h.flight[n..];
      assert HeldRecs(g') + g'.inbox + h'.flight == HeldRecs(g) + g.inbox + h.flight;
      assert Ahead(f, server, h', g');
    } else {
      assert h.flight == [] && g.inbox + [] == g.inbox;
      assert Ahead(f, !server, g', h');
    }
  }

  lemma AcceptKeeps(c: Config, s: Config, server: bool, h: Hs, g: Hs, n: nat)
    requires c.Client? && s.Server? && Local(c, s, server, h) && Local(c, s, !server, g)
    requires Linked(Agree(c, s), server, h, g) && Can(h, Accept(n))
    ensures var h', g' := Act1(h, Accept(n)), g.(inbox := g.inbox + Output(h, Accept(n)));
            Local(c, s, server, h') && Local(c, s, !server, g') && Linked(Agree(c, s), server, h', g')
  {
    var f, h', g' := Agree(c, s), Act1(h, Accept(n)), g.(inbox := g.inbox + Output(h, Accept(n)));
    FlightShrinks(c, s, server, h, h');
    InboxFree(c, s, !server, g, g');
    hide Agree, Local, Linked, Pos, Number;
    AcceptLinked(f, server, h, h', g, g', n);
  }

  lemma FlightShrinks(c: Config, s: Config, server: bool, h: Hs, h': Hs)
    requires c.Client? && s.Server? && Local(c, s, server, h) && h.wait.Flush?
    requires h' == h.(flight := h'.flight, wait := h'.wait) && (h'.wait.Flush? || (h'.wait.Ok? && h'.flight == []))
    ensures Local(c, s, server, h') && Place(Agree(c, s), h') == Place(Agree(c, s), h)
  {
    hide LogAt, KnownAt, Agree, Number;
  }

  lemma InboxFree(c: Config, s: Config, server: bool, h: Hs, h': Hs)
    requires c.Client? && s.Server? && Local(c, s, server, h) && h' == h.(inbox := h'.inbox)
    ensures Local(c, s, server, h') && Place(Agree(c, s), h') == Place(Agree(c, s), h)
  {
    hide LogAt, KnownAt, Agree, Number;
  }

  lemma CallAgainKeeps(c: Config, s: Config, server: bool, h: Hs, g: Hs)
    requires c.Client? && s.Server? && Local(c, s, server, h) && Linked(Agree(c, s), server, h, g)
    requires Can(h, CallAgain)
    ensures var h' := Act1(h, CallAgain); Local(c, s, server, h') && Linked(Agree(c, s), server, h', g)
  {
    hide LogAt, KnownAt, Agree, Number, Recs, Only;
  }

  // Runs.

  /** The server has given up because the client has no certificate and must have one. */
  ghost predicate Refused(c: Config, s: Config, j: Pair) {
    c.Client? && s.Server? && j.s.wait.Error? && !Compatible(Agree(c, s))
  }

  lemma StartInv(c: Config, s: Config)
    requires c.Client? && s.Server? && CipherOk(s)
    ensures Inv(c, s, Start(c, s))
  {
    var f, j := Agree(c, s), Start(c, s);
    assert Recs(f, 0, 0) == [];
    assert Ahead(f, false, j.c, j.s);
  }

  lemma LinkedSwap(f: Facts, server: bool, a: Hs, b: Hs)
    ensures Linked(f, server, a, b) == Linked(f, !server, b, a)
  {
    hide Ahead;
  }

  /** One turn of either end, said of that end and the other. */
  lemma EndKeeps(c: Config, s: Config, server: bool, h: Hs, g: Hs, act: Act)
    requires c.Client? && s.Server? && CipherOk(s) && Local(c, s, server, h) && Local(c, s, !server, g)
    requires Linked(Agree(c, s), server, h, g) && Can(h, act) && act != Run(Fail)
    ensures var h', g' := Act1(h, act), g.(inbox := g.inbox + Output(h, act));
            || (Local(c, s, server, h') && Local(c, s, !server, g') && Linked(Agree(c, s), server, h', g'))
            || (server && h'.wait.Error? && !Compatible(Agree(c, s)))
  {
    hide Agree, Local, Linked, Compatible, CipherOk, ClientSteps.Do, ServerSteps.Do;
    assert g.inbox + [] == g.inbox;
    match act {
      case Run(a) => RunKeeps(c, s, server, h, g, a);
      case Take => TakeKeeps(c, s, server, h, g);
      case Accept(n) => AcceptKeeps(c, s, server, h, g, n);
      case CallAgain => CallAgainKeeps(c, s, server, h, g);
    }
  }

  lemma StepInv(c: Config, s: Config, j: Pair, e: Event)
    requires Inv(c, s, j) && Enabled(j, e) && e.act != Run(Fail)
    ensures Inv(c, s, Step(j, e)) || Refused(c, s, Step(j, e))
  {
    hide Agree, Local, Linked, Compatible, CipherOk, Act1, Output, Can;
    var h, g := j.End(e.server), j.End(!e.server);
    LinkedSwap(Agree(c, s), e.server, h, g);
    EndKeeps(c, s, e.server, h, g, e.act);
    var h', g' := Act1(h, e.act), g.(inbox := g.inbox + Output(h, e.act));
    LinkedSwap(Agree(c, s), e.server, h', g');
  }

  lemma {:induction false} RunInv(c: Config, s: Config, run: seq<Event>)
    requires c.Client? && s.Server? && CipherOk(s) && Possible(Start(c, s), run) && NoneFails(run)
    ensures Inv(c, s, After(Start(c, s), run)) || Refused(c, s, After(Start(c, s), run))
  {
    hide Inv, Agree, Compatible, CipherOk, Act1, Output;
    if run == [] {
      StartInv(c, s);
    } else {
      var before, e := After(Start(c, s), run[..|run| - 1]), run[|run| - 1];
      assert forall x | x in run[..|run| - 1] :: x in run;
      RunInv(c, s, run[..|run| - 1]);
      if Inv(c, s, before) {
        StepInv(c, s, before, e);
      }
    }
  }

  // Agreement.

  /** ssl_run_handshake has returned success at both ends. */
  predicate BothDone(j: Pair) {
    j.c.state.Done? && j.c.wait.Ok? && j.s.state.Done? && j.s.wait.Ok?
  }

  /** Both ends agree on the parameters, on the transcript and on what each Finished message covers, and
      nothing is left on the way. */
  ghost predicate Agreed(c: Config, s: Config, j: Pair)
    requires c.Client? && s.Server?
  {
    var f := Agree(c, s);
    && j.c.log == j.s.log == LogAt(f, End(f)) && j.c.known.params == j.s.known.params == f.params
    && j.c.keys == j.s.keys == Keys(true, true)
    && j.c.held.None? && j.s.held.None? && j.c.inbox == j.s.inbox == j.c.flight == j.s.flight == []
  }

  lemma DoneLocal(c: Config, s: Config, server: bool, h: Hs)
    requires c.Client? && s.Server? && Local(c, s, server, h) && h.state.Done?
    ensures var f := Agree(c, s);
            && Place(f, h) == End(f) && h.log == LogAt(f, End(f)) && h.keys == Keys(true, true)
            && h.known.params == f.params && h.wait.Ok? && h.flight == []
            && (server ==> f.params.resumed || Compatible(f))
  {
    hide LogAt, Agree;
  }

  /** Two ends that are done have met the configurations' one condition, and agree. */
  lemma DoneAgrees(c: Config, s: Config, run: seq<Event>)
    requires c.Client? && s.Server? && CipherOk(s) && Possible(Start(c, s), run) && NoneFails(run)
    requires BothDone(After(Start(c, s), run))
    ensures Compatible(Agree(c, s)) && Agreed(c, s, After(Start(c, s), run))
  {
    var j, f := After(Start(c, s), run), Agree(c, s);
    RunInv(c, s, run);
    DoneLocal(c, s, false, j.c);
    DoneLocal(c, s, true, j.s);
    hide LogAt, Agree, Local, Possible, After, Recs, Pos, Number, NoneFails;
    RecsHead(f, End(f), End(f));
    assert |HeldRecs(j.s) + j.s.inbox + j.c.flight| == 0 || |HeldRecs(j.c) + j.c.inbox + j.s.flight| == 0;
  }

  function FinishedIn(t: seq<Msg>, fromServer: bool): nat {
    if t == [] then 0
    else
      var m := t[|t| - 1];
      FinishedIn(t[..|t| - 1], fromServer) + if m.Finished? && m.fromServer == fromServer then 1 else 0
  }

  function FinishedAt(f: Facts, fromServer: bool): nat {
    if f.params.resumed then if fromServer then 4 else 8 else if fromServer then 16 else 13
  }

  lemma FinishedAdd(t: seq<Msg>, m: Msg, fromServer: bool)
    ensures FinishedIn(t + [m], fromServer)
         == FinishedIn(t, fromServer) + if m.Finished? && m.fromServer == fromServer then 1 else 0
  {
    assert (t + [m])[..|t|] == t;
  }

  lemma FinishedNext(f: Facts, k: Kind, log: Log, fromServer: bool)
    ensures FinishedIn(LogNext(f, k, log).transcript, fromServer)
         == FinishedIn(log.transcript, fromServer)
            + if k == (if fromServer then KServerFinished else KClientFinished) then 1 else 0
  {
    FinishedAdd(log.transcript, MsgOf(f, k, log.transcript), fromServer);
    FinishedAdd(log.transcript, Finished(false, log.transcript), fromServer);
    FinishedAdd(log.transcript, Finished(true, log.transcript), fromServer);
    hide FinishedIn;
  }

  lemma FinishedPlace(f: Facts, p: nat, fromServer: bool)
    requires p < 17
    ensures KindAt(f, p) == (if fromServer then KServerFinished else KClientFinished)
            <==> p == FinishedAt(f, fromServer)
  {
  }

  lemma {:induction false} FinishedBefore(f: Facts, p: nat, fromServer: bool)
    requires p <= 17
    ensures FinishedIn(LogAt(f, p).transcript, fromServer) == if p > FinishedAt(f, fromServer) then 1 else 0
  {
    if p > 0 {
      FinishedPlace(f, p - 1, fromServer);
      hide LogNext, FinishedIn, KindAt, FinishedAt;
      FinishedBefore(f, p - 1, fromServer);
      FinishedNext(f, KindAt(f, p - 1), LogAt(f, p - 1), fromServer);
    } else {
      hide KindAt;
    }
  }

  /** In what both ends agree on, each has sent one Finished message, over everything before it, and the
      client's comes first unless a session was resumed. */
  lemma FinishedOrder(f: Facts)
    ensures var log := LogAt(f, End(f));
            var first, second := if f.params.resumed then log.serverFinished else log.clientFinished,
                                 if f.params.resumed then log.clientFinished else log.serverFinished;
            && FinishedIn(log.transcript, true) == FinishedIn(log.transcript, false) == 1
            && first.Some? && second.Some?
            && first.value + [Finished(f.params.resumed, first.value)] <= second.value
            && log.transcript == second.value + [Finished(!f.params.resumed, second.value)]
  {
    FinishedBefore(f, End(f), true);
    FinishedBefore(f, End(f), false);
    hide FinishedIn, LogAt;
    if f.params.resumed {
      ResumedOrder(f);
    } else {
      FullOrder(f);
    }
  }

  lemma FullOrder(f: Facts)
    requires !f.params.resumed
    ensures var a, b := LogAt(f, 13), LogAt(f, 16);
            LogAt(f, 17) == b.Finish(true) && b.clientFinished == Some(a.transcript)
            && a.transcript + [Finished(false, a.transcript)] <= b.transcript
  {
    hide LogAt;
    Slots(f, 13);
    Slots(f, 15);
  }

  lemma ResumedOrder(f: Facts)
    requires f.params.resumed
    ensures var a, b := LogAt(f, 4), LogAt(f, 8);
            LogAt(f, 9) == b.Finish(false) && b.serverFinished == Some(a.transcript)
            && a.transcript + [Finished(true, a.transcript)] <= b.transcript
  {
    hide LogAt;
    Slots(f, 4);
    Slots(f, 6);
    Slots(f, 7);
  }

  lemma Slots(f: Facts, p: nat)
    ensures LogAt(f, p + 1) == LogNext(f, KindAt(f, p), LogAt(f, p))
    ensures LogAt(f, p + 2) == LogNext(f, KindAt(f, p + 1), LogAt(f, p + 1))
  {
  }

  // The states of each machine in two halves, for proofs by cases.

  predicate FirstClientHalf(s: State) {
    s.StartConnect? || s.EnterEarlyData? || s.ReadServerHello?
    || s.ReadServerCertificate? || s.ReadCertificateStatus? || s.VerifyServerCertificate?
    || s.ReadServerKeyExchange? || s.ReadCertificateRequest? || s.ReadServerHelloDone?
  }

  predicate FirstServerHalf(s: State) {
    s.StartAccept? || s.ReadClientHello? || s.SelectCertificate?
    || s.SelectParameters? || s.SendServerHello? || s.SendServerCertificate?
    || s.SendServerKeyExchange? || s.SendServerHelloDone? || s.ReadClientCertificate?
  }
}
