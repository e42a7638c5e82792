/** What whole handshakes do: they never deadlock, they end, they end well exactly when the server gets the
    certificate it demands, and pending operations make no difference. */
module HandshakeRuns {
  import opened Bytes
  import opened HandshakeState
  import opened HandshakeScript
  import opened HandshakeLocal
  import opened HandshakeProduct
  import ClientSteps
  import ServerSteps

  // Termination.

  /** How many states are still to come. */
  function Rank(n: nat, resumed: bool): nat {
    if n == 37 then 0
    else if !resumed then (if n <= 17 then 18 - n else if n <= 36 then 37 - n else 0)
    else if n <= 2 then 9 - n
    else if 14 <= n <= 16 then 20 - n
    else if n == 12 || n == 13 then 15 - n
    else if n == 17 then 1
    else if 18 <= n <= 22 then 30 - n
    else if n == 35 then 7
    else if 30 <= n <= 34 then 36 - n
    else if n == 36 then 1
    else 0
  }

  lemma RankFalls(n: nat, server: bool, resumed: bool)
    requires Visits(n, server, resumed) && n <= 36
    ensures Visits(Succ(n, resumed), server, resumed)
    ensures Rank(Succ(n, resumed), resumed) < Rank(n, resumed) <= 19
  {
  }

  /** What is left to do in a state before its next step. */
  function Wanting(h: Hs): nat {
    match h.wait
    case Ok => if h.held.None? then 3 else 1
    case ReadMessage => 2
    case Flush => 5 + |h.flight|
    case _ => 4
  }

  function Work(f: Facts, h: Hs): nat {
    32 * Rank(Number(h.state), f.params.resumed) + Wanting(h)
  }

  /** A turn that is a retry: an operation that was asked is pending. */
  predicate Retries(h: Hs, act: Act)
    requires Can(h, act)
  {
    act == Run(Retry) && Act1(h, act).wait.Pending?
  }

  lemma NumberBound(s: State)
    ensures Number(s) <= 37 && (Number(s) == 37 <==> s.Done?)
  {
  }

  lemma FlightBound(c: Config, s: Config, server: bool, h: Hs, g: Hs)
    requires c.Client? && s.Server? && Local(c, s, server, h) && Local(c, s, !server, g)
    requires Linked(Agree(c, s), server, h, g)
    ensures |h.flight| <= 17
  {
    PlaceBound(c, s, server, h);
    PlaceBound(c, s, !server, g);
    hide Agree, Local, Recs, Pos, Number, Only;
    var f := Agree(c, s);
    if Place(f, g) <= Place(f, h) {
      RecsBound(f, Place(f, g), Place(f, h));
    }
  }

  lemma RunWorks(c: Config, s: Config, server: bool, h: Hs, h': Hs)
    requires c.Client? && s.Server? && Local(c, s, server, h) && h.wait.Ok? && !h.state.Done?
    requires StepOk(c, s, server, h, h') && |h'.flight| <= 17
    ensures var f := Agree(c, s);
            if h'.wait.Pending? then Work(f, h') <= Work(f, h) + 3 else Work(f, h') < Work(f, h)
  {
    var f := Agree(c, s);
    NumberBound(h.state);
    hide Number, Agree, Pos, LogAt, KnownAt, KeysAt;
    RankFalls(Number(h.state), server, f.params.resumed);
    hide Rank, Succ;
  }

  /** Only an operation that is not ready is pending. */
  lemma ReadyNotPending(h: Hs)
    requires Can(h, Run(Ready))
    ensures !Act1(h, Run(Ready)).wait.Pending?
  {
  }

  lemma RunTurnWorks(c: Config, s: Config, server: bool, h: Hs, g: Hs, a: Answer)
    requires c.Client? && s.Server? && CipherOk(s) && Local(c, s, server, h) && Local(c, s, !server, g)
    requires Linked(Agree(c, s), server, h, g) && Can(h, Run(a)) && !a.Fail?
    ensures var f, h' := Agree(c, s), Act1(h, Run(a));
            || (server && h'.wait.Error? && !Compatible(f))
            || if Retries(h, Run(a)) then Work(f, h') <= Work(f, h) + 3 else Work(f, h') < Work(f, h)
  {
    var h' := Act1(h, Run(a));
    if a.Ready? {
      ReadyNotPending(h);
    }
    hide Local, StepOk, Agree, Linked, ClientSteps.Do, ServerSteps.Do, Compatible, Act1, Work;
    RunKeeps(c, s, server, h, g, a);
    RunStepOk(c, s, server, h, g, a);
    if StepOk(c, s, server, h, h') && Local(c, s, server, h') && Linked(Agree(c, s), server, h', g) {
      FlightBound(c, s, server, h', g);
      RunWorks(c, s, server, h, h');
    }
  }

  lemma WaitWorks(c: Config, s: Config, server: bool, h: Hs, act: Act)
    requires c.Client? && s.Server? && Local(c, s, server, h) && Can(h, act) && !act.Run?
    requires !Act1(h, act).wait.Error?
    ensures Work(Agree(c, s), Act1(h, act)) < Work(Agree(c, s), h)
  {
    hide Agree, LogAt, KnownAt, KeysAt, Pos, Number, Visits, Expects, MidFlight;
  }

  /** Every turn that is not a retry leaves less to do. */
  lemma TurnWorks(c: Config, s: Config, server: bool, h: Hs, g: Hs, act: Act)
    requires c.Client? && s.Server? && CipherOk(s) && Local(c, s, server, h) && Local(c, s, !server, g)
    requires Linked(Agree(c, s), server, h, g) && Can(h, act) && act != Run(Fail)
    ensures var f, h' := Agree(c, s), Act1(h, act);
            || (server && h'.wait.Error? && !Compatible(f))
            || if Retries(h, act) then Work(f, h') <= Work(f, h) + 3 else Work(f, h') < Work(f, h)
  {
    if act.Run? {
      hide Local, Agree, Linked, Compatible, Act1, Work, CipherOk, Retries;
      RunTurnWorks(c, s, server, h, g, act.a);
    } else {
      NotError(c, s, server, h, g, act);
      hide Local, Agree, Linked, Compatible, Act1, Work, CipherOk;
      WaitWorks(c, s, server, h, act);
    }
  }

  lemma NotError(c: Config, s: Config, server: bool, h: Hs, g: Hs, act: Act)
    requires c.Client? && s.Server? && CipherOk(s) && Local(c, s, server, h) && Local(c, s, !server, g)
    requires Linked(Agree(c, s), server, h, g) && Can(h, act) && !act.Run?
    ensures !Act1(h, act).wait.Error?
  {
    if act.Take? {
      TakeKeeps(c, s, server, h, g);
      hide Agree, LogAt, KnownAt, KeysAt, Pos, Number, Visits, Expects, MidFlight, Linked;
    }
  }

  ghost function PairWork(c: Config, s: Config, j: Pair): nat
    requires c.Client? && s.Server?
  {
    Work(Agree(c, s), j.c) + Work(Agree(c, s), j.s)
  }

  predicate RetriesIn(j: Pair, e: Event)
    requires Enabled(j, e)
  {
    Retries(j.End(e.server), e.act)
  }

  lemma StepWorks(c: Config, s: Config, j: Pair, e: Event)
    requires Inv(c, s, j) && Enabled(j, e) && e.act != Run(Fail)
    ensures Refused(c, s, Step(j, e))
            || (Inv(c, s, Step(j, e))
                && if RetriesIn(j, e) then PairWork(c, s, Step(j, e)) <= PairWork(c, s, j) + 3
                   else PairWork(c, s, Step(j, e)) < PairWork(c, s, j))
  {
    hide Inv, Local, Agree, Compatible, Act1, CipherOk, Can, Retries, Output, Linked, Work;
    StepInv(c, s, j, e);
    InvEnds(c, s, j, e.server);
    TurnWorks(c, s, e.server, j.End(e.server), j.End(!e.server), e.act);
    WorkSame(c, s, j.End(!e.server), Output(j.End(e.server), e.act));
  }

  lemma InvEnds(c: Config, s: Config, j: Pair, server: bool)
    requires Inv(c, s, j)
    ensures Local(c, s, server, j.End(server)) && Local(c, s, !server, j.End(!server))
    ensures Linked(Agree(c, s), server, j.End(server), j.End(!server)) && c.Client? && s.Server? && CipherOk(s)
  {
    hide Local, Agree, Linked, CipherOk;
    LinkedSwap(Agree(c, s), server, j.End(server), j.End(!server));
  }

  lemma WorkSame(c: Config, s: Config, g: Hs, out: seq<Rec>)
    requires c.Client? && s.Server?
    ensures Work(Agree(c, s), g.(inbox := g.inbox + out)) == Work(Agree(c, s), g)
  {
    hide Rank, Number, Agree;
  }

  lemma StartWork(c: Config, s: Config)
    requires c.Client? && s.Server?
    ensures PairWork(c, s, Start(c, s)) <= 1300
  {
    hide Agree;
  }

  function RetryCount(start: Pair, run: seq<Event>): nat
    requires Possible(start, run)
  {
    if run == [] then 0
    else
      RetryCount(start, run[..|run| - 1])
      + if RetriesIn(After(start, run[..|run| - 1]), run[|run| - 1]) then 1 else 0
  }

  /** Work that is bounded by a constant and grows only by retries ends every run. */
  lemma {:induction false} RunBound(c: Config, s: Config, run: seq<Event>)
    requires c.Client? && s.Server? && CipherOk(s) && Possible(Start(c, s), run) && NoneFails(run)
    requires !Refused(c, s, After(Start(c, s), run))
    ensures |run| + PairWork(c, s, After(Start(c, s), run)) <= 1300 + 4 * RetryCount(Start(c, s), run)
    ensures Inv(c, s, After(Start(c, s), run))
  {
    hide Inv, Agree, Compatible, CipherOk, Act1, Output, RetriesIn, Refused, Can, PairWork, Step, Start, Enabled;
    if run == [] {
      StartInv(c, s);
      StartWork(c, s);
    } else {
      var start, last := Start(c, s), |run| - 1;
      var before, e := After(start, run[..last]), run[last];
      assert forall x | x in run[..last] :: x in run;
      RefusedStays(c, s, before, e);
      RunBound(c, s, run[..last]);
      StepWorks(c, s, before, e);
    }
  }

  lemma RefusedStays(c: Config, s: Config, j: Pair, e: Event)
    requires c.Client? && s.Server? && Enabled(j, e)
    ensures Refused(c, s, j) ==> Refused(c, s, Step(j, e))
  {
    hide Agree, Compatible, Act1, Output;
  }

  // No deadlock.

  /** What an end can always do, unless it is done, in error, or has nothing to read. */
  function NextAct(h: Hs): Option<Act> {
    match h.wait
    case Ok => if h.state.Done? then None else Some(Run(Ready))
    case Error => None
    case Flush => Some(Accept(|h.flight|))
    case ReadMessage => if h.inbox == [] then None else Some(Take)
    case ReadCcs => if h.inbox == [] then None else Some(Take)
    case Pending(_) => Some(CallAgain)
    case EarlyReturn => Some(CallAgain)
  }

  /** An end with nothing to do is done, or waits for the other with nothing on its way to it. */
  lemma StuckEnd(c: Config, s: Config, server: bool, h: Hs)
    requires c.Client? && s.Server? && Local(c, s, server, h)
    ensures match NextAct(h)
            case Some(act) => Can(h, act) && act != Run(Fail) && !Retries(h, act)
            case None =>
              var f := Agree(c, s);
              && h.held.None? == (HeldRecs(h) == []) && h.flight == []
              && if h.state.Done? && h.wait.Ok? then Place(f, h) == End(f)
                 else h.held.None? && h.inbox == [] && First(f, Place(f, h)) < 17
                      && FromServer(KindAt(f, First(f, Place(f, h)))) != server
  {
    if NextAct(h).Some? {
      NextActCan(h);
      hide Local, Agree, Can, NextAct, Retries;
    } else {
      NotErrorLocal(c, s, server, h);
      if h.state.Done? && h.wait.Ok? {
        DoneLocal(c, s, server, h);
      } else {
        WaitsForOther(c, s, server, h);
        StuckReader(c, s, server, h);
      }
      hide Local, Agree, Pos, First, FromServer, KindAt, Number;
    }
  }

  lemma NextActCan(h: Hs)
    requires NextAct(h).Some?
    ensures var act := NextAct(h).value; Can(h, act) && act != Run(Fail) && !Retries(h, act)
  {
    hide Act1;
  }

  lemma NotErrorLocal(c: Config, s: Config, server: bool, h: Hs)
    requires c.Client? && s.Server? && Local(c, s, server, h)
    ensures !h.wait.Error?
  {
    hide Agree, LogAt, KnownAt, KeysAt, Pos, Number;
  }

  lemma StuckReader(c: Config, s: Config, server: bool, h: Hs)
    requires c.Client? && s.Server? && Local(c, s, server, h) && (h.wait.ReadMessage? || h.wait.ReadCcs?)
    ensures h.held.None? && h.flight == [] && !h.state.Done?
  {
    NumberBound(h.state);
    hide Agree, LogAt, KnownAt, KeysAt, Pos, Number;
  }

  /** Two ends that are both stuck are both done: whoever is behind has something on its way to it. */
  lemma NeverBothStuck(c: Config, s: Config, j: Pair)
    requires Inv(c, s, j) && NextAct(j.c).None? && NextAct(j.s).None?
    ensures BothDone(j)
  {
    InvEnds(c, s, j, false);
    StuckEnd(c, s, false, j.c);
    StuckEnd(c, s, true, j.s);
    PlaceBound(c, s, false, j.c);
    PlaceBound(c, s, true, j.s);
    hide Inv, Local, Agree, Pos, Number, CipherOk, Recs, Only, FromServer, KindAt, LogAt, NextAct;
    var f := Agree(c, s);
    if !BothDone(j) {
      SameFirst(f, j.c, j.s);
      EndFirst(f);
    }
  }

  lemma SameFirst(f: Facts, a: Hs, b: Hs)
    requires Linked(f, false, a, b) && Place(f, a) <= 17 && Place(f, b) <= 17 && a.flight == b.flight == []
    requires (a.held.None? && a.inbox == []) || Place(f, a) == End(f)
    requires (b.held.None? && b.inbox == []) || Place(f, b) == End(f)
    ensures First(f, Place(f, a)) == First(f, Place(f, b))
  {
    EndFirst(f);
    hide Pos, Number, Recs, Only, FromServer, KindAt, LogAt, First;
    if Place(f, b) <= Place(f, a) {
      RecsHead(f, Place(f, b), Place(f, a));
    }
    if Place(f, a) <= Place(f, b) {
      RecsHead(f, Place(f, a), Place(f, b));
    }
  }

  /** Behind the last message there is none. */
  lemma EndFirst(f: Facts)
    ensures First(f, End(f)) == 17
    ensures forall p: nat | End(f) <= p <= 17 :: First(f, p) == 17
  {
    forall p: nat | End(f) <= p <= 17 ensures First(f, p) == 17 {
      PastEnd(f, p);
    }
  }

  lemma {:induction false} PastEnd(f: Facts, p: nat)
    requires End(f) <= p <= 17
    ensures First(f, p) == 17
    decreases 17 - p
  {
    if p < 17 {
      PastEnd(f, p + 1);
    }
  }

  /** No reachable state is stuck: unless both ends are done, one of them has a turn that makes progress. */
  lemma NoDeadlock(c: Config, s: Config, run: seq<Event>) returns (e: Event)
    requires c.Client? && s.Server? && CipherOk(s) && Possible(Start(c, s), run) && NoneFails(run)
    requires Compatible(Agree(c, s)) && !BothDone(After(Start(c, s), run))
    ensures Enabled(After(Start(c, s), run), e) && e.act != Run(Fail) && !RetriesIn(After(Start(c, s), run), e)
  {
    RunInv(c, s, run);
    var j := After(Start(c, s), run);
    e := TurnOf(c, s, j);
  }

  lemma TurnOf(c: Config, s: Config, j: Pair) returns (e: Event)
    requires Inv(c, s, j) && !BothDone(j)
    ensures Enabled(j, e) && e.act != Run(Fail) && !RetriesIn(j, e)
  {
    hide Inv, Local, Agree, CipherOk, NextAct, Can, Retries, Linked;
    InvEnds(c, s, j, false);
    StuckEnd(c, s, false, j.c);
    StuckEnd(c, s, true, j.s);
    if NextAct(j.c).Some? {
      e := Event(false, NextAct(j.c).value);
    } else if NextAct(j.s).Some? {
      e := Event(true, NextAct(j.s).value);
    } else {
      NeverBothStuck(c, s, j);
      assert false;
    }
  }

  /** From every reachable state the handshake can be completed, and without further retries. */
  lemma {:induction false} Completes(c: Config, s: Config, run: seq<Event>) returns (all: seq<Event>)
    requires c.Client? && s.Server? && CipherOk(s) && Possible(Start(c, s), run) && NoneFails(run)
    requires Compatible(Agree(c, s))
    ensures run <= all && Possible(Start(c, s), all) && NoneFails(all) && BothDone(After(Start(c, s), all))
    decreases PairWork(c, s, After(Start(c, s), run))
  {
    var j := After(Start(c, s), run);
    RunInv(c, s, run);
    NotRefused(c, s, j);
    if BothDone(j) {
      return run;
    }
    hide Inv, Agree, Compatible, CipherOk, BothDone, Step, Start, Enabled, RetriesIn, PairWork;
    var e := TurnOf(c, s, j);
    StepWorks(c, s, j, e);
    NotRefused(c, s, Step(j, e));
    RunExtends(Start(c, s), run, e);
    all := Completes(c, s, run + [e]);
    assert run <= run + [e] <= all;
  }

  lemma NotRefused(c: Config, s: Config, j: Pair)
    requires c.Client? && s.Server? && Compatible(Agree(c, s))
    ensures !Refused(c, s, j)
  {
  }

  lemma RunExtends(start: Pair, run: seq<Event>, e: Event)
    requires Possible(start, run) && Enabled(After(start, run), e)
    ensures Possible(start, run + [e]) && After(start, run + [e]) == Step(After(start, run), e)
    ensures NoneFails(run) && e.act != Run(Fail) ==> NoneFails(run + [e])
  {
    hide Step, Enabled;
    assert (run + [e])[..|run|] == run;
  }

  ghost predicate CanComplete(c: Config, s: Config) {
    exists run :: Possible(Start(c, s), run) && NoneFails(run) && BothDone(After(Start(c, s), run))
  }

  /** A client and a server can complete the handshake exactly when the server gets the certificate it
      insists on; then every run, however it began, can be completed. */
  lemma CompletesIff(c: Config, s: Config)
    requires c.Client? && s.Server? && CipherOk(s)
    ensures CanComplete(c, s) <==> Compatible(Agree(c, s))
  {
    if Compatible(Agree(c, s)) {
      var all := Completes(c, s, []);
    }
    if CanComplete(c, s) {
      var run :| Possible(Start(c, s), run) && NoneFails(run) && BothDone(After(Start(c, s), run));
      DoneAgrees(c, s, run);
    }
  }

  /** Every run is finite: apart from retries there are at most 1300 turns, of either end. */
  lemma Terminates(c: Config, s: Config, run: seq<Event>)
    requires c.Client? && s.Server? && CipherOk(s) && Compatible(Agree(c, s))
    requires Possible(Start(c, s), run) && NoneFails(run)
    ensures |run| <= 1300 + 4 * RetryCount(Start(c, s), run)
  {
    NotRefused(c, s, After(Start(c, s), run));
    RunBound(c, s, run);
  }
}
