/** Pending operations change nothing: an end of a handshake, whatever it receives and however its operations
    answer, behaves as if each of them had answered at once. */
module Retries {
  import opened Bytes
  import opened HandshakeState
  import opened HandshakeProduct
  import ClientSteps
  import ServerSteps

  /** A turn of the end, or a record arriving from whoever is on the other side. */
  datatype Event = Turn(act: Act) | Arrive(r: Rec)

  /** The end, and the records that its transport has accepted. */
  datatype Track = Track(h: Hs, sent: seq<Rec>)

  predicate Enabled(t: Track, e: Event) {
    e.Turn? ==> Can(t.h, e.act)
  }

  function Step(t: Track, e: Event): Track
    requires Enabled(t, e)
  {
    match e
    case Turn(act) => Track(Act1(t.h, act), t.sent + Output(t.h, act))
    case Arrive(r) => t.(h := t.h.(inbox := t.h.inbox + [r]))
  }

  predicate Possible(cfg: Config, run: seq<Event>)
    decreases |run|, 0
  {
    run == [] || (Possible(cfg, run[..|run| - 1]) && Enabled(After(cfg, run[..|run| - 1]), run[|run| - 1]))
  }

  function After(cfg: Config, run: seq<Event>): Track
    requires Possible(cfg, run)
    decreases |run|, 1
  {
    if run == [] then Track(Begin(cfg), []) else Step(After(cfg, run[..|run| - 1]), run[|run| - 1])
  }

  /** Whether the event only shows the caller that an operation is pending, or has it call again after that. */
  predicate Idle(t: Track, e: Event)
    requires Enabled(t, e)
  {
    e.Turn? && (if e.act.Run? then Act1(t.h, e.act).wait.Pending? else e.act.CallAgain? && t.h.wait.Pending?)
  }

  /** The run without its pending results. */
  function Strip(cfg: Config, run: seq<Event>): seq<Event>
    requires Possible(cfg, run)
  {
    if run == [] then []
    else
      var rest, e := Strip(cfg, run[..|run| - 1]), run[|run| - 1];
      if Idle(After(cfg, run[..|run| - 1]), e) then rest else rest + [e]
  }

  /** The end as it is when the caller has come back from a pending operation. */
  function Settled(t: Track): Track {
    if t.h.wait.Pending? then t.(h := t.h.Stop(Ok)) else t
  }

  /** An operation that is pending leaves everything as it was. */
  lemma PendingKeeps(h: Hs, act: Act)
    requires Can(h, act) && Act1(h, act).wait.Pending?
    ensures act.Run? && Act1(h, act) == h.Stop(Act1(h, act).wait)
  {
    hide Act1;
    if act.Run? {
      RunKeeps(h, act.a);
    } else {
      assert act.Take? ==> !TakeRecord(h).wait.Pending?;
      OtherKeeps(h, act);
    }
  }

  lemma OtherKeeps(h: Hs, act: Act)
    requires Can(h, act) && !act.Run?
    ensures !Act1(h, act).wait.Pending?
  {
  }

  lemma RunKeeps(h: Hs, a: Answer)
    requires Can(h, Run(a)) && Act1(h, Run(a)).wait.Pending?
    ensures Act1(h, Run(a)) == h.Stop(Act1(h, Run(a)).wait)
  {
    if h.cfg.Client? {
      ClientKeeps(h, a);
    } else {
      ServerKeeps(h, a);
    }
  }

  lemma ClientKeeps(h: Hs, a: Answer)
    requires h.cfg.Client? && h.wait.Ok? && ClientSteps.Do(h, a).wait.Pending?
    ensures ClientSteps.Do(h, a) == h.Stop(ClientSteps.Do(h, a).wait)
  {
    hide ClientSteps.Do;
    if FirstClientHalf(h.state) {
      ClientKeeps1(h, a);
    } else {
      ClientKeeps2(h, a);
    }
  }

  lemma ClientKeeps1(h: Hs, a: Answer)
    requires h.cfg.Client? && h.wait.Ok? && ClientSteps.Do(h, a).wait.Pending? && FirstClientHalf(h.state)
    ensures ClientSteps.Do(h, a) == h.Stop(ClientSteps.Do(h, a).wait)
  {
  }

  lemma ClientKeeps2(h: Hs, a: Answer)
    requires h.cfg.Client? && h.wait.Ok? && ClientSteps.Do(h, a).wait.Pending? && !FirstClientHalf(h.state)
    ensures ClientSteps.Do(h, a) == h.Stop(ClientSteps.Do(h, a).wait)
  {
  }

  lemma ServerKeeps(h: Hs, a: Answer)
    requires h.cfg.Server? && h.wait.Ok? && ServerSteps.Do(h, a).wait.Pending?
    ensures ServerSteps.Do(h, a) == h.Stop(ServerSteps.Do(h, a).wait)
  {
    hide ServerSteps.Do;
    if FirstServerHalf(h.state) {
      ServerKeeps1(h, a);
    } else {
      ServerKeeps2(h, a);
    }
  }

  lemma ServerKeeps1(h: Hs, a: Answer)
    requires h.cfg.Server? && h.wait.Ok? && ServerSteps.Do(h, a).wait.Pending? && FirstServerHalf(h.state)
    ensures ServerSteps.Do(h, a) == h.Stop(ServerSteps.Do(h, a).wait)
  {
  }

  lemma ServerKeeps2(h: Hs, a: Answer)
    requires h.cfg.Server? && h.wait.Ok? && ServerSteps.Do(h, a).wait.Pending? && !FirstServerHalf(h.state)
    ensures ServerSteps.Do(h, a) == h.Stop(ServerSteps.Do(h, a).wait)
  {
  }

  lemma StripStep(t: Track, e: Event)
    requires Enabled(t, e)
    ensures if Idle(t, e) then Settled(Step(t, e)) == Settled(t)
            else Enabled(Settled(t), e) && Settled(Step(t, e)) == Step(Settled(t), e)
  {
    hide Act1;
    match e {
      case Turn(act) =>
        assert t.sent + [] == t.sent;
        if Act1(t.h, act).wait.Pending? {
          PendingKeeps(t.h, act);
        }
        if act.CallAgain? {
          Resumes(t.h);
        }
      case Arrive(r) =>
    }
  }

  lemma Resumes(h: Hs)
    requires Can(h, CallAgain)
    ensures Act1(h, CallAgain) == h.Stop(Ok)
  {
  }

  /** Inserting or leaving out pending results changes neither what an end has sent, nor its transcript, nor
      any other part of its state. */
  lemma {:induction false} RetriesChangeNothing(cfg: Config, run: seq<Event>)
    requires Possible(cfg, run)
    ensures Possible(cfg, Strip(cfg, run))
    ensures After(cfg, Strip(cfg, run)) == Settled(After(cfg, run))
  {
    hide Step, Enabled, Settled, Idle;
    if run == [] {
      FreshSettled(cfg);
    } else {
      var before, e := run[..|run| - 1], run[|run| - 1];
      RetriesChangeNothing(cfg, before);
      StripStep(After(cfg, before), e);
      var rest := Strip(cfg, before);
      assert (rest + [e])[..|rest|] == rest;
    }
  }

  lemma FreshSettled(cfg: Config)
    ensures Settled(Track(Begin(cfg), [])) == Track(Begin(cfg), [])
  {
  }

  // Flushes that are taken in parts.

  /** Whether the event has the transport accept a part of the flight, and not the whole of what is left. */
  predicate Partly(t: Track, e: Event)
    requires Enabled(t, e)
  {
    e.Turn? && e.act.Accept? && e.act.n < |t.h.flight|
  }

  /** How many records of the flight that is being flushed have been accepted. */
  function Taken(cfg: Config, run: seq<Event>): nat
    requires Possible(cfg, run)
  {
    if run == [] then 0
    else
      var before, e := run[..|run| - 1], run[|run| - 1];
      if e.Arrive? then Taken(cfg, before)
      else if Partly(After(cfg, before), e) then Taken(cfg, before) + e.act.n
      else 0
  }

  /** The event that stands for this one when each flush is taken as a whole. */
  function WholeEvent(e: Event, taken: nat): Event {
    if e.Turn? && e.act.Accept? then Turn(Accept(taken + e.act.n)) else e
  }

  /** The run without its pending results, and with each flush taken at once. */
  function Merge(cfg: Config, run: seq<Event>): seq<Event>
    requires Possible(cfg, run)
  {
    if run == [] then []
    else
      var before, e := run[..|run| - 1], run[|run| - 1];
      var rest, t := Merge(cfg, before), After(cfg, before);
      if Idle(t, e) || Partly(t, e) then rest else rest + [WholeEvent(e, Taken(cfg, before))]
  }

  /** The end as if the last k records that were accepted had not been. */
  function Whole(t: Track, k: nat): Track
    requires k <= |t.sent|
  {
    var s, n := Settled(t), |t.sent| - k;
    Track(s.h.(flight := t.sent[n..] + t.h.flight), t.sent[..n])
  }

  lemma WholeNone(t: Track)
    ensures Whole(t, 0) == Settled(t)
  {
    hide Settled;
    assert t.sent[|t.sent|..] + t.h.flight == t.h.flight && t.sent[..|t.sent|] == t.sent;
    assert Settled(t) == Track(Settled(t).h.(flight := t.h.flight), t.sent) by {
      SettledKeeps(t);
    }
  }

  lemma SettledKeeps(t: Track)
    ensures Settled(t).sent == t.sent && Settled(t).h.flight == t.h.flight
  {
  }

  /** The records that are accepted now join those before. */
  lemma PartJoins(sent: seq<Rec>, flight: seq<Rec>, k: nat, n: nat)
    requires k <= |sent| && n <= |flight|
    ensures var sent', m := sent + flight[..n], |sent| - k;
            sent'[..m] == sent[..m] && sent'[m..] + flight[n..] == sent[m..] + flight
  {
    var sent', m := sent + flight[..n], |sent| - k;
    assert sent'[m..] == sent[m..] + flight[..n];
    assert flight[..n] + flight[n..] == flight;
  }

  lemma AcceptPart(t: Track, n: nat, k: nat)
    requires Enabled(t, Turn(Accept(n))) && n < |t.h.flight| && k <= |t.sent|
    ensures var t' := Step(t, Turn(Accept(n)));
            t'.h.wait.Flush? && k + n <= |t'.sent| && Whole(t', k + n) == Whole(t, k)
  {
    PartJoins(t.sent, t.h.flight, k, n);
  }

  lemma AcceptRest(t: Track, n: nat, k: nat)
    requires Enabled(t, Turn(Accept(n))) && n == |t.h.flight| && k <= |t.sent|
    ensures var e := Turn(Accept(k + n));
            Enabled(Whole(t, k), e) && Step(Whole(t, k), e) == Settled(Step(t, Turn(Accept(n))))
  {
    var m := |t.sent| - k;
    var all := t.sent[m..] + t.h.flight;
    assert all[..k + n] == all && all[k + n..] == [] && t.h.flight[n..] == [] && t.h.flight[..n] == t.h.flight;
    assert t.sent[..m] + all == t.sent + t.h.flight;
  }

  lemma MergeArrive(t: Track, r: Rec, k: nat)
    requires k <= |t.sent|
    ensures Whole(Step(t, Arrive(r)), k) == Step(Whole(t, k), Arrive(r))
  {
  }

  /** A flush is under way only while it is waited for. */
  ghost predicate Flushing(t: Track, k: nat) {
    k <= |t.sent| && (k > 0 ==> t.h.wait.Flush?)
  }

  lemma MergeStep(t: Track, e: Event, k: nat, k': nat)
    requires Enabled(t, e) && Flushing(t, k)
    requires k' == if e.Arrive? then k else if Partly(t, e) then k + e.act.n else 0
    ensures Flushing(Step(t, e), k')
    ensures if Idle(t, e) || Partly(t, e) then Whole(Step(t, e), k') == Whole(t, k)
            else Enabled(Whole(t, k), WholeEvent(e, k))
                 && Step(Whole(t, k), WholeEvent(e, k)) == Whole(Step(t, e), k')
  {
    match e {
      case Arrive(r) => MergeArrive(t, r, k);
      case Turn(act) =>
        if act.Accept? {
          if act.n < |t.h.flight| {
            AcceptPart(t, act.n, k);
          } else {
            AcceptRest(t, act.n, k);
            WholeNone(Step(t, e));
          }
        } else {
          assert k == 0;
          hide Step, Enabled, Settled, Idle, Whole;
          StripStep(t, e);
          WholeNone(t);
          WholeNone(Step(t, e));
        }
    }
  }

  /** Pending results and flushes that are taken in parts change nothing: what was sent and is still to be sent, the
      transcript and the rest of the state are those of the run in which each operation answered at once and each flush
      was taken as a whole; and so is what was sent, unless a flush is under way. */
  lemma {:induction false} FlushesChangeNothing(cfg: Config, run: seq<Event>)
    requires Possible(cfg, run)
    ensures Possible(cfg, Merge(cfg, run)) && Flushing(After(cfg, run), Taken(cfg, run))
    ensures var t, u := After(cfg, run), After(cfg, Merge(cfg, run));
            && u == Whole(t, Taken(cfg, run))
            && u.sent + u.h.flight == t.sent + t.h.flight
            && u.h.(flight := []) == Settled(t).h.(flight := [])
            && (!t.h.wait.Flush? ==> u == Settled(t))
  {
    var t, k := After(cfg, run), Taken(cfg, run);
    if run == [] {
      FreshSettled(cfg);
      WholeNone(t);
    } else {
      var before, e := run[..|run| - 1], run[|run| - 1];
      FlushesChangeNothing(cfg, before);
      hide Step, Enabled, Settled, Idle, Partly, Whole;
      MergeStep(After(cfg, before), e, Taken(cfg, before), k);
      var rest, last := Merge(cfg, before), WholeEvent(e, Taken(cfg, before));
      assert (rest + [last])[..|rest|] == rest;
    }
    WholeParts(t, k);
  }

  lemma WholeParts(t: Track, k: nat)
    requires Flushing(t, k)
    ensures var u := Whole(t, k);
            && u.sent + u.h.flight == t.sent + t.h.flight
            && u.h.(flight := []) == Settled(t).h.(flight := [])
            && (!t.h.wait.Flush? ==> u == Settled(t))
  {
    var n := |t.sent| - k;
    assert t.sent[..n] + (t.sent[n..] + t.h.flight) == t.sent + t.h.flight;
    if k == 0 {
      WholeNone(t);
    }
  }

  /** An error is final: the end sends nothing more and changes nothing but its channel. */
  lemma {:induction false} ErrorIsFinal(cfg: Config, run: seq<Event>, more: seq<Event>)
    requires Possible(cfg, run) && Possible(cfg, run + more) && After(cfg, run).h.wait.Error?
    ensures var a, b := After(cfg, run), After(cfg, run + more);
            b.sent == a.sent && b.h == a.h.(inbox := b.h.inbox)
    decreases |more|
  {
    if more == [] {
      assert run + more == run;
    } else {
      var less := more[..|more| - 1];
      assert (run + more)[..|run + more| - 1] == run + less;
      hide Act1, Output;
      ErrorIsFinal(cfg, run, less);
    }
  }
}
