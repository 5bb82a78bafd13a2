/** What became of a connection in the mux, told by the steps of the run: routes and fates
    follow from what the peeks found and what the dials came to, and queues keep their order. */
module MuxHistory {
  import opened Messages
  import opened Mux

  // ---------- Outcomes ----------

  /** The peeks and dials of a connection, as far as they are decisive. */
  datatype Outcomes = Outcomes(
    dialled: bool, notDialled: bool, bounced: bool, notBounced: bool, peekFailed: bool)

  function OutcomesOf(steps: seq<Step>, c: nat): Outcomes {
    Outcomes(
      ByHandler(c, DialEnds(true)) in steps, ByHandler(c, DialEnds(false)) in steps,
      Behind(BounceDialEnds(c, true)) in steps, Behind(BounceDialEnds(c, false)) in steps,
      Behind(BouncerPeeks(c, FailedForNow)) in steps || Behind(BouncerPeeks(c, Failed)) in steps)
  }

  ghost predicate RouteAgrees(s: State, c: nat, o: Outcomes) {
    && (c in s.routes && s.routes[c] == Forwarded <==> o.dialled)
    && (c in s.routes && s.routes[c] == Closed <==> o.notDialled)
  }

  ghost predicate FateAgrees(s: State, c: nat, o: Outcomes) {
    var fates := s.queues.fates;
    && (c in fates && fates[c] == Bounced <==> o.bounced)
    && (c in fates && fates[c] == LostToDialError <==> o.notBounced)
    && (c in fates && fates[c] == LostToPeekError <==> o.peekFailed)
  }

  /** In every run, a connection is forwarded if and only if its dial succeeded and closed if
      and only if it failed; it is bounced, lost to a dial error or lost to a peek error if
      and only if that is what happened to it behind the plain queue. */
  lemma {:induction false} OutcomesDecide(cert: Certificate, steps: seq<Step>, c: nat)
    requires Run(cert, steps).Some?
    ensures RouteAgrees(Run(cert, steps).value, c, OutcomesOf(steps, c))
    ensures FateAgrees(Run(cert, steps).value, c, OutcomesOf(steps, c))
  {
    if steps != [] {
      var n := |steps| - 1;
      var s, a := Run(cert, steps[..n]).value, steps[n];
      OutcomesDecide(cert, steps[..n], c);
      EveryRunIsSafe(cert, steps[..n]);
      assert SafeAt(cert, s, c);
      assert steps == steps[..n] + [a];
      OutcomesAgree(cert, s, a, c, OutcomesOf(steps[..n], c), OutcomesOf(steps, c));
    }
  }

  /** What one step adds to the outcomes. */
  ghost predicate Adds(a: Step, c: nat, o: Outcomes, o': Outcomes) {
    && (o'.dialled <==> o.dialled || a == ByHandler(c, DialEnds(true)))
    && (o'.notDialled <==> o.notDialled || a == ByHandler(c, DialEnds(false)))
    && (o'.bounced <==> o.bounced || a == Behind(BounceDialEnds(c, true)))
    && (o'.notBounced <==> o.notBounced || a == Behind(BounceDialEnds(c, false)))
    && (o'.peekFailed <==>
          o.peekFailed || a == Behind(BouncerPeeks(c, FailedForNow)) || a == Behind(BouncerPeeks(c, Failed)))
  }

  lemma OutcomesAgree(cert: Certificate, s: State, a: Step, c: nat, o: Outcomes, o': Outcomes)
    requires Arrived(s, c) && Delivered(s, c) && Enabled(cert, s, a) && Adds(a, c, o, o')
    requires RouteAgrees(s, c, o) && FateAgrees(s, c, o)
    ensures RouteAgrees(Next(cert, s, a), c, o') && FateAgrees(Next(cert, s, a), c, o')
  {
    match a
    case InFront(_) =>
    case ByHandler(x, h) => RouteFollowsDial(cert, s, x, h, c, o, o');
    case Behind(l) => FateFollowsPeekAndDial(s, l, c, o, o');
  }

  lemma RouteFollowsDial(cert: Certificate, s: State, x: nat, h: HandlerStep, c: nat, o: Outcomes, o': Outcomes)
    requires Arrived(s, c) && RouteAgrees(s, c, o) && FateAgrees(s, c, o) && Adds(ByHandler(x, h), c, o, o')
    requires x in s.handlers && x < |s.conns| && HandlerEnabled(cert, s, x, h)
    ensures var t := HandlerNext(cert, s, x, h); RouteAgrees(t, c, o') && FateAgrees(t, c, o')
  {
  }

  lemma FateFollowsPeekAndDial(s: State, l: ListenerStep, c: nat, o: Outcomes, o': Outcomes)
    requires Delivered(s, c) && RouteAgrees(s, c, o) && FateAgrees(s, c, o) && Adds(Behind(l), c, o, o')
    requires ListenerEnabled(s, l)
    ensures RouteAgrees(ListenerNext(s, l), c, o') && FateAgrees(ListenerNext(s, l), c, o')
  {
  }

  /** In every run, the bytes a failed first peek got are what that step says. */
  lemma {:induction false} ShortPeeksAreRemembered(cert: Certificate, steps: seq<Step>, c: nat, got: nat)
    requires Run(cert, steps).Some?
    ensures var s := Run(cert, steps).value;
            ByHandler(c, PeekFails(got)) in steps <==> c in s.short && s.short[c] == got
  {
    if steps != [] {
      var n := |steps| - 1;
      var s, a := Run(cert, steps[..n]).value, steps[n];
      ShortPeeksAreRemembered(cert, steps[..n], c, got);
      EveryRunIsSafe(cert, steps[..n]);
      assert SafeAt(cert, s, c);
      assert steps == steps[..n] + [a];
      ShortPeekIsRemembered(cert, s, a, c, got);
    }
  }

  lemma {:induction false} ShortPeekIsRemembered(cert: Certificate, s: State, a: Step, c: nat, got: nat)
    requires WellRouted(cert, s, c) && Enabled(cert, s, a)
    ensures var t := Next(cert, s, a);
            c in t.short && t.short[c] == got <==>
              (c in s.short && s.short[c] == got) || a == ByHandler(c, PeekFails(got))
  {
  }

  /** In every run, the server has stopped if and only if some second peek failed for good. */
  lemma {:induction false} TheServerStopsAtAFailure(cert: Certificate, steps: seq<Step>)
    requires Run(cert, steps).Some?
    ensures Run(cert, steps).value.queues.stopped <==> exists x :: Behind(BouncerPeeks(x, Failed)) in steps
  {
    if steps != [] {
      var n := |steps| - 1;
      var s, a := Run(cert, steps[..n]).value, steps[n];
      TheServerStopsAtAFailure(cert, steps[..n]);
      assert steps == steps[..n] + [a];
      assert forall x :: Behind(BouncerPeeks(x, Failed)) in steps <==>
        Behind(BouncerPeeks(x, Failed)) in steps[..n] || a == Behind(BouncerPeeks(x, Failed));
      StopsAtAFailure(cert, s, a);
    }
  }

  lemma {:induction false} StopsAtAFailure(cert: Certificate, s: State, a: Step)
    requires Enabled(cert, s, a)
    ensures Next(cert, s, a).queues.stopped <==>
      s.queues.stopped || exists x :: a == Behind(BouncerPeeks(x, Failed))
  {
    if a.Behind? && a.l.BouncerPeeks? && a.l.result == Failed {
      assert a == Behind(BouncerPeeks(a.l.c, Failed));
    }
  }

  /** In every reachable state, the goroutine of a connection may find that its first peek got
      any number of bytes, up to all there are, and its dial may come to either end. */
  lemma AnythingMayCome(cert: Certificate, steps: seq<Step>, c: nat, got: nat, ok: bool)
    requires Run(cert, steps).Some? && c < |Run(cert, steps).value.conns|
    ensures At(Run(cert, steps).value, c, Peeks) ==>
      ((exists more :: Run(cert, steps + more).Some? && ByHandler(c, PeekFails(got)) in more) <==>
         got <= 3 && got <= |Run(cert, steps).value.conns[c].bytes|)
    ensures At(Run(cert, steps).value, c, Dials) ==>
      exists more :: Run(cert, steps + more).Some? && ByHandler(c, DialEnds(ok)) in more
  {
    var s := Run(cert, steps).value;
    if At(s, c, Peeks) {
      if got <= 3 && got <= |s.conns[c].bytes| {
        RunSnoc(cert, steps, ByHandler(c, PeekFails(got)));
        assert ByHandler(c, PeekFails(got)) in [ByHandler(c, PeekFails(got))];
      }
      forall more | Run(cert, steps + more).Some? && ByHandler(c, PeekFails(got)) in more
        ensures got <= 3 && got <= |s.conns[c].bytes|
      {
        ShortPeeksAreRemembered(cert, steps + more, c, got);
        ShortPeeksAreShort(cert, steps + more, c);
        ConnsStay(cert, steps, more);
      }
    }
    if At(s, c, Dials) {
      RunSnoc(cert, steps, ByHandler(c, DialEnds(ok)));
      assert ByHandler(c, DialEnds(ok)) in [ByHandler(c, DialEnds(ok))];
    }
  }

  lemma {:induction false} ConnsStay(cert: Certificate, before: seq<Step>, after: seq<Step>)
    requires Run(cert, before).Some? && Run(cert, before + after).Some?
    ensures Run(cert, before).value.conns <= Run(cert, before + after).value.conns
    decreases |after|
  {
    if after == [] {
      assert before + after == before;
    } else {
      var n := |after| - 1;
      assert (before + after)[..|before + after| - 1] == before + after[..n];
      ConnsStay(cert, before, after[..n]);
      ConnsGrow(cert, Run(cert, before + after[..n]).value, after[n]);
    }
  }

  lemma ConnsGrow(cert: Certificate, s: State, a: Step)
    requires Enabled(cert, s, a)
    ensures s.conns <= Next(cert, s, a).conns
  {
  }

  /** In every run no channel holds more than it can. */
  lemma {:induction false} NoChannelOverflows(cert: Certificate, steps: seq<Step>)
    requires Run(cert, steps).Some?
    ensures var s := Run(cert, steps).value;
            |s.queues.plain| <= 128 && |s.queues.tls| <= 128 && s.plainErrs <= 128 && s.tlsErrs <= 128
  {
    if steps != [] {
      var n := |steps| - 1;
      NoChannelOverflows(cert, steps[..n]);
      NoneOverflows(cert, Run(cert, steps[..n]).value, steps[n]);
    }
  }

  lemma NoneOverflows(cert: Certificate, s: State, a: Step)
    requires Enabled(cert, s, a) && NoMore(s)
    ensures NoMore(Next(cert, s, a))
  {
  }

  predicate NoMore(s: State) {
    |s.queues.plain| <= 128 && |s.queues.tls| <= 128 && s.plainErrs <= 128 && s.tlsErrs <= 128
  }

  // ---------- Order ----------

  /** The connections routed to a queue, in the order in which they were. */
  function Entered(cert: Certificate, steps: seq<Step>, route: Route): seq<nat> {
    if steps == [] then []
    else
      var before := Entered(cert, steps[..|steps| - 1], route);
      match Run(cert, steps)
      case Some(s) => EnteredBy(s, steps[|steps| - 1], route, before)
      case None => before
  }

  function EnteredBy(s: State, a: Step, route: Route, before: seq<nat>): seq<nat> {
    match a
    case ByHandler(c, Decides) => if c in s.routes && s.routes[c] == route then before + [c] else before
    case _ => before
  }

  /** How many of the steps are this one. */
  function Times(steps: seq<Step>, a: Step): nat {
    if steps == [] then 0
    else Times(steps[..|steps| - 1], a) + if steps[|steps| - 1] == a then 1 else 0
  }

  /** A queue holds what was routed to it but for the first ones, as many as were accepted. */
  ghost predicate InOrder(queue: seq<nat>, entered: seq<nat>, taken: nat) {
    taken <= |entered| && queue == entered[taken..]
  }

  /** In every run the queues are first in, first out, and lose nothing. */
  lemma {:induction false} QueuesKeepTheirOrder(cert: Certificate, steps: seq<Step>)
    requires Run(cert, steps).Some?
    ensures var q := Run(cert, steps).value.queues;
            && InOrder(q.plain, Entered(cert, steps, ToPlain), Times(steps, Behind(PlainAccepts)))
            && InOrder(q.tls, Entered(cert, steps, ToTls), Times(steps, Behind(TlsAccepts)))
  {
    if steps != [] {
      var n := |steps| - 1;
      var s, a := Run(cert, steps[..n]).value, steps[n];
      QueuesKeepTheirOrder(cert, steps[..n]);
      EveryRunIsSafe(cert, steps[..n]);
      if a.ByHandler? {
        assert SafeAt(cert, s, a.c);
      }
      var taken, accepted := Times(steps[..n], Behind(PlainAccepts)), Times(steps[..n], Behind(TlsAccepts));
      PlainStaysInOrder(cert, s, a, Entered(cert, steps[..n], ToPlain), taken);
      TlsStaysInOrder(cert, s, a, Entered(cert, steps[..n], ToTls), accepted);
    }
  }

  lemma {:induction false} PlainStaysInOrder(cert: Certificate, s: State, a: Step, entered: seq<nat>, taken: nat)
    requires Enabled(cert, s, a) && (a.ByHandler? ==> Arrived(s, a.c))
    requires InOrder(s.queues.plain, entered, taken)
    ensures var t := Next(cert, s, a);
            InOrder(t.queues.plain, EnteredBy(t, a, ToPlain, entered),
                    taken + if a == Behind(PlainAccepts) then 1 else 0)
  {
  }

  lemma {:induction false} TlsStaysInOrder(cert: Certificate, s: State, a: Step, entered: seq<nat>, taken: nat)
    requires Enabled(cert, s, a) && (a.ByHandler? ==> Arrived(s, a.c))
    requires InOrder(s.queues.tls, entered, taken)
    ensures var t := Next(cert, s, a);
            InOrder(t.queues.tls, EnteredBy(t, a, ToTls, entered),
                    taken + if a == Behind(TlsAccepts) then 1 else 0)
  {
  }

  // ---------- Fates that can still be met ----------

  /** A connection in a queue, or with the listener of the plain queue, cannot meet this fate
      any more. */
  ghost predicate Barred(s: State, c: nat, f: Fate)
    requires c < |s.conns| && c in s.routes
  {
    f !in Fates(s, c) || Missed(s.queues, c, f)
  }

  predicate Missed(q: Queues, c: nat, f: Fate) {
    || (c in q.fates && q.fates[c] != f)
    || (Count(q.plain, c) > 0 && q.stopped)
    || (c in q.bouncing && f == LostToPeekError)
  }

  /** In every reachable state, for every connection that was put into a queue and every fate:
      it can still meet that fate, or has met it, if and only if it is not barred from it. So
      one that speaks HTTP can be handed to a server, one that does not can be bounced, and
      only a stopped server keeps a connection from any fate. */
  lemma FateUnlessBarred(cert: Certificate, steps: seq<Step>, c: nat, f: Fate)
    requires Run(cert, steps).Some? && c < |Run(cert, steps).value.conns| && c in Run(cert, steps).value.routes
    requires Run(cert, steps).value.routes[c] in {ToPlain, ToTls}
    ensures (exists more :: Run(cert, steps + more).Some? && Meets(Run(cert, steps + more).value, c, f))
       <==> !Barred(Run(cert, steps).value, c, f)
  {
    if Barred(Run(cert, steps).value, c, f) {
      forall more | Run(cert, steps + more).Some? ensures !Meets(Run(cert, steps + more).value, c, f) {
        BarredForever(cert, steps, more, c, f);
        EveryRunIsSafe(cert, steps + more);
        assert SafeAt(cert, Run(cert, steps + more).value, c);
        BarredIsNotMet(Run(cert, steps + more).value, c, f);
      }
    } else {
      var end := CanMeet(cert, steps, Run(cert, steps).value, c, f);
      assert steps + end[|steps|..] == end;
    }
  }

  predicate Meets(s: State, c: nat, f: Fate) {
    c in s.queues.fates && s.queues.fates[c] == f
  }

  lemma BarredIsNotMet(s: State, c: nat, f: Fate)
    requires Delivered(s, c) && WellServed(s, c) && c < |s.conns| && c in s.routes && Barred(s, c, f)
    ensures !Meets(s, c, f)
  {
  }

  lemma {:induction false} BarredForever(cert: Certificate, before: seq<Step>, after: seq<Step>, c: nat, f: Fate)
    requires Run(cert, before).Some? && Run(cert, before + after).Some?
    requires c < |Run(cert, before).value.conns| && c in Run(cert, before).value.routes
    requires Barred(Run(cert, before).value, c, f)
    ensures var t := Run(cert, before + after).value; c < |t.conns| && c in t.routes && Barred(t, c, f)
    decreases |after|
  {
    if after == [] {
      assert before + after == before;
    } else {
      var n := |after| - 1;
      assert (before + after)[..|before + after| - 1] == before + after[..n];
      BarredForever(cert, before, after[..n], c, f);
      EveryRunIsSafe(cert, before + after[..n]);
      var s := Run(cert, before + after[..n]).value;
      assert SafeAt(cert, s, c);
      FatesStay(cert, s, after[n], c);
      if Missed(s.queues, c, f) {
        MissedStaysMissed(cert, s, after[n], c, f);
      }
    }
  }

  lemma {:induction false} FatesStay(cert: Certificate, s: State, a: Step, c: nat)
    requires Arrived(s, c) && Enabled(cert, s, a) && c < |s.conns| && c in s.routes
    ensures var t := Next(cert, s, a); c < |t.conns| && c in t.routes && Fates(t, c) == Fates(s, c)
  {
    match a
    case InFront(f) =>
    case ByHandler(x, h) => HandlerKeepsFates(cert, s, x, h, c);
    case Behind(_) =>
  }

  lemma {:induction false} HandlerKeepsFates(cert: Certificate, s: State, x: nat, h: HandlerStep, c: nat)
    requires Arrived(s, c) && x in s.handlers && x < |s.conns| && HandlerEnabled(cert, s, x, h)
    requires c < |s.conns| && c in s.routes
    ensures var t := HandlerNext(cert, s, x, h); c in t.routes && Fates(t, c) == Fates(s, c)
  {
  }

  lemma {:induction false} MissedStaysMissed(cert: Certificate, s: State, a: Step, c: nat, f: Fate)
    requires Delivered(s, c) && Enabled(cert, s, a) && c < |s.conns|
    requires Missed(s.queues, c, f)
    ensures Missed(Next(cert, s, a).queues, c, f)
  {
    match a
    case InFront(_) =>
    case ByHandler(x, h) => CountSnoc(s.queues.plain, x, c);
    case Behind(l) => ListenerLeavesMissed(s, l, c, f);
  }

  lemma {:induction false} ListenerLeavesMissed(s: State, l: ListenerStep, c: nat, f: Fate)
    requires Delivered(s, c) && ListenerEnabled(s, l) && Missed(s.queues, c, f)
    ensures Missed(ListenerNext(s, l).queues, c, f)
  {
  }

  /** What brings a connection closer to a fate. */
  ghost predicate Leads(s: State, t: State, c: nat, f: Fate) {
    && c < |t.conns| && c in t.routes && !Barred(t, c, f)
    && (Meets(t, c, f) || (c !in t.queues.fates && Backlog(t) < Backlog(s)))
  }

  lemma SomethingLeads(cert: Certificate, s: State, c: nat, f: Fate) returns (l: ListenerStep)
    requires Safe(cert, s) && c < |s.conns| && c in s.routes && s.routes[c] in {ToPlain, ToTls}
    requires !Barred(s, c, f) && c !in s.queues.fates
    ensures ListenerEnabled(s, l) && Leads(s, ListenerNext(s, l), c, f)
  {
    var q := s.queues;
    assert SafeAt(cert, s, c);
    if c in q.bouncing {
      l := BounceDialEnds(c, f == Bounced);
    } else if c in q.peeked {
      l := BouncerPeeks(c, if f == LostToPeekError then FailedForNow else Peeked);
    } else if Count(q.tls, c) > 0 {
      l := TlsAccepts;
    } else if q.peeked == {} {
      l := PlainAccepts;
    } else {
      var x :| x in q.peeked;
      assert SafeAt(cert, s, x);
      l := BouncerPeeks(x, FailedForNow);
    }
    ListenerLeads(s, l, c, f);
  }

  lemma {:induction false} ListenerLeads(s: State, l: ListenerStep, c: nat, f: Fate)
    requires Arrived(s, c) && Delivered(s, c) && WellServed(s, c) && ListenerEnabled(s, l)
    requires c < |s.conns| && c in s.routes && !Barred(s, c, f) && c !in s.queues.fates
    requires match l
             case TlsAccepts => Count(s.queues.tls, c) > 0
             case PlainAccepts => Count(s.queues.plain, c) > 0
             case BounceDialEnds(x, ok) => x == c && ok == (f == Bounced)
             case BouncerPeeks(x, r) =>
               if x == c then r == (if f == LostToPeekError then FailedForNow else Peeked)
               else r == FailedForNow && Count(s.queues.plain, c) > 0
    ensures Leads(s, ListenerNext(s, l), c, f)
  {
  }

  lemma {:induction false} CanMeet(cert: Certificate, steps: seq<Step>, s: State, c: nat, f: Fate)
    returns (end: seq<Step>)
    requires Run(cert, steps) == Some(s) && c < |s.conns| && c in s.routes && s.routes[c] in {ToPlain, ToTls}
    requires !Barred(s, c, f)
    ensures steps <= end && Run(cert, end).Some? && Meets(Run(cert, end).value, c, f)
    decreases c !in s.queues.fates, Backlog(s)
  {
    if c in s.queues.fates {
      return steps;
    }
    EveryRunIsSafe(cert, steps);
    var l := SomethingLeads(cert, s, c, f);
    RunSnoc(cert, steps, Behind(l));
    end := CanMeet(cert, steps + [Behind(l)], ListenerNext(s, l), c, f);
  }
}
