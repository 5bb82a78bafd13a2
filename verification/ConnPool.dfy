/** The cache of client connections: the two locked operations on it, and the calls that use
    them one after the other without holding the lock in between. */
module ConnPool {
  import opened Messages

  /** A dialled connection: where it leads, and which dial made it. */
  datatype ClientConn = ClientConn(destination: string, dial: nat)

  class ConnPool {
    var conns: map<string, ClientConn>

    constructor ()
      ensures conns == map[]
    {
      conns := map[];
    }

    method GetConn(destination: string) returns (conn: Option<ClientConn>)
      ensures conn == Cached(conns, destination)
    {
      return if destination in conns then Some(conns[destination]) else None;
    }

    method AddConn(destination: string, conn: ClientConn)
      modifies this
      ensures conns == old(conns)[destination := conn]
    {
      conns := conns[destination := conn];
    }

    /** One call that nobody interrupts. dialled is what the dialer would answer. */
    method GetClientConn(destination: string, dialled: Option<ClientConn>) returns (conn: Option<ClientConn>)
      requires dialled.Some? ==> dialled.value.destination == destination
      requires LeadsThere(conns)
      modifies this
      ensures LeadsThere(conns) && old(conns.Keys) <= conns.Keys
      ensures conn == if destination in old(conns) then Some(old(conns)[destination]) else dialled
      ensures conns == if conn.Some? then old(conns)[destination := conn.value] else old(conns)
      ensures conn.Some? ==> conn.value.destination == destination
    {
      conn := GetConn(destination);
      if conn.Some? {
        assert conns[destination := conn.value] == conns;
        return conn;
      }
      if dialled.None? {
        return None;
      }
      AddConn(destination, dialled.value);
      return dialled;
    }
  }

  function Cached(conns: map<string, ClientConn>, destination: string): Option<ClientConn> {
    if destination in conns then Some(conns[destination]) else None
  }

  /** What is looked up after an addition is what was added last for that destination, and
      no other destination notices. */
  lemma {:induction false} LatestAdditionIsCached(
      conns: map<string, ClientConn>, d: string, added: seq<ClientConn>, other: string)
    requires added != [] && forall k :: 0 <= k < |added| ==> added[k].destination == d
    ensures Cached(AddedAll(conns, added), d) == Some(added[|added| - 1])
    ensures other != d ==> Cached(AddedAll(conns, added), other) == Cached(conns, other)
  {
    if |added| > 1 {
      LatestAdditionIsCached(conns, d, added[..|added| - 1], other);
    } else {
      assert AddedAll(conns, added[..0]) == conns;
    }
  }

  /** The cache after some additions, each under its own destination. */
  function AddedAll(conns: map<string, ClientConn>, added: seq<ClientConn>): map<string, ClientConn> {
    if added == [] then conns
    else
      var last := added[|added| - 1];
      AddedAll(conns, added[..|added| - 1])[last.destination := last]
  }

  /** Every cached connection leads where its key says. */
  ghost predicate LeadsThere(conns: map<string, ClientConn>) {
    forall d :: d in conns ==> conns[d].destination == d
  }

  // ---------- Calls that interleave ----------

  /** Where a call stands. Each of the steps between is atomic: two hold the lock, and the
      dial takes as long as it takes. */
  datatype Call =
    | Called(destination: string)
    | Missed(destination: string)
    | Dialled(destination: string, conn: ClientConn)
    | Returned(destination: string, conn: ClientConn)
    | Failed(destination: string)

  /** Every dial that was made: for which destination, and by which call. */
  datatype Made = Made(destination: string, caller: nat)

  datatype State = State(conns: map<string, ClientConn>, calls: seq<Call>, dials: seq<Made>)

  const INITIAL := State(map[], [], [])

  /** A new call; the look into the cache, the dial and the update by call i. */
  datatype Step = Start(destination: string) | Get(i: nat) | Dial(i: nat, ok: bool) | Add(i: nat)

  predicate Enabled(s: State, a: Step) {
    match a
    case Start(_) => true
    case Get(i) => i < |s.calls| && s.calls[i].Called?
    case Dial(i, _) => i < |s.calls| && s.calls[i].Missed?
    case Add(i) => i < |s.calls| && s.calls[i].Dialled?
  }

  function Next(s: State, a: Step): State
    requires Enabled(s, a)
  {
    match a
    case Start(d) => s.(calls := s.calls + [Called(d)])
    case Get(i) =>
      var d := s.calls[i].destination;
      s.(calls := s.calls[i := match Cached(s.conns, d) case Some(c) => Returned(d, c) case None => Missed(d)])
    case Dial(i, ok) =>
      var d := s.calls[i].destination;
      s.(calls := s.calls[i := if ok then Dialled(d, ClientConn(d, |s.dials|)) else Failed(d)],
         dials := s.dials + [Made(d, i)])
    case Add(i) =>
      var c := s.calls[i];
      s.(conns := s.conns[c.destination := c.conn], calls := s.calls[i := Returned(c.destination, c.conn)])
  }

  /** The state after a sequence of steps, if every one of them was possible. */
  function Run(start: State, steps: seq<Step>): Option<State> {
    if steps == [] then Some(start)
    else
      match Run(start, steps[..|steps| - 1])
      case None => None
      case Some(s) =>
        var a := steps[|steps| - 1];
        if Enabled(s, a) then Some(Next(s, a)) else None
  }

  /** A connection that was dialled for this destination. */
  ghost predicate DialledFor(dials: seq<Made>, d: string, c: ClientConn) {
    c.destination == d && c.dial < |dials| && dials[c.dial].destination == d
  }

  /** The call has a connection that it dialled itself. */
  ghost predicate HasItsOwn(s: State, i: nat) {
    && i < |s.calls| && (s.calls[i].Dialled? || s.calls[i].Returned?)
    && s.calls[i].conn.dial < |s.dials| && s.dials[s.calls[i].conn.dial].caller == i
  }

  ghost predicate Sound(s: State) {
    && (forall d :: d in s.conns ==> DialledFor(s.dials, d, s.conns[d]))
    && (forall i :: 0 <= i < |s.calls| && (s.calls[i].Dialled? || s.calls[i].Returned?) ==>
          DialledFor(s.dials, s.calls[i].destination, s.calls[i].conn))
    && (forall i: nat :: i < |s.calls| && s.calls[i].Dialled? ==> HasItsOwn(s, i))
    && (forall k :: 0 <= k < |s.dials| ==> HasDialled(s, s.dials[k].caller))
    && (forall j, k :: 0 <= j < k < |s.dials| ==> s.dials[j].caller != s.dials[k].caller)
  }

  ghost predicate HasDialled(s: State, i: nat) {
    i < |s.calls| && !s.calls[i].Called? && !s.calls[i].Missed?
  }

  lemma StepIsSound(s: State, a: Step)
    requires Sound(s) && Enabled(s, a)
    ensures Sound(Next(s, a))
  {
    var t := Next(s, a);
    assert forall d, c :: DialledFor(s.dials, d, c) ==> DialledFor(t.dials, d, c);
    assert forall i :: HasDialled(s, i) ==> HasDialled(t, i);
  }

  lemma {:induction false} EveryRunIsSound(steps: seq<Step>)
    requires Run(INITIAL, steps).Some?
    ensures Sound(Run(INITIAL, steps).value)
  {
    if steps != [] {
      var n := |steps| - 1;
      EveryRunIsSound(steps[..n]);
      StepIsSound(Run(INITIAL, steps[..n]).value, steps[n]);
    }
  }

  /** In every run, whatever a call returns was dialled for the destination it asked for,
      and no call dials twice. */
  lemma ReturnedConnectionsLeadThere(steps: seq<Step>, i: nat)
    requires Run(INITIAL, steps).Some? && i < |Run(INITIAL, steps).value.calls|
    ensures var s := Run(INITIAL, steps).value;
            && (s.calls[i].Returned? ==> DialledFor(s.dials, s.calls[i].destination, s.calls[i].conn))
            && forall j, k :: 0 <= j < k < |s.dials| ==> !(s.dials[j].caller == i == s.dials[k].caller)
  {
    EveryRunIsSound(steps);
  }

  // ---------- What the steps of a run tell ----------

  /** In every run, a call has failed if and only if its dial did, and has a connection of its
      own if and only if its dial succeeded; that one is returned once it has been added. */
  lemma {:induction false} OutcomesAreTold(steps: seq<Step>, i: nat)
    requires Run(INITIAL, steps).Some?
    ensures var s := Run(INITIAL, steps).value;
            && (i < |s.calls| && s.calls[i].Failed? <==> Dial(i, false) in steps)
            && (HasItsOwn(s, i) <==> Dial(i, true) in steps)
            && (HasItsOwn(s, i) && s.calls[i].Returned? <==> Add(i) in steps)
  {
    if steps != [] {
      var n := |steps| - 1;
      assert steps == steps[..n] + [steps[n]];
      EveryRunIsSound(steps[..n]);
      OutcomesAreTold(steps[..n], i);
      OutcomeIsTold(Run(INITIAL, steps[..n]).value, steps[n], i);
    }
  }

  lemma OutcomeIsTold(s: State, a: Step, i: nat)
    requires Sound(s) && Enabled(s, a)
    ensures var t := Next(s, a);
            && (i < |t.calls| && t.calls[i].Failed? <==>
                  (i < |s.calls| && s.calls[i].Failed?) || a == Dial(i, false))
            && (HasItsOwn(t, i) <==> HasItsOwn(s, i) || a == Dial(i, true))
            && (HasItsOwn(t, i) && t.calls[i].Returned? <==>
                  (HasItsOwn(s, i) && s.calls[i].Returned?) || a == Add(i))
  {
  }

  /** A call never changes its destination, and what it returned stays. */
  ghost predicate CallsStay(s: State, t: State) {
    && |s.calls| <= |t.calls|
    && forall i :: 0 <= i < |s.calls| ==>
         t.calls[i].destination == s.calls[i].destination && (s.calls[i].Returned? ==> t.calls[i] == s.calls[i])
  }

  /** In every run, the cache has for each destination what was added for it last. */
  lemma {:induction false} CacheHasTheLastAddition(steps: seq<Step>, p: nat, i: nat)
    requires Run(INITIAL, steps).Some? && p < |steps| && steps[p] == Add(i)
    requires var s := Run(INITIAL, steps).value;
             i < |s.calls| && forall q: nat, j: nat :: p < q < |steps| && steps[q] == Add(j) && j < |s.calls| ==>
               s.calls[j].destination != s.calls[i].destination
    ensures var s := Run(INITIAL, steps).value;
            s.calls[i].Returned? && Cached(s.conns, s.calls[i].destination) == Some(s.calls[i].conn)
  {
    var n := |steps| - 1;
    var s := Run(INITIAL, steps[..n]).value;
    assert CallsStay(s, Run(INITIAL, steps).value);
    if p < n {
      OutcomesAreTold(steps[..n], i);
      assert steps[..n][p] == Add(i);
      CacheHasTheLastAddition(steps[..n], p, i);
    }
  }

  /** And nothing that was not added. */
  lemma {:induction false} CacheHasOnlyAdditions(steps: seq<Step>, d: string)
    requires Run(INITIAL, steps).Some? && d in Run(INITIAL, steps).value.conns
    ensures var s := Run(INITIAL, steps).value;
            exists i :: 0 <= i < |s.calls| && Add(i) in steps && s.calls[i].destination == d
  {
    var n := |steps| - 1;
    var s, t := Run(INITIAL, steps[..n]).value, Run(INITIAL, steps).value;
    assert steps == steps[..n] + [steps[n]];
    assert CallsStay(s, t);
    if d in s.conns {
      CacheHasOnlyAdditions(steps[..n], d);
      var i :| 0 <= i < |s.calls| && Add(i) in steps[..n] && s.calls[i].destination == d;
      assert Add(i) in steps && t.calls[i].destination == d;
    } else {
      assert steps[n].Add? && t.calls[steps[n].i].destination == d;
    }
  }

  // ---------- Once a destination is cached ----------

  /** How t may look some steps after s: keys of the cache and dials have not gone away, and
      a call that started since, for a destination cached by then, has not dialled. */
  ghost predicate After(s: State, t: State) {
    && s.conns.Keys <= t.conns.Keys && s.dials <= t.dials && |s.calls| <= |t.calls|
    && (forall i :: |s.calls| <= i < |t.calls| && t.calls[i].destination in s.conns ==>
          t.calls[i].Called? || t.calls[i].Returned?)
    && (forall k :: 0 <= k < |t.dials| && |s.calls| <= t.dials[k].caller ==>
          t.dials[k].caller < |t.calls| && t.calls[t.dials[k].caller].destination !in s.conns)
  }

  lemma StepIsAfter(s: State, t: State, a: Step)
    requires After(s, t) && Enabled(t, a)
    ensures After(s, Next(t, a))
  {
  }

  /** From any reachable state on, in every run: keys are never removed, and a call that
      starts once its destination is cached never dials. */
  lemma {:induction false} CachedCallsNeverDial(before: seq<Step>, after: seq<Step>)
    requires Run(INITIAL, before).Some? && Run(Run(INITIAL, before).value, after).Some?
    ensures After(Run(INITIAL, before).value, Run(Run(INITIAL, before).value, after).value)
    decreases |after|
  {
    var s := Run(INITIAL, before).value;
    if after == [] {
      EveryRunIsSound(before);
    } else {
      var n := |after| - 1;
      CachedCallsNeverDial(before, after[..n]);
      StepIsAfter(s, Run(s, after[..n]).value, after[n]);
    }
  }

  /** Two calls that both miss. */
  function TwoCalls(d: string): seq<Step> {
    [Start(d), Start(d), Get(0), Get(1), Dial(0, true), Dial(1, true), Add(1), Add(0)]
  }

  lemma BothMiss(d: string)
    ensures Run(INITIAL, TwoCalls(d)[..4]) == Some(State(map[], [Missed(d), Missed(d)], []))
  {
    var steps := TwoCalls(d);
    var s1, s2 := State(map[], [Called(d)], []), State(map[], [Called(d), Called(d)], []);
    var s3 := s2.(calls := [Missed(d), Called(d)]);
    assert steps[..0] == [];
    RunsTo(steps, 0, INITIAL, s1);
    RunsTo(steps, 1, s1, s2);
    RunsTo(steps, 2, s2, s3);
    RunsTo(steps, 3, s3, s2.(calls := [Missed(d), Missed(d)]));
  }

  lemma BothDial(d: string)
    ensures Run(INITIAL, TwoCalls(d)[..6]) == Some(BothDialled(d))
  {
    var steps := TwoCalls(d);
    var s5 := State(map[], [Dialled(d, ClientConn(d, 0)), Missed(d)], [Made(d, 0)]);
    BothMiss(d);
    RunsTo(steps, 4, State(map[], [Missed(d), Missed(d)], []), s5);
    RunsTo(steps, 5, s5, BothDialled(d));
  }

  function BothDialled(d: string): State {
    State(map[], [Dialled(d, ClientConn(d, 0)), Dialled(d, ClientConn(d, 1))], [Made(d, 0), Made(d, 1)])
  }

  /** Both dial. They return different connections, and the cache keeps the one that was
      added last. */
  lemma ConcurrentMissesDialTwice(d: string)
    ensures Run(INITIAL, TwoCalls(d)).Some? && DialledTwice(Run(INITIAL, TwoCalls(d)).value, d)
  {
    var steps := TwoCalls(d);
    var c0, c1 := ClientConn(d, 0), ClientConn(d, 1);
    var s7 := BothDialled(d).(conns := map[d := c1], calls := [Dialled(d, c0), Returned(d, c1)]);
    BothDial(d);
    RunsTo(steps, 6, BothDialled(d), s7);
    RunsTo(steps, 7, s7, s7.(conns := map[d := c0], calls := [Returned(d, c0), Returned(d, c1)]));
    assert steps[..8] == steps;
  }

  ghost predicate DialledTwice(s: State, d: string) {
    && s.calls == [Returned(d, ClientConn(d, 0)), Returned(d, ClientConn(d, 1))]
    && s.dials == [Made(d, 0), Made(d, 1)] && s.conns == map[d := ClientConn(d, 0)]
  }

  lemma RunsTo(steps: seq<Step>, n: nat, s: State, t: State)
    requires n < |steps| && Run(INITIAL, steps[..n]) == Some(s) && Enabled(s, steps[n]) && Next(s, steps[n]) == t
    ensures Run(INITIAL, steps[..n + 1]) == Some(t)
  {
    assert steps[..n + 1][..n] == steps[..n];
  }
}
