/** How a tunnel between two connections comes to its end. One goroutine copies in each
    direction; what they close, and when, depends on what the connections can do. */
module Tunnel {
  import opened Messages

  /** A connection, as far as closing goes: a TCP connection can close either half, others
      can only be closed as a whole, and a peeker offers to close halves in any case. */
  datatype Conn = Tcp | Other | Peeker(under: Conn)

  predicate TcpLike(c: Conn) {
    c != Other
  }

  predicate IsTcpTunnel(a: Conn, b: Conn) {
    TcpLike(a) && TcpLike(b)
  }

  /** Halves are closed by counting: there is a peeker right over a connection that cannot
      close them, and all peekers above pass the calls on to it. */
  predicate Counts(c: Conn) {
    c.Peeker? && (TcpLike(c.under) ==> Counts(c.under))
  }

  /** Halves are closed for real. */
  predicate Halves(c: Conn) {
    c == Tcp || (c.Peeker? && Halves(c.under))
  }

  lemma {:induction false} TcpLikeCountsOrHalves(c: Conn)
    ensures TcpLike(c) <==> Counts(c) || Halves(c)
    ensures !(Counts(c) && Halves(c))
  {
    if c.Peeker? {
      TcpLikeCountsOrHalves(c.under);
    }
  }

  // ---------- The goroutines ----------

  /** The two ends of the tunnel; a copying goroutine goes by the end it writes to. */
  datatype Side = Near | Far

  function Opposite(x: Side): Side {
    if x == Near then Far else Near
  }

  datatype Pair<T> = Pair(near: T, far: T) {
    function At(x: Side): T {
      if x == Near then near else far
    }

    function With(x: Side, v: T): Pair<T> {
      if x == Near then this.(near := v) else this.(far := v)
    }
  }

  /** Where a copying goroutine stands. Signals is the step of a plain tunnel; the others
      close the halves of a TCP tunnel. */
  datatype Pc = Copies | Signals | ClosesWrite | Waits | ClosesWhole | ClosesRead | Finished

  /** Where the third goroutine of a plain tunnel stands. */
  datatype Closer = Absent | Watches | ClosesNear | ClosesFar | Gone

  /** An end of the tunnel. count is the wait group of the peeker that counts, and the rest
      says how often each kind of close has reached the connection itself. */
  datatype End = End(conn: Conn, count: int, writeCloses: nat, readCloses: nat, closes: nat)

  /** source is what the reads from an end return before they report the end, and copied
      how many bytes of it have reached the other end. */
  datatype State = State(
    pcs: Pair<Pc>, ends: Pair<End>, source: Pair<Bytes>, copied: Pair<nat>, failed: Pair<bool>,
    group: int, closer: Closer)

  function Initial(a: Conn, b: Conn, source: Pair<Bytes>): State {
    State(Pair(Copies, Copies), Pair(NewEnd(a), NewEnd(b)), source, Pair(0, 0), Pair(false, false), 2,
          if IsTcpTunnel(a, b) then Absent else Watches)
  }

  function NewEnd(c: Conn): End {
    End(c, 2, 0, 0, 0)
  }

  /** Copy and CopyEnds are the copying to an end: it can fail at any time, and stops
      otherwise when everything has been copied. Go is the next step after that. */
  datatype Step = Copy(x: Side, n: nat) | CopyEnds(x: Side, failed: bool) | Go(x: Side) | GoCloser

  predicate Enabled(s: State, a: Step) {
    match a
    case Copy(x, n) => s.pcs.At(x) == Copies && s.copied.At(x) + n <= |s.source.At(Opposite(x))|
    case CopyEnds(x, failed) =>
      s.pcs.At(x) == Copies && (failed || s.copied.At(x) == |s.source.At(Opposite(x))|)
    case Go(x) =>
      s.pcs.At(x) !in {Copies, Finished} && (s.pcs.At(x) == Waits ==> s.ends.At(x).count == 0)
    case GoCloser => s.closer !in {Absent, Gone} && (s.closer == Watches ==> s.group == 0)
  }

  function Next(s: State, a: Step): State
    requires Enabled(s, a)
  {
    match a
    case Copy(x, n) => s.(copied := s.copied.With(x, s.copied.At(x) + n))
    case CopyEnds(x, failed) =>
      s.(pcs := s.pcs.With(x, if s.closer == Absent then ClosesWrite else Signals), failed := s.failed.With(x, failed))
    case Go(x) =>
      var dst, src := s.ends.At(x), s.ends.At(Opposite(x));
      (match s.pcs.At(x)
       case Signals => s.(pcs := s.pcs.With(x, Finished), group := s.group - 1)
       case ClosesWrite =>
         if Halves(dst.conn) then
           s.(pcs := s.pcs.With(x, ClosesRead), ends := s.ends.With(x, dst.(writeCloses := dst.writeCloses + 1)))
         else s.(pcs := s.pcs.With(x, Waits), ends := s.ends.With(x, dst.(count := dst.count - 1)))
       case Waits => s.(pcs := s.pcs.With(x, ClosesWhole))
       case ClosesWhole =>
         s.(pcs := s.pcs.With(x, ClosesRead), ends := s.ends.With(x, dst.(closes := dst.closes + 1)))
       case _ =>
         s.(pcs := s.pcs.With(x, Finished), ends := s.ends.With(Opposite(x), AfterCloseRead(src))))
    case GoCloser =>
      (match s.closer
       case Watches => s.(closer := ClosesNear)
       case ClosesNear =>
         s.(closer := ClosesFar, ends := s.ends.With(Near, s.ends.near.(closes := s.ends.near.closes + 1)))
       case _ => s.(closer := Gone, ends := s.ends.With(Far, s.ends.far.(closes := s.ends.far.closes + 1))))
  }

  function AfterCloseRead(e: End): End {
    if Halves(e.conn) then e.(readCloses := e.readCloses + 1) else e.(count := e.count - 1)
  }

  /** The state after a sequence of steps, if every one of them was possible. */
  function Run(start: State, steps: seq<Step>): Option<State> {
    if steps == [] then Some(start)
    else
      match Run(start, steps[..|steps| - 1])
      case None => None
      case Some(s) =>
        var a := steps[|steps| - 1];
        if Enabled(s, a) then Some(Next(s, a)) else None
  }

  // ---------- What holds in every run ----------

  predicate PastWrite(pc: Pc) {
    pc in {ClosesRead, Finished}
  }

  /** What has happened at the end x of a TCP tunnel, from where the two goroutines stand. */
  ghost predicate EndOfTcp(e: End, writer: Pc, reader: Pc) {
    && writer != Signals
    && (Halves(e.conn) ==>
          && writer != Waits && writer != ClosesWhole && e.closes == 0
          && e.writeCloses == (if PastWrite(writer) then 1 else 0)
          && e.readCloses == (if reader == Finished then 1 else 0))
    && (Counts(e.conn) ==>
          && e.writeCloses == 0 && e.readCloses == 0
          && e.count == 2 - (if writer in {Copies, ClosesWrite} then 0 else 1) - (if reader == Finished then 1 else 0)
          && e.closes == (if PastWrite(writer) then 1 else 0)
          && (writer == ClosesWhole || PastWrite(writer) ==> reader == Finished))
  }

  ghost predicate BothCount(s: State) {
    Counts(s.ends.near.conn) && Counts(s.ends.far.conn)
  }

  ghost predicate TcpTunnel(s: State) {
    && s.closer == Absent && IsTcpTunnel(s.ends.near.conn, s.ends.far.conn)
    && EndOfTcp(s.ends.near, s.pcs.near, s.pcs.far) && EndOfTcp(s.ends.far, s.pcs.far, s.pcs.near)
    && (BothCount(s) ==> s.pcs.near in {Copies, ClosesWrite, Waits} && s.pcs.far in {Copies, ClosesWrite, Waits})
  }

  ghost predicate PlainTunnel(s: State) {
    && s.closer != Absent && !IsTcpTunnel(s.ends.near.conn, s.ends.far.conn)
    && s.pcs.near in {Copies, Signals, Finished} && s.pcs.far in {Copies, Signals, Finished}
    && s.group == 2 - (if s.pcs.near == Finished then 1 else 0) - (if s.pcs.far == Finished then 1 else 0)
    && (s.closer != Watches ==> s.group == 0)
    && s.ends.near.closes == (if s.closer in {ClosesFar, Gone} then 1 else 0)
    && s.ends.far.closes == (if s.closer == Gone then 1 else 0)
  }

  /** A copy that has ended without failing has copied everything. */
  ghost predicate Copied(s: State, x: Side) {
    && s.copied.At(x) <= |s.source.At(Opposite(x))|
    && (s.pcs.At(x) != Copies && !s.failed.At(x) ==> s.copied.At(x) == |s.source.At(Opposite(x))|)
  }

  ghost predicate Safe(s: State) {
    (TcpTunnel(s) || PlainTunnel(s)) && Copied(s, Near) && Copied(s, Far)
  }

  lemma StepIsSafe(s: State, a: Step)
    requires Safe(s) && Enabled(s, a)
    ensures Safe(Next(s, a))
  {
    TcpLikeCountsOrHalves(s.ends.near.conn);
    TcpLikeCountsOrHalves(s.ends.far.conn);
    if a.Go? {
      GoIsSafe(s, a.x);
    }
  }

  lemma GoIsSafe(s: State, x: Side)
    requires Safe(s) && Enabled(s, Go(x))
    ensures Safe(Next(s, Go(x)))
  {
    TcpLikeCountsOrHalves(s.ends.near.conn);
    TcpLikeCountsOrHalves(s.ends.far.conn);
  }

  lemma {:induction false} EveryRunIsSafe(a: Conn, b: Conn, source: Pair<Bytes>, steps: seq<Step>)
    requires Run(Initial(a, b, source), steps).Some?
    ensures Safe(Run(Initial(a, b, source), steps).value)
  {
    if steps != [] {
      var n := |steps| - 1;
      EveryRunIsSafe(a, b, source, steps[..n]);
      StepIsSafe(Run(Initial(a, b, source), steps[..n]).value, steps[n]);
    }
  }

  // ---------- What a user of the tunnel can rely on ----------

  ghost predicate BothEnded(s: State) {
    s.pcs.near != Copies && s.pcs.far != Copies
  }

  ghost predicate Done(s: State) {
    s.pcs == Pair(Finished, Finished) && s.closer in {Absent, Gone}
  }

  /** In every run: no wait group goes below zero, no connection is closed twice, none is
      closed while a copy still needs it, and half of one only after the copy that uses it.
      So if no copy failed, both ends have been given everything before a connection goes. */
  lemma ClosedOnceAndLast(a: Conn, b: Conn, source: Pair<Bytes>, steps: seq<Step>, x: Side)
    requires Run(Initial(a, b, source), steps).Some?
    ensures ClosedInTime(Run(Initial(a, b, source), steps).value, x)
  {
    EveryRunIsSafe(a, b, source, steps);
    EndsStayTheSame(a, b, source, steps);
    SafeIsInTime(Run(Initial(a, b, source), steps).value, x);
  }

  ghost predicate ClosedInTime(s: State, x: Side) {
    var e, copiedAll := s.ends.At(x), s.copied.At(x) == |s.source.At(Opposite(x))|;
    && s.group >= 0 && e.count >= 0
    && e.closes + e.writeCloses <= 1 && e.closes + e.readCloses <= 1
    && (e.closes == 1 ==> BothEnded(s))
    && (e.readCloses == 1 ==> s.pcs.At(Opposite(x)) != Copies)
    && (e.writeCloses == 1 ==> s.pcs.At(x) != Copies)
    && (e.closes == 1 || e.writeCloses == 1 ==> s.failed.At(x) || copiedAll)
  }

  lemma SafeIsInTime(s: State, x: Side)
    requires Safe(s) && Untouched(s)
    ensures ClosedInTime(s, x)
  {
    TcpLikeCountsOrHalves(s.ends.near.conn);
    TcpLikeCountsOrHalves(s.ends.far.conn);
  }

  /** What no step touches: halves in a plain tunnel, the wait group of a plain tunnel in a
      TCP tunnel, and the count at an end that closes halves. */
  ghost predicate Untouched(s: State) {
    && (s.closer != Absent ==> UntouchedHalves(s.ends.near) && UntouchedHalves(s.ends.far))
    && (s.closer == Absent ==> s.group == 2)
    && (s.ends.near.count == 2 || Counts(s.ends.near.conn)) && (s.ends.far.count == 2 || Counts(s.ends.far.conn))
  }

  predicate UntouchedHalves(e: End) {
    e.writeCloses == 0 && e.readCloses == 0 && e.count == 2
  }

  lemma {:induction false} EndsStayTheSame(a: Conn, b: Conn, source: Pair<Bytes>, steps: seq<Step>)
    requires Run(Initial(a, b, source), steps).Some?
    ensures var s := Run(Initial(a, b, source), steps).value;
            s.ends.near.conn == a && s.ends.far.conn == b && s.source == source && Untouched(s)
  {
    TcpLikeCountsOrHalves(a);
    TcpLikeCountsOrHalves(b);
    if steps != [] {
      var n := |steps| - 1;
      EndsStayTheSame(a, b, source, steps[..n]);
      EveryRunIsSafe(a, b, source, steps[..n]);
    }
  }

  /** When everybody is done, each connection has been closed exactly once: a peeker over
      one that cannot close halves closes it as a whole, others close each half. */
  lemma DoneMeansClosed(a: Conn, b: Conn, source: Pair<Bytes>, steps: seq<Step>, x: Side)
    requires Run(Initial(a, b, source), steps).Some? && Done(Run(Initial(a, b, source), steps).value)
    ensures var e := Run(Initial(a, b, source), steps).value.ends.At(x);
            if IsTcpTunnel(a, b) && Halves(e.conn) then e.writeCloses == 1 && e.readCloses == 1 && e.closes == 0
            else e.closes == 1
  {
    EveryRunIsSafe(a, b, source, steps);
    EndsStayTheSame(a, b, source, steps);
    TcpLikeCountsOrHalves(a);
    TcpLikeCountsOrHalves(b);
  }

  /** How many steps are left once the copies have ended. */
  function Left(pc: Pc): nat {
    match pc
    case ClosesWrite => 4
    case Waits => 3
    case ClosesWhole => 2
    case ClosesRead => 1
    case Signals => 1
    case _ => 0
  }

  function Remaining(s: State): nat {
    Left(s.pcs.near) + Left(s.pcs.far)
    + match s.closer case Watches => 3 case ClosesNear => 2 case ClosesFar => 1 case _ => 0
  }

  /** Both copies have ended, and the ends do not both count. */
  ghost predicate Winding(s: State) {
    Safe(s) && BothEnded(s) && !BothCount(s)
  }

  /** Then somebody can always go on until everybody is done, */
  lemma SomebodyGoesOn(s: State) returns (a: Step)
    requires Winding(s) && !Done(s)
    ensures Enabled(s, a)
  {
    TcpLikeCountsOrHalves(s.ends.near.conn);
    TcpLikeCountsOrHalves(s.ends.far.conn);
    return if Enabled(s, Go(Near)) then Go(Near) else if Enabled(s, Go(Far)) then Go(Far) else GoCloser;
  }

  /** and every step brings the end closer, whoever takes it. */
  lemma EveryStepCounts(s: State, a: Step)
    requires Winding(s) && Enabled(s, a)
    ensures Remaining(Next(s, a)) < Remaining(s) && Winding(Next(s, a))
    ensures Next(s, a).copied == s.copied && Next(s, a).failed == s.failed
  {
    StepIsSafe(s, a);
  }

  lemma RunSnoc(start: State, steps: seq<Step>, s: State, a: Step)
    requires Run(start, steps) == Some(s) && Enabled(s, a)
    ensures Run(start, steps + [a]) == Some(Next(s, a))
  {
    assert (steps + [a])[..|steps|] == steps;
  }

  lemma {:induction false} Finishes(start: State, steps: seq<Step>, s: State) returns (end: seq<Step>)
    requires Run(start, steps) == Some(s) && Winding(s)
    ensures Run(start, end).Some? && Done(Run(start, end).value)
    ensures Run(start, end).value.copied == s.copied && Run(start, end).value.failed == s.failed
    decreases Remaining(s)
  {
    if Done(s) {
      return steps;
    }
    var a := SomebodyGoesOn(s);
    EveryStepCounts(s, a);
    RunSnoc(start, steps, s, a);
    end := Finishes(start, steps + [a], Next(s, a));
  }

  /** Two ends that both count wait for each other, and nothing is ever closed. */
  lemma BothCountForever(s: State)
    requires Safe(s) && BothCount(s)
    ensures !Done(s) && s.ends.near.closes == 0 && s.ends.far.closes == 0
  {
    TcpLikeCountsOrHalves(s.ends.near.conn);
    TcpLikeCountsOrHalves(s.ends.far.conn);
  }

  /** A tunnel can be finished with if and only if at most one of its ends counts; and then
      it can be without a failure, after everything has been copied. */
  lemma FinishesUnlessBothCount(a: Conn, b: Conn, source: Pair<Bytes>)
    ensures (exists steps :: Run(Initial(a, b, source), steps).Some? && Done(Run(Initial(a, b, source), steps).value))
       <==> !(Counts(a) && Counts(b))
    ensures !(Counts(a) && Counts(b)) ==>
      exists steps :: Run(Initial(a, b, source), steps).Some? && WellDone(Run(Initial(a, b, source), steps).value)
  {
    var start := Initial(a, b, source);
    if Counts(a) && Counts(b) {
      forall steps | Run(start, steps).Some? ensures !Done(Run(start, steps).value) {
        EveryRunIsSafe(a, b, source, steps);
        EndsStayTheSame(a, b, source, steps);
        BothCountForever(Run(start, steps).value);
      }
    } else {
      var both, s := EverythingIsCopied(start);
      EveryRunIsSafe(a, b, source, both);
      EndsStayTheSame(a, b, source, both);
      var end := Finishes(start, both, s);
      EndsStayTheSame(a, b, source, end);
      assert WellDone(Run(start, end).value);
    }
  }

  predicate WellDone(s: State) {
    && s.pcs == Pair(Finished, Finished) && s.closer in {Absent, Gone}
    && s.copied == Pair(|s.source.far|, |s.source.near|) && s.failed == Pair(false, false)
  }

  lemma EverythingIsCopied(start: State) returns (steps: seq<Step>, s: State)
    requires start.pcs == Pair(Copies, Copies) && start.copied == Pair(0, 0)
    ensures Run(start, steps) == Some(s) && BothEnded(s)
    ensures s.copied == Pair(|start.source.far|, |start.source.near|) && s.failed == Pair(false, false)
  {
    assert Run(start, []) == Some(start);
    steps, s := After(start, [], start, Copy(Near, |start.source.far|));
    steps, s := After(start, steps, s, CopyEnds(Near, false));
    steps, s := After(start, steps, s, Copy(Far, |start.source.near|));
    steps, s := After(start, steps, s, CopyEnds(Far, false));
  }

  lemma After(start: State, steps: seq<Step>, s: State, a: Step) returns (longer: seq<Step>, t: State)
    requires Run(start, steps) == Some(s) && Enabled(s, a)
    ensures longer == steps + [a] && t == Next(s, a) && Run(start, longer) == Some(t)
  {
    RunSnoc(start, steps, s, a);
    longer, t := steps + [a], Next(s, a);
  }

  // ---------- Half-closes ----------

  /** The write half of an end has been closed while the other direction is still in use. */
  predicate HalfClosed(s: State, x: Side) {
    s.ends.At(x).writeCloses == 1 && s.pcs.At(Opposite(x)) == Copies
  }

  /** In every reachable state in which the other direction is still being copied: the end of
      this direction can be passed on before that one ends, if it has not been already, if and
      only if this end closes halves for real and the other end offers to close them. */
  lemma HalfClosesArePassedOn(a: Conn, b: Conn, source: Pair<Bytes>, steps: seq<Step>, x: Side)
    requires Run(Initial(a, b, source), steps).Some?
    requires Run(Initial(a, b, source), steps).value.pcs.At(Opposite(x)) == Copies
    ensures var start, conns := Initial(a, b, source), Pair(a, b);
            (exists more :: Run(start, steps + more).Some? && HalfClosed(Run(start, steps + more).value, x))
              <==> Halves(conns.At(x)) && conns.At(Opposite(x)) != Other
  {
    var start, s := Initial(a, b, source), Run(Initial(a, b, source), steps).value;
    EveryRunIsSafe(a, b, source, steps);
    EndsStayTheSame(a, b, source, steps);
    TcpLikeCountsOrHalves(a);
    TcpLikeCountsOrHalves(b);
    if Halves(Pair(a, b).At(x)) && Pair(a, b).At(Opposite(x)) != Other {
      var end := CanHalfClose(start, steps, s, x);
      assert steps + end[|steps|..] == end;
    } else {
      forall more | Run(start, steps + more).Some? ensures !HalfClosed(Run(start, steps + more).value, x) {
        EveryRunIsSafe(a, b, source, steps + more);
        EndsStayTheSame(a, b, source, steps + more);
      }
    }
  }

  lemma CanHalfClose(start: State, steps: seq<Step>, s: State, x: Side) returns (end: seq<Step>)
    requires Run(start, steps) == Some(s) && s.closer == Absent && Halves(s.ends.At(x).conn)
    requires s.pcs.At(x) in {Copies, ClosesWrite, ClosesRead, Finished} && s.pcs.At(Opposite(x)) == Copies
    requires s.ends.At(x).writeCloses == if PastWrite(s.pcs.At(x)) then 1 else 0
    ensures steps <= end && Run(start, end).Some? && HalfClosed(Run(start, end).value, x)
  {
    var t;
    end, t := steps, s;
    if t.pcs.At(x) == Copies {
      end, t := After(start, end, t, CopyEnds(x, true));
    }
    if t.pcs.At(x) == ClosesWrite {
      end, t := After(start, end, t, Go(x));
    }
  }

  /** In every run, a direction is still being copied until its copy ends, and has failed if
      and only if it ended so. */
  lemma {:induction false} CopiesEndAsTheyDo(a: Conn, b: Conn, source: Pair<Bytes>, steps: seq<Step>, x: Side)
    requires Run(Initial(a, b, source), steps).Some?
    ensures var s := Run(Initial(a, b, source), steps).value;
            && (s.pcs.At(x) == Copies <==> CopyEnds(x, true) !in steps && CopyEnds(x, false) !in steps)
            && (s.failed.At(x) <==> CopyEnds(x, true) in steps)
            && (CopyEnds(x, true) in steps ==> CopyEnds(x, false) !in steps)
  {
    if steps != [] {
      var n := |steps| - 1;
      assert steps == steps[..n] + [steps[n]];
      CopiesEndAsTheyDo(a, b, source, steps[..n], x);
    }
  }
}
