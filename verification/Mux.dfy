/** How a connection finds its way from the listener to a server, to its original destination
    or to its end. Every connection has a goroutine of its own until it is in a queue; each
    queue is emptied by a listener that may let a connection pass by the server. */
module Mux {
  import opened Messages
  import PeekConn

  /** The capacity of the channels between the goroutines. */
  const CAPACITY: nat := 128

  // ---------- What decides about a connection ----------

  const TLS_PEEK_SIZE: nat := 3
  const HTTP_PEEK_SIZE: nat := 8

  /** A TLS handshake record: its type, major version 3 and a minor version up to 3. */
  predicate LooksTls(b: Bytes)
    requires |b| == TLS_PEEK_SIZE
  {
    b[0] == 0x16 && b[1] == 3 && b[2] <= 3
  }

  function Ascii(text: string): Bytes {
    seq(|text|, i requires 0 <= i < |text| => text[i] as int % 128)
  }

  /** The methods that matter. Only the first has to come at the very beginning. */
  predicate LooksHttp(b: Bytes) {
    Ascii("CONNECT") <= b || Contains(b, Ascii("POST")) || Contains(b, Ascii("PRI "))
  }

  predicate Contains(b: Bytes, part: Bytes) {
    exists i :: 0 <= i <= |b| && StartsWith(b[i..], part)
  }

  predicate StartsWith(b: Bytes, part: Bytes) {
    part <= b
  }

  /** Whether the certificate covers a host name. */
  type Certificate = string -> bool

  function HostName(destination: string): (host: string)
    ensures host <= destination && ':' !in host
    ensures host != destination ==> destination[|host|] == ':'
  {
    if destination == [] || destination[0] == ':' then [] else [destination[0]] + HostName(destination[1..])
  }

  /** A TLS connection is intercepted if the certificate covers it, or if it has to be
      because nobody knows where it was going. */
  predicate MustIntercept(cert: Certificate, destination: string) {
    destination == "" || cert(HostName(destination))
  }

  // ---------- The goroutines ----------

  /** Where the goroutine of a connection stands: it peeks, reports a failed peek to both
      listeners, and then routes the connection, perhaps after dialling its destination. */
  datatype Handler = Peeks | ReportsPlain | ReportsTls | Routes(tls: bool) | Dials

  datatype Route = ToPlain | ToTls | Forwarded | Closed

  /** What became of a connection that was in a queue. The last two are nowhere closed. */
  datatype Fate = Handed | Bounced | LostToDialError | LostToPeekError

  /** A connection: where it was going, if that is known, and what it is going to say. */
  datatype Conn = Conn(destination: string, bytes: Bytes)

  /** The goroutine that accepts connections for the mux. When accepting fails it reports that
      to both listeners, one after the other, before it goes on. */
  datatype Acceptor = Accepting | FailsPlain | FailsTls

  /** The queues and what became of the connections in them. peeked and bouncing belong to
      the listener of the plain queue, and stopped says that the server behind it has given
      up. */
  datatype Queues = Queues(
    plain: seq<nat>, tls: seq<nat>, peeked: set<nat>, stopped: bool, bouncing: set<nat>, fates: map<nat, Fate>)

  /** conns has every connection that ever arrived; a connection goes by its position there.
      waiting are those whose sender is blocked on the channel of the proxy's listener, and
      short those whose first peek failed, with the number of bytes that it got. */
  datatype State = State(
    conns: seq<Conn>, waiting: set<nat>, acceptor: Acceptor, handlers: map<nat, Handler>, short: map<nat, nat>,
    plainErrs: nat, tlsErrs: nat, routes: map<nat, Route>, queues: Queues)

  const INITIAL := State([], {}, Accepting, map[], map[], 0, 0, map[], Queues([], [], {}, false, {}, map[]))

  /** Steps of the listener in front and of the goroutine that accepts from it, of the
      goroutine of a connection, and of the listeners behind the queues. */
  datatype Step = InFront(f: FrontStep) | ByHandler(c: nat, h: HandlerStep) | Behind(l: ListenerStep)

  /** Connections arrive from the operating system, without a destination, or from an
      internal redirect, with one. */
  datatype FrontStep = Arrives(conn: Conn) | Accepts(c: nat) | AcceptFails | FrontReports

  datatype HandlerStep = PeekSucceeds | PeekFails(got: nat) | Reports | Decides | DialEnds(ok: bool)

  /** The server accepts again after a temporary failure, but not after any other. */
  datatype PeekResult = Peeked | FailedForNow | Failed

  datatype ListenerStep =
    | PlainAccepts
    | TlsAccepts
    | BouncerPeeks(c: nat, result: PeekResult)
    | BounceDialEnds(c: nat, ok: bool)

  /** The first peek found a TLS handshake. A failed one finds nothing. */
  predicate IsTls(s: State, c: nat)
    requires c < |s.conns|
  {
    c !in s.short && TLS_PEEK_SIZE <= |s.conns[c].bytes| && LooksTls(s.conns[c].bytes[..TLS_PEEK_SIZE])
  }

  /** What a connection says after the first peek. */
  function Stream(s: State, c: nat): Bytes
    requires c < |s.conns|
  {
    var bytes := s.conns[c].bytes;
    if c in s.short && s.short[c] <= TLS_PEEK_SIZE && s.short[c] <= |bytes|
    then PeekConn.Padded(bytes, s.short[c], TLS_PEEK_SIZE) else bytes
  }

  predicate IsHttp(s: State, c: nat)
    requires c < |s.conns|
  {
    HTTP_PEEK_SIZE <= |Stream(s, c)| && LooksHttp(Stream(s, c)[..HTTP_PEEK_SIZE])
  }

  predicate Enabled(cert: Certificate, s: State, a: Step) {
    match a
    case InFront(f) => FrontEnabled(s, f)
    case ByHandler(c, h) => c in s.handlers && c < |s.conns| && HandlerEnabled(cert, s, c, h)
    case Behind(l) => ListenerEnabled(s, l)
  }

  function Next(cert: Certificate, s: State, a: Step): State
    requires Enabled(cert, s, a)
  {
    match a
    case InFront(f) => FrontNext(s, f)
    case ByHandler(c, h) => HandlerNext(cert, s, c, h)
    case Behind(l) => ListenerNext(s, l)
  }

  predicate FrontEnabled(s: State, f: FrontStep) {
    match f
    case Arrives(_) => true
    case Accepts(c) => s.acceptor == Accepting && c in s.waiting
    case AcceptFails => s.acceptor == Accepting
    case FrontReports =>
      || (s.acceptor == FailsPlain && s.plainErrs < CAPACITY)
      || (s.acceptor == FailsTls && s.tlsErrs < CAPACITY)
  }

  function FrontNext(s: State, f: FrontStep): State
    requires FrontEnabled(s, f)
  {
    match f
    case Arrives(conn) => s.(conns := s.conns + [conn], waiting := s.waiting + {|s.conns|})
    case Accepts(c) => s.(waiting := s.waiting - {c}, handlers := s.handlers[c := Peeks])
    case AcceptFails => s.(acceptor := FailsPlain)
    case FrontReports =>
      if s.acceptor == FailsPlain then s.(acceptor := FailsTls, plainErrs := s.plainErrs + 1)
      else s.(acceptor := Accepting, tlsErrs := s.tlsErrs + 1)
  }

  predicate HandlerEnabled(cert: Certificate, s: State, c: nat, h: HandlerStep)
    requires c in s.handlers && c < |s.conns|
  {
    match h
    case PeekSucceeds => s.handlers[c] == Peeks && TLS_PEEK_SIZE <= |s.conns[c].bytes|
    case PeekFails(got) => s.handlers[c] == Peeks && got <= TLS_PEEK_SIZE && got <= |s.conns[c].bytes|
    case Reports =>
      || (s.handlers[c] == ReportsPlain && s.plainErrs < CAPACITY)
      || (s.handlers[c] == ReportsTls && s.tlsErrs < CAPACITY)
    case Decides =>
      s.handlers[c].Routes? &&
      (if !s.handlers[c].tls then |s.queues.plain| < CAPACITY
       else MustIntercept(cert, s.conns[c].destination) ==> |s.queues.tls| < CAPACITY)
    case DialEnds(_) => s.handlers[c] == Dials
  }

  function HandlerNext(cert: Certificate, s: State, c: nat, h: HandlerStep): State
    requires c in s.handlers && c < |s.conns| && HandlerEnabled(cert, s, c, h)
  {
    match h
    case PeekSucceeds => s.(handlers := s.handlers[c := Routes(LooksTls(s.conns[c].bytes[..TLS_PEEK_SIZE]))])
    case PeekFails(got) => s.(handlers := s.handlers[c := ReportsPlain], short := s.short[c := got])
    case Reports =>
      if s.handlers[c] == ReportsPlain then s.(handlers := s.handlers[c := ReportsTls], plainErrs := s.plainErrs + 1)
      else s.(handlers := s.handlers[c := Routes(false)], tlsErrs := s.tlsErrs + 1)
    case Decides =>
      if !s.handlers[c].tls then Leaves(s, c, ToPlain)
      else if MustIntercept(cert, s.conns[c].destination) then Leaves(s, c, ToTls)
      else s.(handlers := s.handlers[c := Dials])
    case DialEnds(ok) => Leaves(s, c, if ok then Forwarded else Closed)
  }

  /** The goroutine of a connection is through with it. */
  function Leaves(s: State, c: nat, route: Route): State {
    s.(handlers := s.handlers - {c}, routes := s.routes[c := route], queues := Enters(s.queues, c, route))
  }

  function Enters(q: Queues, c: nat, route: Route): Queues {
    match route
    case ToPlain => q.(plain := q.plain + [c])
    case ToTls => q.(tls := q.tls + [c])
    case _ => q
  }

  predicate ListenerEnabled(s: State, l: ListenerStep) {
    match l
    case PlainAccepts => s.queues.plain != [] && s.queues.peeked == {} && !s.queues.stopped
    case TlsAccepts => s.queues.tls != []
    case BouncerPeeks(c, result) =>
      c in s.queues.peeked && c < |s.conns| && (result == Peeked ==> HTTP_PEEK_SIZE <= |Stream(s, c)|)
    case BounceDialEnds(c, _) => c in s.queues.bouncing
  }

  function ListenerNext(s: State, l: ListenerStep): State
    requires ListenerEnabled(s, l)
  {
    s.(queues := QueuesNext(s, l))
  }

  /** A connection from the TLS queue comes wrapped in a TLS connection, which no longer tells
      its destination. */
  function QueuesNext(s: State, l: ListenerStep): Queues
    requires ListenerEnabled(s, l)
  {
    var q := s.queues;
    match l
    case PlainAccepts =>
      var c := q.plain[0];
      if c < |s.conns| && s.conns[c].destination != "" then q.(plain := q.plain[1..], peeked := q.peeked + {c})
      else q.(plain := q.plain[1..], fates := q.fates[c := Handed])
    case TlsAccepts => q.(tls := q.tls[1..], fates := q.fates[q.tls[0] := Handed])
    case BouncerPeeks(c, result) =>
      if result != Peeked then
        q.(peeked := q.peeked - {c}, stopped := q.stopped || result == Failed, fates := q.fates[c := LostToPeekError])
      else if IsHttp(s, c) then q.(peeked := q.peeked - {c}, fates := q.fates[c := Handed])
      else q.(peeked := q.peeked - {c}, bouncing := q.bouncing + {c})
    case BounceDialEnds(c, ok) =>
      q.(bouncing := q.bouncing - {c}, fates := q.fates[c := if ok then Bounced else LostToDialError])
  }

  /** The state after a sequence of steps, if every one of them was possible. */
  function Run(cert: Certificate, steps: seq<Step>): Option<State> {
    if steps == [] then Some(INITIAL)
    else
      match Run(cert, steps[..|steps| - 1])
      case None => None
      case Some(s) =>
        var a := steps[|steps| - 1];
        if Enabled(cert, s, a) then Some(Next(cert, s, a)) else None
  }

  // ---------- Conservation ----------

  function One(b: bool): nat {
    if b then 1 else 0
  }

  function Count(queue: seq<nat>, c: nat): nat {
    if queue == [] then 0 else One(queue[0] == c) + Count(queue[1..], c)
  }

  lemma {:induction false} CountSnoc(queue: seq<nat>, x: nat, c: nat)
    ensures Count(queue + [x], c) == Count(queue, c) + One(x == c)
  {
    if queue == [] {
      assert queue + [x] == [x];
    } else {
      assert (queue + [x])[1..] == queue[1..] + [x];
      CountSnoc(queue[1..], x, c);
    }
  }

  /** In how many places a connection is before its route is decided: exactly one, and none
      after. */
  function Undecided(s: State, c: nat): nat {
    One(c in s.waiting) + One(c in s.handlers)
  }

  /** The same from the queues to its fate. */
  function Queued(s: State, c: nat): nat {
    Count(s.queues.plain, c) + Count(s.queues.tls, c) + One(c in s.queues.peeked) + One(c in s.queues.bouncing)
  }

  ghost predicate Arrived(s: State, c: nat) {
    Undecided(s, c) + One(c in s.routes) == One(c < |s.conns|)
  }

  ghost predicate Delivered(s: State, c: nat) {
    && Queued(s, c) + One(c in s.queues.fates) == One(c in s.routes && s.routes[c] in {ToPlain, ToTls})
    && (Count(s.queues.plain, c) > 0 ==> s.routes[c] == ToPlain)
    && (Count(s.queues.tls, c) > 0 ==> s.routes[c] == ToTls)
  }

  /** The routes open to a connection. */
  function Options(cert: Certificate, tls: bool, destination: string): set<Route> {
    if !tls then {ToPlain} else if MustIntercept(cert, destination) then {ToTls} else {Forwarded, Closed}
  }

  /** A connection is routed as its first bytes, its destination and the certificate say. */
  ghost predicate WellRouted(cert: Certificate, s: State, c: nat) {
    && (c in s.handlers && c < |s.conns| ==>
          match s.handlers[c]
          case Peeks => c !in s.short
          case Routes(tls) => tls == IsTls(s, c)
          case Dials => IsTls(s, c) && !MustIntercept(cert, s.conns[c].destination)
          case _ => c in s.short && s.short[c] <= TLS_PEEK_SIZE && s.short[c] <= |s.conns[c].bytes|)
    && (c in s.routes && c < |s.conns| ==> s.routes[c] in Options(cert, IsTls(s, c), s.conns[c].destination))
    && (c in s.short ==> c in s.handlers || c in s.routes)
  }

  /** Only connections with a destination that came without TLS are looked at once more, and
      handed to a server if and only if they speak HTTP. All others are handed to one. */
  ghost predicate WellServed(s: State, c: nat) {
    c < |s.conns| && c in s.routes ==>
      && (c in s.queues.peeked || c in s.queues.bouncing ==> s.routes[c] == ToPlain && s.conns[c].destination != "")
      && (c in s.queues.bouncing ==> HTTP_PEEK_SIZE <= |Stream(s, c)| && !IsHttp(s, c))
      && (c in s.queues.fates ==> s.queues.fates[c] in Fates(s, c))
  }

  /** The fates open to a connection. */
  ghost function Fates(s: State, c: nat): set<Fate>
    requires c < |s.conns| && c in s.routes
  {
    if s.routes[c] != ToPlain || s.conns[c].destination == "" then {Handed}
    else if |Stream(s, c)| < HTTP_PEEK_SIZE then {LostToPeekError}
    else if IsHttp(s, c) then {Handed, LostToPeekError}
    else {Bounced, LostToDialError, LostToPeekError}
  }

  ghost predicate SafeAt(cert: Certificate, s: State, c: nat) {
    Arrived(s, c) && Delivered(s, c) && WellRouted(cert, s, c) && WellServed(s, c)
  }

  ghost predicate Safe(cert: Certificate, s: State) {
    forall c :: SafeAt(cert, s, c)
  }

  lemma StepIsSafe(cert: Certificate, s: State, a: Step, c: nat)
    requires Safe(cert, s) && Enabled(cert, s, a)
    ensures SafeAt(cert, Next(cert, s, a), c)
  {
    assert SafeAt(cert, s, c);
    match a
    case InFront(f) => FrontIsSafe(cert, s, f, c);
    case ByHandler(x, h) => HandlerIsSafe(cert, s, x, h, c);
    case Behind(l) => ListenerIsSafe(cert, s, l, c);
  }

  lemma HandlerIsSafe(cert: Certificate, s: State, x: nat, h: HandlerStep, c: nat)
    requires SafeAt(cert, s, c) && x in s.handlers && x < |s.conns| && HandlerEnabled(cert, s, x, h)
    ensures SafeAt(cert, HandlerNext(cert, s, x, h), c)
  {
    HandlerIsConserved(cert, s, x, h, c);
    HandlerIsWellRouted(cert, s, x, h, c);
    HandlerServesNobody(cert, s, x, h, c);
  }

  lemma ListenerIsSafe(cert: Certificate, s: State, l: ListenerStep, c: nat)
    requires SafeAt(cert, s, c) && ListenerEnabled(s, l)
    ensures SafeAt(cert, ListenerNext(s, l), c)
  {
    ListenerIsConserved(s, l, c);
    ListenerKeepsRouting(cert, s, l, c);
    ListenerServesWell(s, l, c);
  }

  lemma ListenerKeepsRouting(cert: Certificate, s: State, l: ListenerStep, c: nat)
    requires WellRouted(cert, s, c) && ListenerEnabled(s, l)
    ensures WellRouted(cert, ListenerNext(s, l), c)
  {
  }

  lemma FrontIsSafe(cert: Certificate, s: State, f: FrontStep, c: nat)
    requires SafeAt(cert, s, c) && FrontEnabled(s, f)
    ensures SafeAt(cert, FrontNext(s, f), c)
  {
  }

  lemma HandlerIsConserved(cert: Certificate, s: State, x: nat, h: HandlerStep, c: nat)
    requires Arrived(s, c) && Delivered(s, c)
    requires x in s.handlers && x < |s.conns| && HandlerEnabled(cert, s, x, h)
    ensures Arrived(HandlerNext(cert, s, x, h), c) && Delivered(HandlerNext(cert, s, x, h), c)
  {
    match h {
      case Decides =>
        LeavingConserves(s, x, ToPlain, c);
        LeavingConserves(s, x, ToTls, c);
      case DialEnds(ok) => LeavingConserves(s, x, if ok then Forwarded else Closed, c);
      case _ =>
    }
  }

  lemma LeavingConserves(s: State, x: nat, route: Route, c: nat)
    requires Arrived(s, c) && Delivered(s, c) && x in s.handlers
    ensures Arrived(Leaves(s, x, route), c) && Delivered(Leaves(s, x, route), c)
  {
    CountSnoc(s.queues.plain, x, c);
    CountSnoc(s.queues.tls, x, c);
  }

  lemma HandlerIsWellRouted(cert: Certificate, s: State, x: nat, h: HandlerStep, c: nat)
    requires Arrived(s, c) && WellRouted(cert, s, c)
    requires x in s.handlers && x < |s.conns| && HandlerEnabled(cert, s, x, h)
    ensures WellRouted(cert, HandlerNext(cert, s, x, h), c)
  {
  }

  lemma HandlerServesNobody(cert: Certificate, s: State, x: nat, h: HandlerStep, c: nat)
    requires Arrived(s, c) && Delivered(s, c) && WellServed(s, c)
    requires x in s.handlers && x < |s.conns| && HandlerEnabled(cert, s, x, h)
    ensures WellServed(HandlerNext(cert, s, x, h), c)
  {
  }

  lemma ListenerIsConserved(s: State, l: ListenerStep, c: nat)
    requires Arrived(s, c) && Delivered(s, c) && ListenerEnabled(s, l)
    ensures Arrived(ListenerNext(s, l), c) && Delivered(ListenerNext(s, l), c)
  {
    match l
    case PlainAccepts => PlainIsConserved(s, c);
    case TlsAccepts => TlsIsConserved(s, c);
    case _ => BouncerIsConserved(s, l, c);
  }

  lemma PlainIsConserved(s: State, c: nat)
    requires Arrived(s, c) && Delivered(s, c) && ListenerEnabled(s, PlainAccepts)
    ensures var t := ListenerNext(s, PlainAccepts); Arrived(t, c) && Delivered(t, c)
  {
  }

  lemma TlsIsConserved(s: State, c: nat)
    requires Arrived(s, c) && Delivered(s, c) && s.queues.tls != []
    ensures var t := ListenerNext(s, TlsAccepts); Arrived(t, c) && Delivered(t, c)
  {
  }

  lemma BouncerIsConserved(s: State, l: ListenerStep, c: nat)
    requires Arrived(s, c) && Delivered(s, c) && ListenerEnabled(s, l) && (l.BouncerPeeks? || l.BounceDialEnds?)
    ensures Arrived(ListenerNext(s, l), c) && Delivered(ListenerNext(s, l), c)
  {
  }

  lemma ListenerServesWell(s: State, l: ListenerStep, c: nat)
    requires Arrived(s, c) && Delivered(s, c) && WellServed(s, c) && ListenerEnabled(s, l)
    ensures WellServed(ListenerNext(s, l), c)
  {
    match l
    case PlainAccepts => PlainServesWell(s, c);
    case TlsAccepts => TlsServesWell(s, c);
    case _ => BouncerServesWell(s, l, c);
  }

  lemma PlainServesWell(s: State, c: nat)
    requires Delivered(s, c) && WellServed(s, c) && ListenerEnabled(s, PlainAccepts)
    ensures WellServed(ListenerNext(s, PlainAccepts), c)
  {
  }

  lemma TlsServesWell(s: State, c: nat)
    requires Delivered(s, c) && WellServed(s, c) && s.queues.tls != []
    ensures WellServed(ListenerNext(s, TlsAccepts), c)
  {
  }

  lemma BouncerServesWell(s: State, l: ListenerStep, c: nat)
    requires Delivered(s, c) && WellServed(s, c) && ListenerEnabled(s, l) && (l.BouncerPeeks? || l.BounceDialEnds?)
    ensures WellServed(ListenerNext(s, l), c)
  {
  }

  lemma {:induction false} EveryRunIsSafe(cert: Certificate, steps: seq<Step>)
    requires Run(cert, steps).Some?
    ensures Safe(cert, Run(cert, steps).value)
  {
    if steps != [] {
      var n := |steps| - 1;
      EveryRunIsSafe(cert, steps[..n]);
      forall c ensures SafeAt(cert, Run(cert, steps).value, c) {
        StepIsSafe(cert, Run(cert, steps[..n]).value, steps[n], c);
      }
    }
  }

  /** In every run, every connection that has arrived is in exactly one place: waiting, with
      its goroutine, or routed; and if it was routed to a queue, then in exactly one of the
      queues, with the bouncing listener, or at its fate. Its bytes, its destination and the
      certificate say where it went. */
  lemma ConnectionsAreConserved(cert: Certificate, steps: seq<Step>, c: nat)
    requires Run(cert, steps).Some? && c < |Run(cert, steps).value.conns|
    ensures var s := Run(cert, steps).value;
            && Undecided(s, c) + One(c in s.routes) == 1
            && (c !in s.routes || s.routes[c] in {Forwarded, Closed} ==> Queued(s, c) == 0 && c !in s.queues.fates)
            && (c in s.routes && s.routes[c] in {ToPlain, ToTls} ==> Queued(s, c) + One(c in s.queues.fates) == 1)
            && (c in s.routes && c in s.queues.fates ==> s.queues.fates[c] in Fates(s, c))
    ensures var s := Run(cert, steps).value;
            var conn := s.conns[c];
            var handshake := c !in s.short && exists v: Byte :: v <= 3 && [0x16, 3, v] <= conn.bytes;
            var covered := conn.destination == "" || cert(HostName(conn.destination));
            c in s.routes ==>
              && (s.routes[c] == ToPlain <==> !handshake)
              && (s.routes[c] == ToTls <==> handshake && covered)
              && (s.routes[c] in {Forwarded, Closed} <==> handshake && !covered)
  {
    EveryRunIsSafe(cert, steps);
    var s := Run(cert, steps).value;
    assert SafeAt(cert, s, c);
    TlsIsAHandshake(s.conns[c].bytes);
  }

  lemma TlsIsAHandshake(bytes: Bytes)
    ensures TLS_PEEK_SIZE <= |bytes| && LooksTls(bytes[..TLS_PEEK_SIZE])
       <==> exists v: Byte :: v <= 3 && [0x16, 3, v] <= bytes
  {
    if TLS_PEEK_SIZE <= |bytes| && LooksTls(bytes[..TLS_PEEK_SIZE]) {
      assert [0x16, 3, bytes[2]] <= bytes;
    }
  }

  /** Eight bytes at least, with one of the methods where it is looked for. */
  ghost predicate SpeaksHttp(stream: Bytes) {
    && 8 <= |stream|
    && (|| Ascii("CONNECT") <= stream
        || (exists i :: 0 <= i <= 4 && StartsWith(stream[i..], Ascii("POST")))
        || (exists i :: 0 <= i <= 4 && StartsWith(stream[i..], Ascii("PRI "))))
  }

  /** A connection that is looked at once more is HTTP if its first eight bytes start with the
      first method or have one of the others anywhere. */
  lemma HttpIsAMethodEarlyOn(stream: Bytes)
    ensures HTTP_PEEK_SIZE <= |stream| && LooksHttp(stream[..HTTP_PEEK_SIZE]) <==> SpeaksHttp(stream)
  {
    if HTTP_PEEK_SIZE <= |stream| {
      var b := stream[..HTTP_PEEK_SIZE];
      assert Ascii("CONNECT") <= b <==> Ascii("CONNECT") <= stream;
      FoundEarlyOn(stream, Ascii("POST"));
      FoundEarlyOn(stream, Ascii("PRI "));
    }
  }

  /** In every run, for every connection from a redirect in the plain queue: what it says is
      what it sent, but for zeros where the first peek fell short; and then it is handed to the
      server only if that is HTTP, and bounced, or lost to the dial, only if it is not. */
  lemma TheStreamDecides(cert: Certificate, steps: seq<Step>, c: nat)
    requires Run(cert, steps).Some? && c < |Run(cert, steps).value.conns|
    ensures var s := Run(cert, steps).value;
            var bytes := s.conns[c].bytes;
            if c in s.short then
              s.short[c] <= 3 && s.short[c] <= |bytes| &&
              Stream(s, c) == bytes[..s.short[c]] + seq(3 - s.short[c], _ => 0) + bytes[s.short[c]..]
            else Stream(s, c) == bytes
    ensures var s := Run(cert, steps).value;
            var fates := s.queues.fates;
            c in fates && c in s.routes && s.routes[c] == ToPlain && s.conns[c].destination != "" ==>
              && (fates[c] == Handed ==> SpeaksHttp(Stream(s, c)))
              && (fates[c] == Bounced || fates[c] == LostToDialError ==>
                    8 <= |Stream(s, c)| && !SpeaksHttp(Stream(s, c)))
  {
    EveryRunIsSafe(cert, steps);
    ShortPeeksAreShort(cert, steps, c);
    var s := Run(cert, steps).value;
    assert SafeAt(cert, s, c);
    HttpIsAMethodEarlyOn(Stream(s, c));
  }

  lemma {:induction false} ShortPeeksAreShort(cert: Certificate, steps: seq<Step>, c: nat)
    requires Run(cert, steps).Some?
    ensures ShortIsShort(Run(cert, steps).value, c)
  {
    if steps != [] {
      var n := |steps| - 1;
      EveryRunIsSafe(cert, steps[..n]);
      assert SafeAt(cert, Run(cert, steps[..n]).value, c);
      ShortPeeksAreShort(cert, steps[..n], c);
      ShortStaysShort(cert, Run(cert, steps[..n]).value, steps[n], c);
    }
  }

  predicate ShortIsShort(s: State, c: nat) {
    c in s.short ==> c < |s.conns| && s.short[c] <= TLS_PEEK_SIZE && s.short[c] <= |s.conns[c].bytes|
  }

  lemma ShortStaysShort(cert: Certificate, s: State, a: Step, c: nat)
    requires ShortIsShort(s, c) && Enabled(cert, s, a)
    ensures ShortIsShort(Next(cert, s, a), c)
  {
  }

  lemma FoundEarlyOn(stream: Bytes, part: Bytes)
    requires HTTP_PEEK_SIZE <= |stream| && |part| == 4
    ensures Contains(stream[..HTTP_PEEK_SIZE], part) <==> exists i :: 0 <= i <= 4 && StartsWith(stream[i..], part)
  {
    var b := stream[..HTTP_PEEK_SIZE];
    forall i | 0 <= i <= |b| && StartsWith(b[i..], part) ensures i <= 4 && StartsWith(stream[i..], part) {
      assert b[i..] <= stream[i..];
    }
    forall i | 0 <= i <= 4 && StartsWith(stream[i..], part) ensures StartsWith(b[i..], part) {
      assert b[i..i + 4] == stream[i..i + 4] == stream[i..][..4] == part;
      assert b[i..][..4] == b[i..i + 4];
    }
  }

  /** A route or a fate that is decided stays what it is. */
  lemma DecisionsStay(cert: Certificate, steps: seq<Step>, a: Step, c: nat)
    requires Run(cert, steps).Some? && Enabled(cert, Run(cert, steps).value, a)
    ensures DecisionStays(Run(cert, steps).value, Next(cert, Run(cert, steps).value, a), c)
  {
    EveryRunIsSafe(cert, steps);
    var s := Run(cert, steps).value;
    assert SafeAt(cert, s, c);
    match a
    case InFront(_) =>
    case ByHandler(x, h) => HandlerDecidesOnce(cert, s, x, h, c);
    case Behind(l) => ListenerDecidesOnce(s, l, c);
  }

  ghost predicate DecisionStays(s: State, t: State, c: nat) {
    && (c in s.routes ==> c in t.routes && t.routes[c] == s.routes[c])
    && (c in s.queues.fates ==> c in t.queues.fates && t.queues.fates[c] == s.queues.fates[c])
  }

  lemma HandlerDecidesOnce(cert: Certificate, s: State, x: nat, h: HandlerStep, c: nat)
    requires Arrived(s, c) && x in s.handlers && x < |s.conns| && HandlerEnabled(cert, s, x, h)
    ensures DecisionStays(s, HandlerNext(cert, s, x, h), c)
  {
  }

  lemma ListenerDecidesOnce(s: State, l: ListenerStep, c: nat)
    requires Delivered(s, c) && ListenerEnabled(s, l)
    ensures DecisionStays(s, ListenerNext(s, l), c)
  {
  }

  // ---------- Full channels ----------

  ghost function Reporting(s: State): set<nat> {
    set c | c in s.handlers && s.handlers[c] == ReportsTls
  }

  /** Whoever has reported to the one listener but not to the other accounts for the
      difference between the two channels, which nobody empties. */
  ghost predicate ErrorsCounted(s: State) {
    s.tlsErrs + |Reporting(s)| + One(s.acceptor == FailsTls) == s.plainErrs <= CAPACITY
  }

  lemma ErrorsStayCounted(cert: Certificate, s: State, a: Step)
    requires Safe(cert, s) && ErrorsCounted(s) && Enabled(cert, s, a)
    ensures ErrorsCounted(Next(cert, s, a))
  {
    match a {
      case InFront(f) =>
        if f.Accepts? {
          assert SafeAt(cert, s, f.c);
        }
        FrontKeepsCount(s, f);
      case ByHandler(c, h) => HandlerKeepsCount(cert, s, c, h);
      case Behind(l) => ListenerReportsNothing(s, l);
    }
  }

  lemma FrontKeepsCount(s: State, f: FrontStep)
    requires ErrorsCounted(s) && FrontEnabled(s, f) && (f.Accepts? ==> Arrived(s, f.c))
    ensures ErrorsCounted(FrontNext(s, f))
  {
    assert Reporting(FrontNext(s, f)) == Reporting(s);
  }

  lemma ListenerReportsNothing(s: State, l: ListenerStep)
    requires ErrorsCounted(s) && ListenerEnabled(s, l)
    ensures ErrorsCounted(ListenerNext(s, l))
  {
    assert Reporting(ListenerNext(s, l)) == Reporting(s);
  }

  lemma HandlerKeepsCount(cert: Certificate, s: State, c: nat, h: HandlerStep)
    requires ErrorsCounted(s) && c in s.handlers && c < |s.conns| && HandlerEnabled(cert, s, c, h)
    ensures ErrorsCounted(HandlerNext(cert, s, c, h))
  {
    if h == Reports && s.handlers[c] == ReportsPlain {
      FirstReportCounts(s, s.(handlers := s.handlers[c := ReportsTls]), c);
    } else if h == Reports {
      SecondReportCounts(s, s.(handlers := s.handlers[c := Routes(false)]), c);
    } else {
      OthersReportNothing(cert, s, c, h);
    }
  }

  lemma FirstReportCounts(s: State, t: State, c: nat)
    requires c in s.handlers && s.handlers[c] == ReportsPlain && t.handlers == s.handlers[c := ReportsTls]
    ensures |Reporting(t)| == |Reporting(s)| + 1
  {
    assert Reporting(t) == Reporting(s) + {c};
  }

  lemma SecondReportCounts(s: State, t: State, c: nat)
    requires c in s.handlers && s.handlers[c] == ReportsTls && t.handlers == s.handlers[c := Routes(false)]
    ensures |Reporting(t)| + 1 == |Reporting(s)|
  {
    assert Reporting(s) == Reporting(t) + {c};
  }

  lemma OthersReportNothing(cert: Certificate, s: State, c: nat, h: HandlerStep)
    requires ErrorsCounted(s) && c in s.handlers && c < |s.conns| && HandlerEnabled(cert, s, c, h) && h != Reports
    ensures ErrorsCounted(HandlerNext(cert, s, c, h))
  {
    assert Reporting(HandlerNext(cert, s, c, h)) == Reporting(s);
  }

  lemma {:induction false} EveryRunCountsErrors(cert: Certificate, steps: seq<Step>)
    requires Run(cert, steps).Some?
    ensures ErrorsCounted(Run(cert, steps).value)
  {
    if steps == [] {
      assert Reporting(INITIAL) == {};
    } else {
      var n := |steps| - 1;
      EveryRunIsSafe(cert, steps[..n]);
      EveryRunCountsErrors(cert, steps[..n]);
      ErrorsStayCounted(cert, Run(cert, steps[..n]).value, steps[n]);
    }
  }

  /** The connection will never be routed: it needs room in a channel that stays full. */
  predicate Doomed(s: State, c: nat) {
    c < |s.conns| && c !in s.routes && (ErrorsBlock(s, c) || QueueBlocks(s, c))
  }

  /** The channel of errors is full. The accepting goroutine has an error for it, so that it
      does not come to the connection; or the connection has failed its peek or can only
      fail it, and has no room to report that, not even if the accepting goroutine takes
      the last. */
  predicate ErrorsBlock(s: State, c: nat)
    requires c < |s.conns|
  {
    var mute := |s.conns[c].bytes| < TLS_PEEK_SIZE;
    if c in s.waiting then
      || (s.acceptor == FailsPlain && s.plainErrs == CAPACITY)
      || (mute && s.plainErrs + One(s.acceptor == FailsPlain) == CAPACITY)
    else
      (At(s, c, ReportsPlain) || (At(s, c, Peeks) && mute)) && s.plainErrs == CAPACITY
  }

  /** The plain queue is full, nobody empties it any more, and there is no other way. */
  predicate QueueBlocks(s: State, c: nat)
    requires c < |s.conns|
  {
    && s.queues.stopped && |s.queues.plain| >= CAPACITY
    && var bytes := s.conns[c].bytes;
       if c in s.waiting || At(s, c, Peeks) then
         TLS_PEEK_SIZE <= |bytes| ==> !LooksTls(bytes[..TLS_PEEK_SIZE])
       else
         At(s, c, ReportsPlain) || At(s, c, ReportsTls) || At(s, c, Routes(false))
  }

  predicate At(s: State, c: nat, h: Handler) {
    c in s.handlers && s.handlers[c] == h
  }

  lemma DoomedStaysDoomed(cert: Certificate, s: State, a: Step, c: nat)
    requires Arrived(s, c) && Enabled(cert, s, a) && Doomed(s, c)
    ensures Doomed(Next(cert, s, a), c)
  {
    match a
    case InFront(f) => FrontSavesNobody(s, f, c);
    case ByHandler(x, h) => HandlerStaysDoomed(cert, s, x, h, c);
    case Behind(l) => ListenerSavesNobody(s, l, c);
  }

  lemma FrontSavesNobody(s: State, f: FrontStep, c: nat)
    requires Arrived(s, c) && Doomed(s, c) && FrontEnabled(s, f)
    ensures Doomed(FrontNext(s, f), c)
  {
  }

  lemma HandlerStaysDoomed(cert: Certificate, s: State, x: nat, h: HandlerStep, c: nat)
    requires Arrived(s, c) && Doomed(s, c) && x in s.handlers && x < |s.conns| && HandlerEnabled(cert, s, x, h)
    ensures Doomed(HandlerNext(cert, s, x, h), c)
  {
  }

  lemma ListenerSavesNobody(s: State, l: ListenerStep, c: nat)
    requires Doomed(s, c) && ListenerEnabled(s, l)
    ensures Doomed(ListenerNext(s, l), c)
  {
  }

  lemma StaysArrived(cert: Certificate, steps: seq<Step>, c: nat)
    requires Run(cert, steps).Some?
    ensures Arrived(Run(cert, steps).value, c)
  {
    EveryRunIsSafe(cert, steps);
    assert SafeAt(cert, Run(cert, steps).value, c);
  }

  lemma {:induction false} DoomedForever(cert: Certificate, before: seq<Step>, after: seq<Step>, c: nat)
    requires Run(cert, before).Some? && Run(cert, before + after).Some? && Doomed(Run(cert, before).value, c)
    ensures Doomed(Run(cert, before + after).value, c)
    decreases |after|
  {
    if after == [] {
      assert before + after == before;
    } else {
      var n := |after| - 1;
      assert (before + after)[..|before + after| - 1] == before + after[..n];
      DoomedForever(cert, before, after[..n], c);
      var s := Run(cert, before + after[..n]).value;
      StaysArrived(cert, before + after[..n], c);
      DoomedStaysDoomed(cert, s, after[n], c);
    }
  }

  /** How far a connection is from being routed. */
  function Distance(s: State, c: nat): nat {
    if c in s.waiting then
      match s.acceptor case Accepting => 5 case FailsTls => 6 case FailsPlain => 7
    else if c !in s.handlers then 0
    else
      match s.handlers[c]
      case Peeks => 4
      case ReportsPlain => 3
      case ReportsTls => 2
      case Routes(_) => 1
      case Dials => 0
  }

  /** How much there is to do before both queues are empty. */
  function Backlog(s: State): nat {
    2 * |s.queues.plain| + |s.queues.peeked| + |s.queues.tls|
  }

  /** What brings an undecided connection closer to its route, or makes room for it. */
  ghost predicate Helps(s: State, t: State, c: nat) {
    && c < |t.conns| && !Doomed(t, c)
    && (c in t.routes || Distance(t, c) < Distance(s, c)
        || (Distance(t, c) == Distance(s, c) && Backlog(t) < Backlog(s)))
  }

  lemma SomethingHelps(cert: Certificate, s: State, c: nat) returns (a: Step)
    requires Safe(cert, s) && ErrorsCounted(s) && c < |s.conns| && c !in s.routes && !Doomed(s, c)
    ensures Enabled(cert, s, a) && Helps(s, Next(cert, s, a), c)
  {
    assert SafeAt(cert, s, c);
    if c in s.waiting {
      var f := FrontHelps(s, c);
      return InFront(f);
    }
    var h := HandlerHelps(cert, s, c);
    if HandlerEnabled(cert, s, c, h) {
      return ByHandler(c, h);
    }
    var l;
    if s.handlers[c].tls {
      l := TlsAccepts;
    } else if s.queues.peeked == {} {
      l := PlainAccepts;
    } else {
      var x :| x in s.queues.peeked;
      assert SafeAt(cert, s, x);
      l := BouncerPeeks(x, FailedForNow);
    }
    ListenerHelps(s, l, c);
    return Behind(l);
  }

  lemma FrontHelps(s: State, c: nat) returns (f: FrontStep)
    requires Arrived(s, c) && ErrorsCounted(s) && c < |s.conns| && c in s.waiting && !Doomed(s, c)
    ensures FrontEnabled(s, f) && Helps(s, FrontNext(s, f), c)
  {
    return if s.acceptor == Accepting then Accepts(c) else FrontReports;
  }

  /** The next step of the goroutine. It may have to wait for room in a queue. */
  lemma HandlerHelps(cert: Certificate, s: State, c: nat) returns (h: HandlerStep)
    requires Arrived(s, c) && ErrorsCounted(s) && c < |s.conns| && c in s.handlers && !Doomed(s, c)
    ensures if HandlerEnabled(cert, s, c, h) then Helps(s, HandlerNext(cert, s, c, h), c)
            else
              && s.handlers[c].Routes?
              && if s.handlers[c].tls then s.queues.tls != [] else s.queues.plain != [] && !s.queues.stopped
  {
    match s.handlers[c]
    case Peeks => return if TLS_PEEK_SIZE <= |s.conns[c].bytes| then PeekSucceeds else PeekFails(0);
    case ReportsPlain => return Reports;
    case ReportsTls =>
      assert c in Reporting(s);
      return Reports;
    case Routes(_) => return Decides;
    case Dials => return DialEnds(true);
  }

  /** The listeners can be waited for, as long as the server goes on after a failed peek. */
  lemma ListenerHelps(s: State, l: ListenerStep, c: nat)
    requires Arrived(s, c) && c in s.handlers && s.handlers[c].Routes? && c < |s.conns| && !Doomed(s, c)
    requires l in {PlainAccepts, TlsAccepts} || (l.BouncerPeeks? && l.result == FailedForNow)
    requires ListenerEnabled(s, l)
    ensures Helps(s, ListenerNext(s, l), c)
  {
  }

  lemma RunSnoc(cert: Certificate, steps: seq<Step>, a: Step)
    requires Run(cert, steps).Some? && Enabled(cert, Run(cert, steps).value, a)
    ensures Run(cert, steps + [a]) == Some(Next(cert, Run(cert, steps).value, a))
  {
    assert (steps + [a])[..|steps|] == steps;
  }

  lemma {:induction false} CanBeRouted(cert: Certificate, steps: seq<Step>, s: State, c: nat) returns (end: seq<Step>)
    requires Run(cert, steps) == Some(s) && c < |s.conns| && !Doomed(s, c)
    ensures steps <= end && Run(cert, end).Some? && c in Run(cert, end).value.routes
    decreases c !in s.routes, Distance(s, c), Backlog(s)
  {
    if c in s.routes {
      return steps;
    }
    EveryRunIsSafe(cert, steps);
    EveryRunCountsErrors(cert, steps);
    assert SafeAt(cert, s, c);
    var a := SomethingHelps(cert, s, c);
    RunSnoc(cert, steps, a);
    end := CanBeRouted(cert, steps + [a], Next(cert, s, a), c);
  }

  /** In every reachable state: a connection that has arrived can still be routed, if it is
      not already, if and only if it is not doomed. */
  lemma RoutedUnlessDoomed(cert: Certificate, steps: seq<Step>, c: nat)
    requires Run(cert, steps).Some? && c < |Run(cert, steps).value.conns|
    ensures (exists more :: Run(cert, steps + more).Some? && c in Run(cert, steps + more).value.routes)
       <==> !Doomed(Run(cert, steps).value, c)
  {
    if Doomed(Run(cert, steps).value, c) {
      forall more | Run(cert, steps + more).Some? ensures c !in Run(cert, steps + more).value.routes {
        DoomedForever(cert, steps, more, c);
      }
    } else {
      var end := CanBeRouted(cert, steps, Run(cert, steps).value, c);
      assert steps + end[|steps|..] == end;
    }
  }

  // ---------- Runs in which that happens ----------

  /** No continuation routes the connection. */
  ghost predicate Stuck(cert: Certificate, steps: seq<Step>, c: nat) {
    && Run(cert, steps).Some? && c < |Run(cert, steps).value.conns|
    && forall more :: Run(cert, steps + more).Some? ==> c !in Run(cert, steps + more).value.routes
  }

  lemma DoomedIsStuck(cert: Certificate, steps: seq<Step>, c: nat)
    requires Run(cert, steps).Some? && Doomed(Run(cert, steps).value, c)
    ensures Stuck(cert, steps, c)
  {
    forall more | Run(cert, steps + more).Some? ensures c !in Run(cert, steps + more).value.routes {
      DoomedForever(cert, steps, more, c);
    }
  }

  lemma After(cert: Certificate, steps: seq<Step>, s: State, a: Step) returns (longer: seq<Step>, t: State)
    requires Run(cert, steps) == Some(s) && Enabled(cert, s, a)
    ensures longer == steps + [a] && t == Next(cert, s, a) && Run(cert, longer) == Some(t)
  {
    RunSnoc(cert, steps, a);
    longer, t := steps + [a], Next(cert, s, a);
  }

  /** A connection arrives and is accepted. */
  lemma OneMoreComes(cert: Certificate, before: seq<Step>, s: State, conn: Conn) returns (steps: seq<Step>, t: State)
    requires Run(cert, before) == Some(s) && s.acceptor == Accepting
    ensures Run(cert, steps) == Some(t)
    ensures t == s.(conns := s.conns + [conn], waiting := t.waiting, handlers := s.handlers[|s.conns| := Peeks])
  {
    steps, t := After(cert, before, s, InFront(Arrives(conn)));
    steps, t := After(cert, steps, t, InFront(Accepts(|s.conns|)));
  }

  /** A connection arrives and closes at once. */
  lemma OneMoreFails(cert: Certificate, before: seq<Step>, s: State) returns (steps: seq<Step>, t: State)
    requires Run(cert, before) == Some(s) && s.acceptor == Accepting
    ensures Run(cert, steps) == Some(t) && t.acceptor == Accepting && t.plainErrs == s.plainErrs
    ensures |t.conns| == |s.conns| + 1 && At(t, |s.conns|, ReportsPlain)
  {
    steps, t := OneMoreComes(cert, before, s, Conn("", []));
    steps, t := After(cert, steps, t, ByHandler(|s.conns|, PeekFails(0)));
  }

  /** That many connections have come and gone without a byte. */
  lemma {:induction false} ErrorsFillUp(cert: Certificate, k: nat) returns (steps: seq<Step>, s: State)
    requires k <= CAPACITY
    ensures Run(cert, steps) == Some(s) && s.plainErrs == k && s.acceptor == Accepting
  {
    if k == 0 {
      return [], INITIAL;
    }
    var before, t := ErrorsFillUp(cert, k - 1);
    steps, s := OneMoreFails(cert, before, t);
    steps, s := After(cert, steps, s, ByHandler(|t.conns|, Reports));
  }

  /** Some run fills the error channel and leaves a goroutine behind that cannot report its
      failed peek. */
  lemma FullErrorsBlockAHandler(cert: Certificate)
    ensures exists steps, c: nat :: Stuck(cert, steps, c) && At(Run(cert, steps).value, c, ReportsPlain)
  {
    var full, s := ErrorsFillUp(cert, CAPACITY);
    var steps, t := OneMoreFails(cert, full, s);
    var c := |s.conns|;
    UndecidedIsNotRouted(cert, steps, t, c);
    DoomedIsStuck(cert, steps, c);
    assert Stuck(cert, steps, c) && At(Run(cert, steps).value, c, ReportsPlain);
  }

  /** Some run fills it, and then accepting fails once more: a connection that arrives now is
      never even accepted, whatever it says. */
  lemma FullErrorsBlockTheAcceptor(cert: Certificate, conn: Conn)
    ensures exists steps, c: nat ::
      Stuck(cert, steps, c) && c in Run(cert, steps).value.waiting && Run(cert, steps).value.conns[c] == conn
  {
    var steps, s := ErrorsFillUp(cert, CAPACITY);
    var t;
    steps, t := After(cert, steps, s, InFront(AcceptFails));
    steps, t := After(cert, steps, t, InFront(Arrives(conn)));
    var c := |s.conns|;
    UndecidedIsNotRouted(cert, steps, t, c);
    DoomedIsStuck(cert, steps, c);
    assert Stuck(cert, steps, c) && c in Run(cert, steps).value.waiting && Run(cert, steps).value.conns[c] == conn;
  }

  lemma UndecidedIsNotRouted(cert: Certificate, steps: seq<Step>, s: State, c: nat)
    requires Run(cert, steps) == Some(s) && (c in s.waiting || c in s.handlers)
    ensures c < |s.conns| && c !in s.routes && !(c in s.waiting && c in s.handlers)
  {
    EveryRunIsSafe(cert, steps);
    assert SafeAt(cert, s, c);
  }

  /** A connection arrives that says neither TLS nor HTTP, and waits to be put into the plain
      queue. */
  lemma OneMorePlain(cert: Certificate, before: seq<Step>, s: State, destination: string)
    returns (steps: seq<Step>, t: State)
    requires Run(cert, before) == Some(s) && s.acceptor == Accepting
    ensures Run(cert, steps) == Some(t) && t.acceptor == Accepting
    ensures t.queues == s.queues
    ensures t.conns == s.conns + [Conn(destination, [0, 0, 0])] && At(t, |s.conns|, Routes(false))
  {
    steps, t := OneMoreComes(cert, before, s, Conn(destination, [0, 0, 0]));
    steps, t := After(cert, steps, t, ByHandler(|s.conns|, PeekSucceeds));
  }

  /** A redirected connection closes when its first bytes are looked at once more. */
  lemma TheServerStops(cert: Certificate) returns (steps: seq<Step>, s: State)
    ensures Run(cert, steps) == Some(s) && s.acceptor == Accepting && s.queues.stopped && s.queues.plain == []
  {
    steps, s := OneMorePlain(cert, [], INITIAL, "a");
    steps, s := After(cert, steps, s, ByHandler(0, Decides));
    steps, s := After(cert, steps, s, Behind(PlainAccepts));
    steps, s := After(cert, steps, s, Behind(BouncerPeeks(0, Failed)));
  }

  /** Then that many connections come in. */
  lemma {:induction false} TheQueueFillsUp(cert: Certificate, k: nat) returns (steps: seq<Step>, s: State)
    requires k <= CAPACITY
    ensures Run(cert, steps) == Some(s) && s.acceptor == Accepting && s.queues.stopped && |s.queues.plain| == k
  {
    if k == 0 {
      steps, s := TheServerStops(cert);
    } else {
      var before, t := TheQueueFillsUp(cert, k - 1);
      steps, s := OneMorePlain(cert, before, t, "");
      steps, s := After(cert, steps, s, ByHandler(|t.conns|, Decides));
    }
  }

  /** Some run stops the server, fills the plain queue and leaves a goroutine behind that
      cannot put its connection there. */
  lemma AFullQueueBlocksAHandler(cert: Certificate)
    ensures exists steps, c: nat :: Stuck(cert, steps, c) && At(Run(cert, steps).value, c, Routes(false))
  {
    var full, s := TheQueueFillsUp(cert, CAPACITY);
    var steps, t := OneMorePlain(cert, full, s, "");
    var c := |s.conns|;
    UndecidedIsNotRouted(cert, steps, t, c);
    DoomedIsStuck(cert, steps, c);
    assert Stuck(cert, steps, c) && At(Run(cert, steps).value, c, Routes(false));
  }
}
