/** HTTP over vsock: who owns a connection from the dial to the close of the response body. */
module Transport {
  import opened Wrappers
  import opened Sockets

  // ---- dial --------------------------------------------------------------

  /** The error of making the socket (Nil if there is none), the connect handshake, and getsockname's answer. */
  datatype DialWorld = DialWorld(socket: Error, connect: Script<ConnectTurn>, local: Result<Addr, Error>)

  /** A dialed connection: its socket and the two addresses it reports. */
  datatype Dialed = Dialed(id: nat, local: Addr, remote: Addr)

  /** Dial waits for Connect, so the handshake is taken to have come to an end. */
  predicate Settled(w: DialWorld) {
    ConnectRun(0, w.connect).0.Returned?
  }

  /** The addresses of the connection, or the first error. */
  function DialOutcome(w: DialWorld, sa: Addr): Result<(Addr, Addr), Error> {
    var (_, rsa, err) := ConnectRun(0, w.connect);
    if w.socket != Nil then Err(w.socket)
    else if err != Nil then Err(err)
    else
      match w.local
      case Err(e) => Err(e)
      case Ok(local) => Ok((local, if rsa.Some? then rsa.value else sa))
  }

  /**
   * dial takes a nil error of Connect for a connection and fills in a missing peer. What it returns
   * is connected exactly when the socket or its address could not be had, so that it returns nothing,
   * or the handshake does not end in an error that Connect drops.
   */
  lemma DialTruthful(w: DialWorld, sa: Addr)
    requires Settled(w)
    ensures (DialOutcome(w, sa).Ok? ==> Connected(w.connect)) <==>
            w.socket != Nil || w.local.Err? || !(Undisturbed(0, w.connect) && ErrorLost(w.connect))
  {
    NilErrorTruthful(0, w.connect);
  }

  /**
   * For one: any final answer of the first connect(2) yields a connection, if getsockname works, though
   * the socket is only connected if that answer was nil or EISCONN.
   */
  lemma DialBelievesConnect(e: Error, t: ConnectTurn, local: Addr, sa: Addr)
    requires Ready(e) && !IsContextError(e)
    ensures var script := Script(Nil, [Turn(Nil, t.(connect := e), Nil)], Nil);
            && DialOutcome(DialWorld(Nil, script, Ok(local)), sa) == Ok((local, sa))
            && (Connected(script) <==> e == Nil || e == EISCONN)
  {
    ConnectFailureUnreported(e, t);
  }

  /** dial fails exactly if one of its steps does, with the error of the first that does. */
  lemma DialFails(w: DialWorld, sa: Addr)
    ensures DialOutcome(w, sa).Ok? <==> w.socket == Nil && ConnectRun(0, w.connect).2 == Nil && w.local.Ok?
    ensures w.socket != Nil ==> DialOutcome(w, sa) == Err(w.socket)
    ensures w.socket == Nil && ConnectRun(0, w.connect).2 != Nil ==> DialOutcome(w, sa) == Err(ConnectRun(0, w.connect).2)
    ensures w.socket == Nil && ConnectRun(0, w.connect).2 == Nil && w.local.Err? ==> DialOutcome(w, sa) == Err(w.local.error)
  {
  }

  /** The addresses: the socket's own, and the peer that the handshake's last turn saw, or else the one dialed. */
  lemma DialAddresses(w: DialWorld, sa: Addr, k: nat)
    requires Undisturbed(0, w.connect) && Finishes(ConnectClosure, NEW_CONNECT, w.connect.turns, k) && DialOutcome(w, sa).Ok?
    ensures var t, addrs := w.connect.turns[k].input, DialOutcome(w, sa).value;
            && w.local == Ok(addrs.0)
            && addrs.1 == if !Connects(k) && t.gerr == Nil && t.errno == 0 && t.peer.Some? then t.peer.value else sa
  {
    var (rsa, err) := Verdict(k, w.connect.turns[k].input, StaleErrno(w.connect.turns, k));
    ConnectContract(0, w.connect, rsa, err);
  }

  // ---- One round trip ------------------------------------------------------

  /** How the TLS handshake ends for the caller: in time, with the handshake's error, or by timeout. */
  datatype Handshake = Done(err: Error) | TimedOut

  datatype TripWorld = TripWorld(dial: DialWorld, handshake: Handshake, write: Error, read: Error)

  datatype TripError = DialFailed(err: Error) | HandshakeFailed(err: Error) | HandshakeTimeout | WriteFailed(err: Error) | ReadFailed(err: Error)

  function TripFailure(tls: bool, w: TripWorld, sa: Addr): Option<TripError> {
    if DialOutcome(w.dial, sa).Err? then Some(DialFailed(DialOutcome(w.dial, sa).error))
    else if tls && w.handshake.TimedOut? then Some(HandshakeTimeout)
    else if tls && w.handshake.err != Nil then Some(HandshakeFailed(w.handshake.err))
    else if w.write != Nil then Some(WriteFailed(w.write))
    else if w.read != Nil then Some(ReadFailed(w.read))
    else None
  }

  /** A trip succeeds exactly if all its steps do, and else has the error of the first that fails. */
  lemma TripFails(tls: bool, w: TripWorld, sa: Addr, e: Error)
    ensures TripFailure(tls, w, sa) == None <==>
            DialOutcome(w.dial, sa).Ok? && (tls ==> w.handshake == Done(Nil)) && w.write == Nil && w.read == Nil
    ensures TripFailure(tls, w, sa) == Some(DialFailed(e)) <==> DialOutcome(w.dial, sa) == Err(e)
    ensures TripFailure(tls, w, sa) == Some(HandshakeTimeout) <==> DialOutcome(w.dial, sa).Ok? && tls && w.handshake == TimedOut
    ensures TripFailure(tls, w, sa) == Some(HandshakeFailed(e)) <==> DialOutcome(w.dial, sa).Ok? && tls && w.handshake == Done(e) && e != Nil
    ensures TripFailure(tls, w, sa) == Some(WriteFailed(e)) <==>
            DialOutcome(w.dial, sa).Ok? && (tls ==> w.handshake == Done(Nil)) && w.write == e && e != Nil
    ensures TripFailure(tls, w, sa) == Some(ReadFailed(e)) <==>
            DialOutcome(w.dial, sa).Ok? && (tls ==> w.handshake == Done(Nil)) && w.write == Nil && w.read == e && e != Nil
  {
  }

  const DEFAULT_TIMEOUT := 30

  class HttpRequest {
    var scheme: string
    var host: string
    /** The deadline of the request's context, in seconds. */
    var deadline: Option<int>

    constructor (scheme: string, host: string, deadline: Option<int>)
      ensures this.scheme == scheme && this.host == host && this.deadline == deadline
    {
      this.scheme, this.host, this.deadline := scheme, host, deadline;
    }
  }

  class TlsConfig {
    var serverName: string

    constructor (serverName: string)
      ensures this.serverName == serverName
    {
      this.serverName := serverName;
    }
  }

  /** What a dialed connection is used for; scheme is that of the request if one is written. */
  datatype Wire = Wire(remote: Addr, tls: Option<(string, int)>, scheme: Option<string>)

  class Network {
    /** Transport connections that have not been closed. */
    var open: set<nat>
    /** Response bodies that have not been closed, with the connection each owns. */
    var bodies: map<nat, nat>
    var next: nat

    /** The open connections are exactly those owned by unclosed bodies, each by one. */
    ghost predicate Conserved()
      reads this
    {
      && open == bodies.Values
      && (forall b, b' | b in bodies && b' in bodies && bodies[b] == bodies[b'] :: b == b')
      && (forall c | c in open :: c < next)
      && (forall b | b in bodies :: b < next)
    }

    constructor ()
      ensures Conserved() && open == {} && bodies == map[]
    {
      open, bodies, next := {}, map[], 0;
    }

    method Dial(sa: Addr, w: DialWorld) returns (r: Result<Dialed, Error>)
      requires Settled(w) && forall c | c in open :: c < next
      modifies this`open, this`next
      ensures next == old(next) + 1
      ensures open == old(open) + if r.Ok? then {old(next)} else {}
      ensures match DialOutcome(w, sa) {
                case Err(e) => r == Err(e)
                case Ok(addrs) => r == Ok(Dialed(old(next), addrs.0, addrs.1))
              }
    {
      var c := next;
      next := next + 1;
      if w.socket != Nil {
        return Err(w.socket);
      }
      open := open + {c};
      var socket := new Conn(true, true);
      var outcome, rsa, err := socket.Connect(w.connect);
      if err != Nil {
        open := open - {c};
        return Err(err);
      }
      if rsa.None? {
        rsa := Some(sa);
      }
      if w.local.Err? {
        open := open - {c};
        return Err(w.local.error);
      }
      return Ok(Dialed(c, w.local.value, rsa.value));
    }

    /** The request that is sent: the caller's, or a copy with the scheme and a deadline that it lacks. */
    method PrepareRequest(req: HttpRequest, scheme: string, now: int) returns (sent: HttpRequest)
      ensures sent.scheme == scheme && sent.host == req.host
      ensures sent.deadline == if req.deadline.Some? then req.deadline else Some(now + 30)
    {
      sent := req;
      if sent.scheme != scheme {
        sent := new HttpRequest(sent.scheme, sent.host, sent.deadline);
        sent.scheme := scheme;
      }
      if sent.deadline.None? {
        sent := new HttpRequest(sent.scheme, sent.host, Some(now + DEFAULT_TIMEOUT));
      }
    }

    /** The configuration that is used: a copy with the host as server name if it has none. */
    method PrepareTls(config: TlsConfig, host: string) returns (used: TlsConfig)
      ensures used.serverName == if config.serverName == "" then host else config.serverName
    {
      used := config;
      if used.serverName == "" {
        used := new TlsConfig(used.serverName);
        used.serverName := host;
      }
    }

    /** A body for a connection that is not owned yet. */
    method Wrap(conn: nat) returns (body: nat)
      requires open == bodies.Values + {conn} && conn !in bodies.Values && conn < next
      requires forall b, b' | b in bodies && b' in bodies && bodies[b] == bodies[b'] :: b == b'
      requires (forall c | c in open :: c < next) && forall b | b in bodies :: b < next
      modifies this`bodies, this`next
      ensures Conserved()
      ensures body !in old(bodies) && bodies == old(bodies)[body := conn]
    {
      body := next;
      ghost var before := bodies;
      bodies := bodies[next := conn];
      next := next + 1;
      assert bodies.Values == before.Values + {conn} by {
        forall c | c in before.Values ensures c in bodies.Values {
          var b :| b in before && before[b] == c;
          assert b in bodies && bodies[b] == c;
        }
        assert body in bodies;
      }
    }

    /** Both RoundTrip methods; config is null for plain HTTP. Neither the request nor config is changed. */
    method RoundTrip(req: HttpRequest, config: TlsConfig?, sa: Addr, now: int, w: TripWorld) returns (r: Result<nat, TripError>, wire: Option<Wire>)
      requires Conserved() && Settled(w.dial)
      modifies this
      ensures Conserved()
      ensures match TripFailure(config != null, w, sa) {
                case Some(e) => r == Err(e) && open == old(open) && bodies == old(bodies)
                case None =>
                  && r.Ok? && r.value !in old(bodies) && r.value in bodies && bodies[r.value] !in old(open)
                  && bodies == old(bodies)[r.value := bodies[r.value]] && open == old(open) + {bodies[r.value]}
              }
      ensures wire.Some? <==> DialOutcome(w.dial, sa).Ok?
      ensures wire.Some? ==>
                && wire.value.remote == DialOutcome(w.dial, sa).value.1
                && (wire.value.scheme ==
                    if config == null then Some("http") else if w.handshake == Done(Nil) then Some("https") else None)
                && (wire.value.tls == if config == null then None else Some((
                     if config.serverName == "" then req.host else config.serverName,
                     if req.deadline.Some? then req.deadline.value else now + 30)))
    {
      wire := None;
      var sent := PrepareRequest(req, if config != null then "https" else "http", now);
      var dialed := Dial(sa, w.dial);
      if dialed.Err? {
        return Err(DialFailed(dialed.error)), wire;
      }
      var conn := dialed.value.id;
      wire := Some(Wire(dialed.value.remote, None, None));
      if config != null {
        var used := PrepareTls(config, sent.host);
        wire := Some(wire.value.(tls := Some((used.serverName, sent.deadline.value))));
        if w.handshake != Done(Nil) {
          open := open - {conn};
          return Err(if w.handshake.TimedOut? then HandshakeTimeout else HandshakeFailed(w.handshake.err)), wire;
        }
      }
      wire := Some(wire.value.(scheme := Some(sent.scheme)));
      if w.write != Nil {
        open := open - {conn};
        return Err(WriteFailed(w.write)), wire;
      }
      if w.read != Nil {
        open := open - {conn};
        return Err(ReadFailed(w.read)), wire;
      }
      var body := Wrap(conn);
      return Ok(body), wire;
    }

    /**
     * Close of either body type: the reader first, then the connection, and the first error of the two.
     * Closing a body again changes nothing.
     */
    method CloseBody(body: nat, readerErr: Error, connErr: Error) returns (err: Error)
      requires Conserved()
      modifies this`open, this`bodies
      ensures Conserved()
      ensures bodies == old(bodies) - {body}
      ensures open == old(open) - (if body in old(bodies) then {old(bodies)[body]} else {})
      ensures err == if readerErr != Nil then readerErr else connErr
    {
      if body in bodies {
        ghost var before := bodies;
        open := open - {bodies[body]};
        bodies := bodies - {body};
        assert bodies.Values == before.Values - {before[body]} by {
          forall c | c in before.Values && c != before[body] ensures c in bodies.Values {
            var b :| b in before && before[b] == c;
            assert b in bodies && bodies[b] == c;
          }
        }
      } else {
        assert bodies - {body} == bodies;
      }
      if readerErr != Nil {
        return readerErr;
      }
      return connErr;
    }
  }

  // ---- Many round trips at once ----------------------------------------------

  /**
   * Where a trip is: from Connecting on it holds a socket, which goes over to its response body when
   * it succeeds. Over: it returned an error, or its body was closed.
   */
  datatype Phase =
    | Dialing
    | Connecting(conn: nat)
    | Naming(conn: nat)
    | Handshaking(conn: nat)
    | Writing(conn: nat)
    | Reading(conn: nat)
    | Responded(conn: nat)
    | Over

  datatype Trip = Trip(tls: bool, phase: Phase)

  datatype Trips = Trips(open: set<nat>, trips: map<nat, Trip>)

  /** Steps of trip t; ok says whether the step succeeds. A new socket may reuse a closed one's number. */
  datatype Event =
    | Begin(t: nat, tls: bool)
    | MakeSocket(t: nat, conn: Option<nat>)
    | Advance(t: nat, ok: bool)
    | Close(t: nat)

  predicate UnderWay(phase: Phase) {
    !phase.Dialing? && !phase.Responded? && !phase.Over?
  }

  predicate Enabled(s: Trips, e: Event) {
    match e
    case Begin(t, _) => t !in s.trips
    case MakeSocket(t, conn) => t in s.trips && s.trips[t].phase.Dialing? && (conn.Some? ==> conn.value !in s.open)
    case Advance(t, _) => t in s.trips && UnderWay(s.trips[t].phase)
    case Close(t) => t in s.trips && (s.trips[t].phase.Responded? || s.trips[t].phase.Over?)
  }

  /** What follows a step that succeeds. */
  function Following(trip: Trip): Phase
    requires UnderWay(trip.phase)
  {
    match trip.phase
    case Connecting(conn) => Naming(conn)
    case Naming(conn) => if trip.tls then Handshaking(conn) else Writing(conn)
    case Handshaking(conn) => Writing(conn)
    case Writing(conn) => Reading(conn)
    case Reading(conn) => Responded(conn)
  }

  function Move(s: Trips, t: nat, phase: Phase): Trips
    requires t in s.trips
  {
    s.(trips := s.trips[t := s.trips[t].(phase := phase)])
  }

  function Step(s: Trips, e: Event): Trips
    requires Enabled(s, e)
  {
    match e
    case Begin(t, tls) => s.(trips := s.trips[t := Trip(tls, Dialing)])
    case MakeSocket(t, None) => Move(s, t, Over)
    case MakeSocket(t, Some(conn)) => Move(s.(open := s.open + {conn}), t, Connecting(conn))
    case Advance(t, ok) =>
      if ok then Move(s, t, Following(s.trips[t])) else Move(s.(open := s.open - {s.trips[t].phase.conn}), t, Over)
    case Close(t) =>
      if s.trips[t].phase.Over? then s else Move(s.(open := s.open - {s.trips[t].phase.conn}), t, Over)
  }

  ghost predicate Run(s: Trips, events: seq<Event>, s': Trips)
    decreases events
  {
    if events == [] then s == s'
    else Enabled(s, events[0]) && Run(Step(s, events[0]), events[1..], s')
  }

  /** Trip t under way, or its unclosed body, has this connection. */
  predicate Owns(s: Trips, t: nat, c: nat) {
    t in s.trips && !s.trips[t].phase.Dialing? && !s.trips[t].phase.Over? && s.trips[t].phase.conn == c
  }

  ghost predicate Accounted(s: Trips) {
    && (forall t, c | Owns(s, t, c) :: c in s.open)
    && (forall t, t', c | Owns(s, t, c) && Owns(s, t', c) :: t == t')
    && (forall c | c in s.open :: exists t :: Owns(s, t, c))
  }

  /** A step touches one trip, which keeps its connection, gets a fresh one or gives it up. */
  lemma StepOwners(s: Trips, e: Event, t: nat, c: nat)
    requires Enabled(s, e)
    ensures t != e.t ==> (Owns(Step(s, e), t, c) <==> Owns(s, t, c))
    ensures Owns(Step(s, e), e.t, c) ==> Owns(s, e.t, c) || e == MakeSocket(e.t, Some(c))
    ensures Owns(s, e.t, c) ==> Owns(Step(s, e), e.t, c) || Step(s, e).open == s.open - {c}
  {
  }

  lemma StepKeepsAccount(s: Trips, e: Event)
    requires Accounted(s) && Enabled(s, e)
    ensures Accounted(Step(s, e))
  {
    var s' := Step(s, e);
    forall t, c | Owns(s', t, c) ensures c in s'.open {
      StepOwners(s, e, t, c);
      if t != e.t {
        assert Owns(s, t, c) && c in s.open;
        if c !in s'.open {
          assert Owns(s, e.t, c);
        }
      }
    }
    forall t, t', c | Owns(s', t, c) && Owns(s', t', c) ensures t == t' {
      StepOwners(s, e, t, c);
      StepOwners(s, e, t', c);
    }
    forall c | c in s'.open ensures exists t :: Owns(s', t, c) {
      if c in s.open {
        var t :| Owns(s, t, c);
        StepOwners(s, e, t, c);
        assert Owns(s', t, c);
      } else {
        assert Owns(s', e.t, c);
      }
    }
  }

  lemma {:induction false} RunKeepsAccount(s: Trips, events: seq<Event>, s': Trips)
    requires Accounted(s) && Run(s, events, s')
    ensures Accounted(s')
    decreases events
  {
    if events != [] {
      StepKeepsAccount(s, events[0]);
      RunKeepsAccount(Step(s, events[0]), events[1..], s');
    }
  }

  /**
   * In every run of any number of overlapping trips and closes, with any outcomes, the open connections
   * are those of trips under way and of unclosed bodies, each owned by exactly one of these. When no
   * trip is under way they are those of the unclosed bodies.
   */
  lemma ConnectionsConserved(events: seq<Event>, s: Trips)
    requires Run(Trips({}, map[]), events, s)
    ensures forall c :: c in s.open <==> exists t :: Owns(s, t, c)
    ensures forall t, t', c | Owns(s, t, c) && Owns(s, t', c) :: t == t'
    ensures (forall t | t in s.trips :: !UnderWay(s.trips[t].phase)) ==>
              forall c :: c in s.open <==> exists t :: t in s.trips && s.trips[t].phase == Responded(c)
  {
    RunKeepsAccount(Trips({}, map[]), events, s);
    if forall t | t in s.trips :: !UnderWay(s.trips[t].phase) {
      forall c ensures c in s.open <==> exists t :: t in s.trips && s.trips[t].phase == Responded(c) {
        if c in s.open {
          var t :| Owns(s, t, c);
          assert s.trips[t].phase == Responded(c);
        }
        if t :| t in s.trips && s.trips[t].phase == Responded(c) {
          assert Owns(s, t, c);
        }
      }
    }
  }

  /** An unclosed body can always be closed, which closes its connection, the only one it had, and no other. */
  lemma BodyCloses(events: seq<Event>, s: Trips, t: nat, c: nat)
    requires Run(Trips({}, map[]), events, s) && t in s.trips && s.trips[t].phase == Responded(c)
    ensures Enabled(s, Close(t)) && Step(s, Close(t)).open == s.open - {c} && c in s.open
    ensures forall u | u != t && u in s.trips :: u in Step(s, Close(t)).trips && Step(s, Close(t)).trips[u] == s.trips[u]
  {
    ConnectionsConserved(events, s);
    assert Owns(s, t, c);
  }

  /** Whether a trip in this phase still fails in the given world. */
  function FailsFrom(trip: Trip, w: TripWorld): bool
    requires UnderWay(trip.phase)
    decreases Rank(trip.phase)
  {
    !StepSucceeds(trip.phase, w)
    || (!trip.phase.Reading? && FailsFrom(trip.(phase := Following(trip)), w))
  }

  function Rank(phase: Phase): nat {
    match phase
    case Dialing => 7
    case Connecting(_) => 6
    case Naming(_) => 5
    case Handshaking(_) => 4
    case Writing(_) => 3
    case Reading(_) => 2
    case Responded(_) => 1
    case Over => 0
  }

  predicate StepSucceeds(phase: Phase, w: TripWorld)
    requires UnderWay(phase)
  {
    match phase
    case Connecting(_) => ConnectRun(0, w.dial.connect).2 == Nil
    case Naming(_) => w.dial.local.Ok?
    case Handshaking(_) => w.handshake == Done(Nil)
    case Writing(_) => w.write == Nil
    case Reading(_) => w.read == Nil
  }

  lemma FailsFromStart(tls: bool, conn: nat, w: TripWorld, sa: Addr)
    requires w.dial.socket == Nil
    ensures FailsFrom(Trip(tls, Connecting(conn)), w) <==> TripFailure(tls, w, sa).Some?
  {
    var naming, writing := Trip(tls, Naming(conn)), Trip(tls, Writing(conn));
    assert FailsFrom(writing, w) <==> w.write != Nil || w.read != Nil by {
      assert FailsFrom(Trip(tls, Reading(conn)), w) <==> w.read != Nil;
    }
    assert FailsFrom(naming, w) <==> w.dial.local.Err? || (tls && w.handshake != Done(Nil)) || FailsFrom(writing, w);
  }

  lemma RunCons(s: Trips, e: Event, rest: seq<Event>, s': Trips)
    requires Enabled(s, e) && Run(Step(s, e), rest, s')
    ensures Run(s, [e] + rest, s')
  {
    assert ([e] + rest)[1..] == rest;
  }

  lemma {:induction false} FinishTrip(s: Trips, t: nat, w: TripWorld) returns (events: seq<Event>, s': Trips)
    requires t in s.trips && UnderWay(s.trips[t].phase)
    ensures Run(s, events, s')
    ensures var trip, conn := s.trips[t], s.trips[t].phase.conn;
            && s'.trips == s.trips[t := trip.(phase := if FailsFrom(trip, w) then Over else Responded(conn))]
            && s'.open == if FailsFrom(trip, w) then s.open - {conn} else s.open
    decreases Rank(s.trips[t].phase)
  {
    var e := Advance(t, StepSucceeds(s.trips[t].phase, w));
    var s1 := Step(s, e);
    var rest := [];
    s' := s1;
    assert Run(s1, [], s1);
    if UnderWay(s1.trips[t].phase) {
      rest, s' := FinishTrip(s1, t, w);
    }
    RunCons(s, e, rest, s');
    events := [e] + rest;
  }

  /**
   * A trip that no other interrupts runs the steps of the RoundTrip method: it ends with a body on its
   * new connection exactly when the method does, and otherwise leaves no connection behind.
   */
  lemma TripOnItsOwn(s: Trips, t: nat, tls: bool, conn: nat, w: TripWorld, sa: Addr) returns (events: seq<Event>, s': Trips)
    requires t !in s.trips && conn !in s.open && Settled(w.dial)
    ensures Run(s, events, s')
    ensures match TripFailure(tls, w, sa) {
              case Some(_) => s'.trips == s.trips[t := Trip(tls, Over)] && s'.open == s.open
              case None => s'.trips == s.trips[t := Trip(tls, Responded(conn))] && s'.open == s.open + {conn}
            }
  {
    var s1 := Step(s, Begin(t, tls));
    var e := MakeSocket(t, if w.dial.socket == Nil then Some(conn) else None);
    var s2 := Step(s1, e);
    var rest := [];
    s' := s2;
    assert Run(s2, [], s2);
    if w.dial.socket == Nil {
      rest, s' := FinishTrip(s2, t, w);
      FailsFromStart(tls, conn, w, sa);
    }
    RunCons(s1, e, rest, s');
    events := [e] + rest;
    RunCons(s, Begin(t, tls), events, s');
    events := [Begin(t, tls)] + events;
  }

  // ---- The handshake goroutine ---------------------------------------------

  datatype Helper = Shaking | Sending(err: Error) | Exited
  datatype Caller = Selecting | Received(err: Error) | GaveUp

  /** buffer: the result channel's contents. */
  datatype Race = Race(helper: Helper, caller: Caller, buffer: seq<Error>)

  datatype RaceEvent = Finish(err: Error) | Send | Receive | Timeout

  /** A send needs room in the buffer, or a caller that is still selecting. */
  predicate CanRace(capacity: nat, r: Race, e: RaceEvent) {
    match e
    case Finish(_) => r.helper.Shaking?
    case Send => r.helper.Sending? && (|r.buffer| < capacity || (capacity == 0 && r.caller.Selecting?))
    case Receive => r.caller.Selecting? && r.buffer != []
    case Timeout => r.caller.Selecting?
  }

  function RaceStep(capacity: nat, r: Race, e: RaceEvent): Race
    requires CanRace(capacity, r, e)
  {
    match e
    case Finish(err) => r.(helper := Sending(err))
    case Send => if capacity == 0 then r.(helper := Exited, caller := Received(r.helper.err))
                 else r.(helper := Exited, buffer := r.buffer + [r.helper.err])
    case Receive => r.(caller := Received(r.buffer[0]), buffer := r.buffer[1..])
    case Timeout => r.(caller := GaveUp)
  }

  ghost predicate Races(capacity: nat, r: Race, events: seq<RaceEvent>, r': Race)
    decreases events
  {
    if events == [] then r == r'
    else CanRace(capacity, r, events[0]) && Races(capacity, RaceStep(capacity, r, events[0]), events[1..], r')
  }

  const START := Race(Shaking, Selecting, [])

  /** Some caller behaviour leaves the helper with a result that it can never deliver. */
  ghost predicate Stuck(capacity: nat, events: seq<RaceEvent>, r: Race) {
    Races(capacity, START, events, r) && r.helper.Sending? && !CanRace(capacity, r, Send)
  }

  lemma {:induction false} NothingBufferedYet(capacity: nat, r: Race, events: seq<RaceEvent>, r': Race)
    requires Races(capacity, r, events, r') && (r.helper.Exited? || r.buffer == [])
    ensures r'.helper.Exited? || r'.buffer == []
    decreases events
  {
    if events != [] {
      NothingBufferedYet(capacity, RaceStep(capacity, r, events[0]), events[1..], r');
    }
  }

  /** The goroutine can always deliver its result, even after a timeout, exactly when the channel has a buffer. */
  lemma HelperNeverStuck(capacity: nat)
    ensures (forall events, r :: !Stuck(capacity, events, r)) <==> capacity >= 1
  {
    if capacity >= 1 {
      forall events, r ensures !Stuck(capacity, events, r) {
        if Races(capacity, START, events, r) {
          NothingBufferedYet(capacity, START, events, r);
        }
      }
    } else {
      var events := [Timeout, Finish(Nil)];
      var r := Race(Sending(Nil), GaveUp, []);
      assert events[1..] == [Finish(Nil)] && events[1..][1..] == [];
      assert Races(capacity, Race(Shaking, GaveUp, []), events[1..], r);
      assert Stuck(capacity, events, r);
    }
  }

  /** The caller gets the handshake's own error, or gives up; with room in the channel either can happen. */
  lemma {:induction false} ReceivesOwnError(capacity: nat, r: Race, events: seq<RaceEvent>, r': Race)
    requires Races(capacity, r, events, r')
    requires r.helper.Shaking? && r.buffer == [] && !r.caller.Received?
    ensures r'.caller.Received? ==> Finish(r'.caller.err) in events
    decreases events
  {
    if events != [] {
      if events[0].Finish? {
        OneResult(capacity, RaceStep(capacity, r, events[0]), events[1..], r', events[0].err);
        assert events[0] == Finish(events[0].err);
      } else {
        ReceivesOwnError(capacity, RaceStep(capacity, r, events[0]), events[1..], r');
      }
    }
  }

  /** Once the helper has its result, that is the only one there is. */
  lemma {:induction false} OneResult(capacity: nat, r: Race, events: seq<RaceEvent>, r': Race, e: Error)
    requires Races(capacity, r, events, r') && !r.helper.Shaking? && (r.helper.Sending? ==> r.helper.err == e)
    requires (forall i | 0 <= i < |r.buffer| :: r.buffer[i] == e) && (r.caller.Received? ==> r.caller.err == e)
    ensures r'.caller.Received? ==> r'.caller.err == e
    decreases events
  {
    if events != [] {
      OneResult(capacity, RaceStep(capacity, r, events[0]), events[1..], r', e);
    }
  }

  lemma RacesCons(capacity: nat, r: Race, e: RaceEvent, rest: seq<RaceEvent>, r': Race)
    requires CanRace(capacity, r, e) && Races(capacity, RaceStep(capacity, r, e), rest, r')
    ensures Races(capacity, r, [e] + rest, r')
  {
    assert ([e] + rest)[1..] == rest;
  }

  lemma HandshakeOutcomes(e: Error) returns (inTime: seq<RaceEvent>, r: Race)
    ensures Races(1, START, inTime, r) && r.caller == Received(e)
    ensures CanRace(1, START, Timeout) && RaceStep(1, START, Timeout).caller == GaveUp
  {
    var r1 := RaceStep(1, START, Finish(e));
    var r2 := RaceStep(1, r1, Send);
    r := RaceStep(1, r2, Receive);
    assert Races(1, r, [], r);
    RacesCons(1, r2, Receive, [], r);
    RacesCons(1, r1, Send, [Receive] + [], r);
    RacesCons(1, START, Finish(e), [Send] + ([Receive] + []), r);
    inTime := [Finish(e)] + ([Send] + ([Receive] + []));
  }
}
