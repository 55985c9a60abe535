/** The two copying goroutines of a proxied connection. */
module Proxy {

  type byte = bv8

  /** One of the two connections: what its peer sent into it, what its peer got out of it. */
  datatype Endpoint = Endpoint(sent: seq<byte>, got: seq<byte>, open: bool)

  /** The stages of forward: io.Copy, then, for the pump started with close, the deferred closes. */
  datatype Phase = Reading | Writing(buf: seq<byte>) | ClosingSource | ClosingDestination | Ended

  /** taken counts the bytes read from the source. */
  datatype Pump = Pump(phase: Phase, taken: nat)

  /** a copies from conn to proxy and closes both when it ends; b copies back and closes nothing. */
  datatype Session = Session(conn: Endpoint, proxy: Endpoint, a: Pump, b: Pump)

  /** Stop is the end of io.Copy by end of file, by an error of the source or by a panic. */
  datatype PumpStep = Read(n: nat) | Write(n: nat, ok: bool) | Stop | CloseNext

  datatype Event = StepA(step: PumpStep) | StepB(step: PumpStep) | ConnPeerSends(data: seq<byte>) | ProxyPeerSends(data: seq<byte>)

  // ---- forward -----------------------------------------------------------

  predicate CanStep(src: Endpoint, dst: Endpoint, p: Pump, step: PumpStep) {
    match step
    case Read(n) => p.phase.Reading? && src.open && 0 < n && p.taken + n <= |src.sent|
    case Write(n, ok) => p.phase.Writing? && n <= |p.phase.buf| && (ok ==> n == |p.phase.buf|) && (!dst.open ==> n == 0 && !ok)
    case Stop => p.phase.Reading? || p.phase.Writing?
    case CloseNext => p.phase.ClosingSource? || p.phase.ClosingDestination?
  }

  function AfterCopy(close: bool): Phase {
    if close then ClosingSource else Ended
  }

  /** One step of forward(source, destination, close). */
  function Forward(src: Endpoint, dst: Endpoint, p: Pump, close: bool, step: PumpStep): (Endpoint, Endpoint, Pump)
    requires CanStep(src, dst, p, step)
  {
    match step
    case Read(n) => (src, dst, Pump(Writing(src.sent[p.taken..p.taken + n]), p.taken + n))
    case Write(n, ok) => (src, dst.(got := dst.got + p.phase.buf[..n]), p.(phase := if ok then Reading else AfterCopy(close)))
    case Stop => (src, dst, p.(phase := AfterCopy(close)))
    case CloseNext =>
      if p.phase.ClosingSource? then (src.(open := false), dst, p.(phase := ClosingDestination))
      else (src, dst.(open := false), p.(phase := Ended))
  }

  // ---- Both pumps ----------------------------------------------------------

  predicate Enabled(s: Session, e: Event) {
    match e
    case StepA(step) => CanStep(s.conn, s.proxy, s.a, step)
    case StepB(step) => CanStep(s.proxy, s.conn, s.b, step)
    case ConnPeerSends(_) => true
    case ProxyPeerSends(_) => true
  }

  function Step(s: Session, e: Event): Session
    requires Enabled(s, e)
  {
    match e
    case StepA(step) => var (c, p, a) := Forward(s.conn, s.proxy, s.a, true, step); Session(c, p, a, s.b)
    case StepB(step) => var (p, c, b) := Forward(s.proxy, s.conn, s.b, false, step); Session(c, p, s.a, b)
    case ConnPeerSends(data) => s.(conn := s.conn.(sent := s.conn.sent + data))
    case ProxyPeerSends(data) => s.(proxy := s.proxy.(sent := s.proxy.sent + data))
  }

  ghost predicate Run(s: Session, events: seq<Event>, s': Session)
    decreases events
  {
    if events == [] then s == s'
    else Enabled(s, events[0]) && Run(Step(s, events[0]), events[1..], s')
  }

  /** Both goroutines start on two open connections with nothing copied. */
  predicate Initial(s: Session) {
    s.conn.open && s.proxy.open && s.conn.got == [] && s.proxy.got == [] && s.a == Pump(Reading, 0) && s.b == Pump(Reading, 0)
  }

  // ---- What each side receives ------------------------------------------------

  /** Delivered bytes are the first ones sent; only a pump that has ended may have dropped what it held. */
  predicate InOrder(src: Endpoint, dst: Endpoint, p: Pump) {
    && p.taken <= |src.sent|
    && match p.phase
       case Reading => dst.got == src.sent[..p.taken]
       case Writing(buf) => dst.got + buf == src.sent[..p.taken]
       case _ => dst.got <= src.sent[..p.taken]
  }

  /** Only pump a closes, first conn and then proxy, and only after its copying. */
  predicate ClosedByA(s: Session) {
    && (s.a.phase.Reading? || s.a.phase.Writing? || s.a.phase.ClosingSource? ==> s.conn.open && s.proxy.open)
    && (s.a.phase.ClosingDestination? ==> !s.conn.open && s.proxy.open)
    && (s.a.phase.Ended? ==> !s.conn.open && !s.proxy.open)
    && !s.b.phase.ClosingSource? && !s.b.phase.ClosingDestination?
  }

  predicate Good(s: Session) {
    InOrder(s.conn, s.proxy, s.a) && InOrder(s.proxy, s.conn, s.b) && ClosedByA(s)
  }

  lemma ForwardKeepsOrder(src: Endpoint, dst: Endpoint, p: Pump, close: bool, step: PumpStep)
    requires InOrder(src, dst, p) && CanStep(src, dst, p, step)
    ensures var (src', dst', p') := Forward(src, dst, p, close, step); InOrder(src', dst', p')
  {
    match step {
      case Read(n) => assert src.sent[..p.taken] + src.sent[p.taken..p.taken + n] == src.sent[..p.taken + n];
      case Write(n, _) =>
        var all := dst.got + p.phase.buf;
        assert all[..|dst.got| + n] == dst.got + p.phase.buf[..n];
        assert p.phase.buf[..|p.phase.buf|] == p.phase.buf;
      case Stop =>
        assert dst.got <= src.sent[..p.taken];
      case CloseNext =>
    }
  }

  lemma StepKeepsGood(s: Session, e: Event)
    requires Good(s) && Enabled(s, e)
    ensures Good(Step(s, e))
  {
    match e {
      case StepA(step) => ForwardKeepsOrder(s.conn, s.proxy, s.a, true, step);
      case StepB(step) => ForwardKeepsOrder(s.proxy, s.conn, s.b, false, step);
      case ConnPeerSends(data) => assert (s.conn.sent + data)[..s.a.taken] == s.conn.sent[..s.a.taken];
      case ProxyPeerSends(data) => assert (s.proxy.sent + data)[..s.b.taken] == s.proxy.sent[..s.b.taken];
    }
  }

  lemma {:induction false} RunKeepsGood(s: Session, events: seq<Event>, s': Session)
    requires Good(s) && Run(s, events, s')
    ensures Good(s')
    decreases events
  {
    if events != [] {
      StepKeepsGood(s, events[0]);
      RunKeepsGood(Step(s, events[0]), events[1..], s');
    }
  }

  /**
   * In every interleaving each side has received a prefix of what the other sent, all of what was read
   * while its pump is between two reads; connections are closed by the ending of pump a and by nothing
   * else, so when b ends first both stay open.
   */
  lemma PumpsDeliverPrefixes(s: Session, events: seq<Event>, s': Session)
    requires Initial(s) && Run(s, events, s')
    ensures s'.proxy.got <= s'.conn.sent && s'.conn.got <= s'.proxy.sent
    ensures s'.a.phase.Reading? ==> |s'.proxy.got| == s'.a.taken
    ensures s'.b.phase.Reading? ==> |s'.conn.got| == s'.b.taken
    ensures s'.a.phase.Ended? <==> !s'.conn.open && !s'.proxy.open
    ensures s'.a.phase.Reading? || s'.a.phase.Writing? ==> s'.conn.open && s'.proxy.open
  {
    RunKeepsGood(s, events, s');
  }

  /** Once the closing pump has ended, nothing is delivered to either side any more. */
  lemma {:induction false} NothingAfterClose(s: Session, events: seq<Event>, s': Session)
    requires Good(s) && s.a.phase.Ended? && Run(s, events, s')
    ensures s'.conn.got == s.conn.got && s'.proxy.got == s.proxy.got && s'.a.phase.Ended?
    decreases events
  {
    if events != [] {
      StepKeepsGood(s, events[0]);
      var s1 := Step(s, events[0]);
      assert s1.conn.got == s.conn.got && s1.proxy.got == s.proxy.got;
      NothingAfterClose(s1, events[1..], s');
    }
  }

  /** A closing pump that has stopped copying can always go on, and two more steps of it close both connections. */
  lemma ClosingCompletes(s: Session)
    requires Good(s) && s.a.phase.ClosingSource?
    ensures Enabled(s, StepA(CloseNext)) && Enabled(Step(s, StepA(CloseNext)), StepA(CloseNext))
    ensures var s' := Step(Step(s, StepA(CloseNext)), StepA(CloseNext));
            s'.a.phase.Ended? && !s'.conn.open && !s'.proxy.open && s'.conn.got == s.conn.got && s'.proxy.got == s.proxy.got
  {
  }

  // ---- What the pumps can always do -----------------------------------------------

  lemma {:induction false} RunSnoc(s: Session, events: seq<Event>, s': Session, e: Event)
    requires Run(s, events, s') && Enabled(s', e)
    ensures Run(s, events + [e], Step(s', e))
    decreases events
  {
    if events == [] {
      assert [e][1..] == [];
      assert Run(Step(s, e), [], Step(s', e));
      assert events + [e] == [e];
    } else {
      RunSnoc(Step(s, events[0]), events[1..], s', e);
      assert (events + [e])[1..] == events[1..] + [e];
    }
  }

  /** While pump a copies, everything sent so far can reach the proxy's side, in at most three steps of it. */
  lemma ClosingPumpDelivers(s: Session) returns (events: seq<Event>, s': Session)
    requires Good(s) && (s.a.phase.Reading? || s.a.phase.Writing?)
    ensures Run(s, events, s') && s'.proxy.got == s.conn.sent && s'.a.phase.Reading?
    ensures s'.conn == s.conn && s'.b == s.b && s'.proxy.open
  {
    events, s' := [], s;
    if s.a.phase.Writing? {
      var e := StepA(Write(|s.a.phase.buf|, true));
      RunSnoc(s, events, s', e);
      StepKeepsGood(s', e);
      events, s' := events + [e], Step(s', e);
    }
    if s'.a.taken < |s'.conn.sent| {
      var e1 := StepA(Read(|s'.conn.sent| - s'.a.taken));
      RunSnoc(s, events, s', e1);
      StepKeepsGood(s', e1);
      events, s' := events + [e1], Step(s', e1);
      var e2 := StepA(Write(|s'.a.phase.buf|, true));
      RunSnoc(s, events, s', e2);
      StepKeepsGood(s', e2);
      events, s' := events + [e2], Step(s', e2);
    }
    assert s'.conn.sent[..|s'.conn.sent|] == s'.conn.sent;
  }

  /** The same for the other direction, while both connections are open. */
  lemma OtherPumpDelivers(s: Session) returns (events: seq<Event>, s': Session)
    requires Good(s) && (s.b.phase.Reading? || s.b.phase.Writing?) && s.conn.open && s.proxy.open
    ensures Run(s, events, s') && s'.conn.got == s.proxy.sent && s'.b.phase.Reading?
    ensures s'.proxy == s.proxy && s'.a == s.a && s'.conn.open
  {
    events, s' := [], s;
    if s.b.phase.Writing? {
      var e := StepB(Write(|s.b.phase.buf|, true));
      RunSnoc(s, events, s', e);
      StepKeepsGood(s', e);
      events, s' := events + [e], Step(s', e);
    }
    if s'.b.taken < |s'.proxy.sent| {
      var e1 := StepB(Read(|s'.proxy.sent| - s'.b.taken));
      RunSnoc(s, events, s', e1);
      StepKeepsGood(s', e1);
      events, s' := events + [e1], Step(s', e1);
      var e2 := StepB(Write(|s'.b.phase.buf|, true));
      RunSnoc(s, events, s', e2);
      StepKeepsGood(s', e2);
      events, s' := events + [e2], Step(s', e2);
    }
    assert s'.proxy.sent[..|s'.proxy.sent|] == s'.proxy.sent;
  }

  /**
   * Copying can end at any point, by end of file, error or panic. The end of a leads to both
   * connections closed with nothing more delivered; the end of b leaves both as they are.
   */
  lemma PumpsCanEnd(s: Session) returns (closing: seq<Event>, closed: Session, other: Session)
    requires Good(s) && (s.a.phase.Reading? || s.a.phase.Writing?) && (s.b.phase.Reading? || s.b.phase.Writing?)
    ensures Run(s, closing, closed) && !closed.conn.open && !closed.proxy.open && closed.a.phase.Ended?
    ensures closed.conn.got == s.conn.got && closed.proxy.got == s.proxy.got
    ensures Run(s, [StepB(Stop)], other) && other.b.phase.Ended? && other.conn == s.conn && other.proxy == s.proxy && other.a == s.a
  {
    var stop := StepA(Stop);
    var s1 := Step(s, stop);
    StepKeepsGood(s, stop);
    ClosingCompletes(s1);
    RunSnoc(s, [], s, stop);
    RunSnoc(s, [] + [stop], s1, StepA(CloseNext));
    RunSnoc(s, [] + [stop] + [StepA(CloseNext)], Step(s1, StepA(CloseNext)), StepA(CloseNext));
    closing := [] + [stop] + [StepA(CloseNext)] + [StepA(CloseNext)];
    closed := Step(Step(s1, StepA(CloseNext)), StepA(CloseNext));
    other := Step(s, StepB(Stop));
    RunSnoc(s, [], s, StepB(Stop));
    assert [] + [StepB(Stop)] == [StepB(Stop)];
  }

  /** The peers can send at any time, and what they send is there to be read. */
  lemma PeersSend(s: Session, data: seq<byte>)
    ensures Enabled(s, ConnPeerSends(data)) && Step(s, ConnPeerSends(data)).conn.sent == s.conn.sent + data
    ensures Enabled(s, ProxyPeerSends(data)) && Step(s, ProxyPeerSends(data)).proxy.sent == s.proxy.sent + data
  {
  }

  /** A write that fails half-way delivers any part of what was read, the first bytes of it. */
  lemma WritesFailHalfway(s: Session, n: nat)
    requires Good(s) && s.a.phase.Writing? && n <= |s.a.phase.buf|
    ensures var e := StepA(Write(n, false));
            Enabled(s, e) && Step(s, e).proxy.got == s.proxy.got + s.a.phase.buf[..n] && Step(s, e).a.phase.ClosingSource?
  {
  }

  // ---- Independence of the two directions ---------------------------------------

  /** All that pump a reads or writes. */
  function ViewA(s: Session): (seq<byte>, bool, bool, seq<byte>, Pump) {
    (s.conn.sent, s.conn.open, s.proxy.open, s.proxy.got, s.a)
  }

  function ViewB(s: Session): (seq<byte>, bool, bool, seq<byte>, Pump) {
    (s.proxy.sent, s.proxy.open, s.conn.open, s.conn.got, s.b)
  }

  predicate ConcernsA(e: Event) {
    e.StepA? || e.ConnPeerSends?
  }

  function OnlyA(events: seq<Event>): seq<Event> {
    if events == [] then []
    else if ConcernsA(events[0]) then [events[0]] + OnlyA(events[1..])
    else OnlyA(events[1..])
  }

  function OnlyB(events: seq<Event>): seq<Event> {
    if events == [] then []
    else if !ConcernsA(events[0]) then [events[0]] + OnlyB(events[1..])
    else OnlyB(events[1..])
  }

  /** Whatever b does, a and its side go through what they would go through without b. */
  lemma {:induction false} ClosingPumpUnaffected(s: Session, r: Session, events: seq<Event>, s': Session) returns (r': Session)
    requires Run(s, events, s') && ViewA(s) == ViewA(r)
    requires forall i | 0 <= i < |events| :: events[i].StepB? ==> !events[i].step.CloseNext?
    ensures Run(r, OnlyA(events), r') && ViewA(s') == ViewA(r')
    decreases events
  {
    if events == [] {
      r' := r;
    } else if ConcernsA(events[0]) {
      assert OnlyA(events)[1..] == OnlyA(events[1..]);
      r' := ClosingPumpUnaffected(Step(s, events[0]), Step(r, events[0]), events[1..], s');
    } else {
      r' := ClosingPumpUnaffected(Step(s, events[0]), r, events[1..], s');
    }
  }

  /** b never comes to a close step, so the condition above holds of every run. */
  lemma {:induction false} OtherPumpNeverCloses(s: Session, events: seq<Event>, s': Session)
    requires Good(s) && Run(s, events, s')
    ensures forall i | 0 <= i < |events| :: events[i].StepB? ==> !events[i].step.CloseNext?
    decreases events
  {
    if events != [] {
      StepKeepsGood(s, events[0]);
      OtherPumpNeverCloses(Step(s, events[0]), events[1..], s');
      forall i | 0 <= i < |events| ensures events[i].StepB? ==> !events[i].step.CloseNext? {
        assert i > 0 ==> events[i] == events[1..][i - 1];
      }
    }
  }

  /** Until a closes, b and its side go through what they would go through without a. */
  lemma {:induction false} OtherPumpUnaffected(s: Session, r: Session, events: seq<Event>, s': Session) returns (r': Session)
    requires Run(s, events, s') && ViewB(s) == ViewB(r)
    requires forall i | 0 <= i < |events| :: events[i].StepA? ==> !events[i].step.CloseNext?
    ensures Run(r, OnlyB(events), r') && ViewB(s') == ViewB(r')
    decreases events
  {
    if events == [] {
      r' := r;
    } else if ConcernsA(events[0]) {
      r' := OtherPumpUnaffected(Step(s, events[0]), r, events[1..], s');
    } else {
      assert OnlyB(events)[1..] == OnlyB(events[1..]);
      r' := OtherPumpUnaffected(Step(s, events[0]), Step(r, events[0]), events[1..], s');
    }
  }
}
