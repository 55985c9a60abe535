/** Creating a connection in another network namespace, on a locked OS thread. */
module NetNs {
  import opened Wrappers

  datatype Error = Nil | Disabled | OpenFailed | SetFailed

  /** Opening the thread's own namespace file; Missing means that namespaces are disabled. */
  datatype NsFile = Opened | Missing | Unreadable

  /**
   * Where the goroutine on a thread is: Idle threads belong to the scheduler, a thread whose locked
   * goroutine has exited is Terminated.
   */
  datatype Phase =
    | Idle
    | Locked
    | Saved(handle: Option<int>)
    | Entered(original: int, asked: int)
    | Called(original: int, conn: Option<nat>)
    | Terminated

  datatype Thread = Thread(ns: int, phase: Phase)

  /**
   * open: connections not closed; handed: those returned to callers; results: what withNetNS returned;
   * calls: for each run of a callback, the namespace asked for and the one it ran in.
   */
  datatype State = State(threads: map<nat, Thread>, open: set<nat>, handed: set<nat>, results: seq<(Option<nat>, Error)>, calls: seq<(int, int)>)

  datatype Event =
    | Lock(t: nat)
    | OpenNs(t: nat, file: NsFile)
    | Enter(t: nat, fd: int, ok: bool)
    | Callback(t: nat, conn: Option<nat>)
    | Restore(t: nat, ok: bool)

  predicate Enabled(s: State, e: Event) {
    && e.t in s.threads
    && var phase := s.threads[e.t].phase;
    match e
    case Lock(_) => phase.Idle?
    case OpenNs(_, _) => phase.Locked?
    case Enter(_, _, _) => phase.Saved?
    case Callback(_, conn) => phase.Entered? && (conn.Some? ==> FreshConn(s, conn.value))
    case Restore(_, _) => phase.Called?
  }

  predicate FreshConn(s: State, c: nat) {
    c !in s.open && c !in s.handed
  }

  function Put(s: State, t: nat, ns: int, phase: Phase): State {
    s.(threads := s.threads[t := Thread(ns, phase)])
  }

  function Return(s: State, conn: Option<nat>, err: Error): State {
    s.(results := s.results + [(conn, err)])
  }

  function Step(s: State, e: Event): State
    requires Enabled(s, e)
  {
    var t, ns, phase := e.t, s.threads[e.t].ns, s.threads[e.t].phase;
    match e
    case Lock(_) => Put(s, t, ns, Locked)
    case OpenNs(_, Opened) => Put(s, t, ns, Saved(Some(ns)))
    case OpenNs(_, Missing) => Put(s, t, ns, Saved(None))
    case OpenNs(_, Unreadable) => Return(Put(s, t, ns, Idle), None, OpenFailed)
    case Enter(_, fd, ok) =>
      if phase.handle.None? then Return(Put(s, t, ns, Terminated), None, Disabled)
      else if !ok then Return(Put(s, t, ns, Terminated), None, SetFailed)
      else Put(s, t, fd, Entered(phase.handle.value, fd))
    case Callback(_, conn) =>
      Put(s.(open := if conn.Some? then s.open + {conn.value} else s.open, calls := s.calls + [(phase.asked, ns)]), t, ns, Called(phase.original, conn))
    case Restore(_, ok) =>
      var held := if phase.conn.Some? then {phase.conn.value} else {};
      if ok then Return(Put(s.(handed := s.handed + held), t, phase.original, Idle), phase.conn, Nil)
      else Return(Put(s.(open := s.open - held), t, ns, Terminated), None, SetFailed)
  }

  ghost predicate Run(s: State, events: seq<Event>, s': State)
    decreases events
  {
    if events == [] then s == s'
    else Enabled(s, events[0]) && Run(Step(s, events[0]), events[1..], s')
  }

  // ---- Safety of every interleaving -----------------------------------------

  /** home: the namespace each thread started in. */
  predicate AtHome(home: map<nat, int>, t: nat, thread: Thread) {
    && t in home
    && match thread.phase
       case Idle => thread.ns == home[t]
       case Locked => thread.ns == home[t]
       case Saved(original) => thread.ns == home[t] && (original.Some? ==> original.value == home[t])
       case Entered(original, asked) => original == home[t] && thread.ns == asked
       case Called(original, _) => original == home[t]
       case Terminated => true
  }

  predicate Holds(s: State, t: nat, c: nat) {
    t in s.threads && s.threads[t].phase.Called? && s.threads[t].phase.conn == Some(c)
  }

  /** The open connections are those handed out and those held by a run that still has to restore. */
  ghost predicate Accounted(s: State) {
    && s.handed <= s.open
    && (forall c | c in s.open :: c in s.handed || exists t :: Holds(s, t, c))
    && (forall t, c | Holds(s, t, c) :: c in s.open && c !in s.handed)
    && (forall t, t', c | Holds(s, t, c) && Holds(s, t', c) :: t == t')
    && (forall i | 0 <= i < |s.results| && s.results[i].0.Some? :: s.results[i].0.value in s.handed && s.results[i].1 == Nil)
  }

  ghost predicate Good(home: map<nat, int>, s: State) {
    && (forall t | t in s.threads :: AtHome(home, t, s.threads[t])) && Accounted(s)
    && (forall i | 0 <= i < |s.calls| :: s.calls[i].0 == s.calls[i].1)
  }

  lemma StepKeepsAccount(s: State, e: Event)
    requires Accounted(s) && Enabled(s, e)
    ensures Accounted(Step(s, e))
  {
    var s' := Step(s, e);
    forall t, c | t != e.t ensures Holds(s', t, c) <==> Holds(s, t, c) {
    }
    if e.Restore? && s.threads[e.t].phase.conn.Some? {
      assert Holds(s, e.t, s.threads[e.t].phase.conn.value);
    }
    forall c | c in s'.open ensures c in s'.handed || exists t :: Holds(s', t, c) {
      if e.Callback? && e.conn == Some(c) {
        assert Holds(s', e.t, c);
      } else if c !in s'.handed {
        var t :| Holds(s, t, c);
        assert Holds(s', t, c);
      }
    }
  }

  lemma {:induction false} RunKeepsGood(home: map<nat, int>, s: State, events: seq<Event>, s': State)
    requires Good(home, s) && Run(s, events, s')
    ensures Good(home, s')
    decreases events
  {
    if events != [] {
      StepKeepsAccount(s, events[0]);
      RunKeepsGood(home, Step(s, events[0]), events[1..], s');
    }
  }

  /**
   * For any number of interleaved runs and any outcomes of the system calls: a thread the scheduler
   * has back is in the namespace it started in, a connection is returned only with a nil error and
   * only after the restore, whatever was created and not returned is closed once no run holds it, and
   * every callback ran in the namespace that was asked for.
   */
  lemma NamespacesRestored(home: map<nat, int>, s: State, events: seq<Event>, s': State)
    requires s.open == {} && s.handed == {} && s.results == [] && s.calls == [] && Run(s, events, s')
    requires forall t | t in s.threads :: t in home && s.threads[t] == Thread(home[t], Idle)
    ensures forall t | t in s'.threads && s'.threads[t].phase.Idle? :: t in home && s'.threads[t].ns == home[t]
    ensures forall i | 0 <= i < |s'.results| && s'.results[i].0.Some? :: s'.results[i].0.value in s'.handed && s'.results[i].1 == Nil
    ensures (forall t | t in s'.threads :: !s'.threads[t].phase.Called?) ==> s'.open == s'.handed
    ensures forall i | 0 <= i < |s'.calls| :: s'.calls[i].0 == s'.calls[i].1
  {
    RunKeepsGood(home, s, events, s');
    if forall t | t in s'.threads :: !s'.threads[t].phase.Called? {
      forall c | c in s'.open ensures c in s'.handed {
        assert forall t :: !Holds(s', t, c);
      }
    }
  }

  // ---- withNetNS, step by step --------------------------------------------------

  /** The outcomes of the system calls and of the callback in one run. */
  datatype World = World(file: NsFile, enter: bool, conn: Option<nat>, restore: bool)

  class OsThread {
    var ns: int
    var locked: bool

    constructor (ns: int)
      ensures this.ns == ns && !locked
    {
      this.ns, locked := ns, false;
    }
  }

  /**
   * A goroutine that returns while the thread is still locked takes the thread with it; ranIn is the
   * namespace in which the callback ran.
   */
  method WithNetNS(thread: OsThread, fd: int, w: World) returns (conn: Option<nat>, err: Error, closed: bool, ranIn: Option<int>)
    requires !thread.locked
    modifies thread
    ensures !thread.locked ==> thread.ns == old(thread.ns)
    ensures ranIn == if w.file.Opened? && w.enter then Some(fd) else None
    ensures !thread.locked <==> w.file.Unreadable? || (w.file.Opened? && w.enter && w.restore)
    ensures err == Nil <==> w.file.Opened? && w.enter && w.restore
    ensures conn == (if err == Nil then w.conn else None)
    ensures closed <==> w.file.Opened? && w.enter && w.conn.Some? && !w.restore
    ensures err != Nil ==> err == match w.file { case Unreadable => OpenFailed case Missing => Disabled case Opened => SetFailed }
  {
    conn, closed, ranIn := None, false, None;
    thread.locked := true;
    if w.file.Unreadable? {
      thread.locked := false;
      return None, OpenFailed, false, ranIn;
    }
    var disabled := w.file.Missing?;
    var original := thread.ns;
    if disabled {
      return None, Disabled, false, ranIn;
    }
    if !w.enter {
      return None, SetFailed, false, ranIn;
    }
    thread.ns := fd;
    ranIn := Some(thread.ns);
    var c := w.conn;
    if !w.restore {
      if c.Some? {
        closed := true;
      }
      return None, SetFailed, closed, ranIn;
    }
    thread.ns := original;
    thread.locked := false;
    return c, Nil, false, ranIn;
  }

  /** The steps of one run, as far as it gets. */
  function RunEvents(t: nat, fd: int, w: World): seq<Event> {
    var inside := if w.enter then [Callback(t, w.conn)] + [Restore(t, w.restore)] else [];
    [Lock(t)] + ([OpenNs(t, w.file)] +
      (if w.file.Unreadable? then [] else [Enter(t, fd, w.enter)] + if w.file.Opened? then inside else []))
  }

  lemma RunCons(s: State, e: Event, rest: seq<Event>, s': State)
    requires Enabled(s, e) && Run(Step(s, e), rest, s')
    ensures Run(s, [e] + rest, s')
  {
    assert ([e] + rest)[1..] == rest;
  }

  /**
   * The interleaved model runs the same steps: a run on its own leaves the thread, the connections and
   * the results that the method's contract describes. In particular a nil error comes without a
   * connection exactly when the callback failed and the namespace was restored.
   */
  lemma RunOnItsOwn(s: State, t: nat, fd: int, w: World) returns (s': State)
    requires t in s.threads && s.threads[t].phase.Idle?
    requires w.conn.Some? ==> FreshConn(s, w.conn.value)
    ensures Run(s, RunEvents(t, fd, w), s')
    ensures |s'.results| == |s.results| + 1 && t in s'.threads
    ensures var (conn, err) := s'.results[|s.results|];
            && (s'.threads[t].phase.Idle? <==> w.file.Unreadable? || (w.file.Opened? && w.enter && w.restore))
            && (err == Nil <==> w.file.Opened? && w.enter && w.restore)
            && conn == (if err == Nil then w.conn else None)
            && (err != Nil ==> err == match w.file { case Unreadable => OpenFailed case Missing => Disabled case Opened => SetFailed })
            && s'.calls == s.calls + (if w.file.Opened? && w.enter then [(fd, fd)] else [])
            && (err == Nil && conn == None <==> w == World(Opened, true, None, true))
            && s'.open == s.open + (if err == Nil && w.conn.Some? then {w.conn.value} else {})
  {
    var s1 := Step(s, Lock(t));
    var s2 := Step(s1, OpenNs(t, w.file));
    s' := s2;
    var rest := [];
    if !w.file.Unreadable? {
      var s3 := Step(s2, Enter(t, fd, w.enter));
      s' := s3;
      if w.file.Opened? && w.enter {
        var s4 := Step(s3, Callback(t, w.conn));
        s' := Step(s4, Restore(t, w.restore));
        RunCons(s4, Restore(t, w.restore), [], s');
        assert [Restore(t, w.restore)] + [] == [Restore(t, w.restore)];
        rest := [Callback(t, w.conn)] + [Restore(t, w.restore)];
        RunCons(s3, Callback(t, w.conn), [Restore(t, w.restore)], s');
      }
      RunCons(s2, Enter(t, fd, w.enter), rest, s');
      rest := [Enter(t, fd, w.enter)] + rest;
    }
    RunCons(s1, OpenNs(t, w.file), rest, s');
    RunCons(s, Lock(t), [OpenNs(t, w.file)] + rest, s');
  }
}
