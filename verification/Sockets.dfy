/** The retry engine of the non-blocking socket connection and the operations built on it. */
module Sockets {
  import opened Wrappers

  type byte = bv8
  type uint32 = x: int | 0 <= x < TWO_TO_THE_32

  const TWO_TO_THE_32: int := 0x1_0000_0000
  const MAX_RW: int := 0x4000_0000

  /** Go errors; a system call's errno may be wrapped in an os.SyscallError. */
  datatype Error =
    | Nil
    | Errno(code: int)
    | Syscall(op: string, cause: Error)
    | Canceled
    | DeadlineExceeded
    | EOF
    | UnexpectedEOF
    | FileClosing

  const EINTR := Errno(4)
  const EBADF := Errno(9)
  const EAGAIN := Errno(11)
  const EISCONN := Errno(106)
  const EINPROGRESS := Errno(115)

  type ContextError = e: Error | e == Nil || IsContextError(e) witness Nil

  predicate IsContextError(e: Error) {
    e == Canceled || e == DeadlineExceeded
  }

  function NewSyscallError(op: string, e: Error): Error {
    if e == Nil then Nil else Syscall(op, e)
  }

  predicate Ready(e: Error) {
    e != EAGAIN && e != EINPROGRESS && e != EINTR
  }

  // ---- Read and write: one closure, run until it is ready ------------------

  /**
   * What the world does in one turn of the poller: ctx is what the select sees, input is what the
   * system calls of the closure see, wait is the error of waiting for the next turn.
   */
  datatype Turn<+R> = Turn(ctx: ContextError, input: R, wait: Error)

  /** A run that the world has driven so far: prepare may fail before the first turn. */
  datatype Script<+R> = Script(prepare: Error, turns: seq<Turn<R>>, ctxAtEnd: ContextError)

  datatype Loop<+S> = Waiting(state: S) | Stopped(state: S, ctx: Error, err: Error)

  datatype Outcome<+S> = Blocked(state: S) | Returned(state: S, err: Error)

  /**
   * A closure with captured variables S. A context error it returns is taken to have been read from the
   * context, as in Connect; the other closures return errors of system calls only.
   */
  type Closure<!S, !R> = (S, R) -> (S, Error)

  function RawLoop<S, R>(f: Closure<S, R>, s: S, ctx: Error, turns: seq<Turn<R>>): Loop<S> {
    if turns == [] then Waiting(s)
    else
      var turn := turns[0];
      var seen := if ctx != Nil then ctx else turn.ctx;
      var (s', e) := if seen != Nil then (s, seen) else f(s, turn.input);
      var after := if seen == Nil && IsContextError(e) then e else seen;
      if Ready(e) then Stopped(s', after, Nil)
      else if turn.wait != Nil then Stopped(s', after, turn.wait)
      else RawLoop(f, s', after, turns[1..])
  }

  function Operate<S, R>(closed: uint32, op: string, f: Closure<S, R>, s: S, script: Script<R>): Outcome<S> {
    if closed != 0 then Returned(s, Syscall(op, EBADF))
    else
      var loop := if script.prepare != Nil then Stopped(s, Nil, script.prepare) else RawLoop(f, s, Nil, script.turns);
      if loop.Waiting? then Blocked(loop.state)
      else
        var ctx := if loop.ctx != Nil then loop.ctx else script.ctxAtEnd;
        Returned(loop.state, if ctx != Nil then ctx else loop.err)
  }

  class Conn {
    var closed: uint32
    const isStream: bool
    const zeroReadIsEOF: bool

    constructor (isStream: bool, zeroReadIsEOF: bool)
      ensures closed == 0 && this.isStream == isStream && this.zeroReadIsEOF == zeroReadIsEOF
    {
      closed := 0;
      this.isStream, this.zeroReadIsEOF := isStream, zeroReadIsEOF;
    }

    /** The bodies of read and write, which differ only in the poller they wait on. */
    method Run<S, R>(op: string, f: Closure<S, R>, s: S, script: Script<R>) returns (outcome: Outcome<S>)
      ensures outcome == Operate(closed, op, f, s, script)
    {
      if closed != 0 {
        return Returned(s, NewSyscallError(op, EBADF));
      }
      var state, ctx, err := s, Nil, script.prepare;
      if err == Nil {
        var i := 0;
        var done := false;
        while !done
          invariant i <= |script.turns|
          invariant !done ==> err == Nil && RawLoop(f, s, Nil, script.turns) == RawLoop(f, state, ctx, script.turns[i..])
          invariant done ==> RawLoop(f, s, Nil, script.turns) == Stopped(state, ctx, err)
          decreases |script.turns| - i, !done
        {
          if i == |script.turns| {
            return Blocked(state);
          }
          var turn := script.turns[i];
          assert script.turns[i..][1..] == script.turns[i + 1..];
          if ctx == Nil {
            ctx := turn.ctx;
          }
          var result := ctx;
          if ctx == Nil {
            var (state', e) := f(state, turn.input);
            state, result := state', e;
            if IsContextError(e) {
              ctx := e;
            }
          }
          if Ready(result) {
            done := true;
          } else {
            err := turn.wait;
            done := err != Nil;
          }
          i := i + 1;
        }
      }
      if ctx == Nil {
        ctx := script.ctxAtEnd;
      }
      if ctx != Nil {
        return Returned(state, ctx);
      }
      return Returned(state, err);
    }

    method WriteContext(b: seq<byte>, script: Script<SysWrite>) returns (outcome: Outcome<WriteState>, n: int, err: Error)
      ensures (outcome, n, err) == WriteRun(closed, isStream, b, script)
    {
      outcome := Run("write", WriteStep(isStream), NewWrite(b), script);
      if outcome.Blocked? {
        return outcome, 0, Nil;
      }
      if outcome.err != Nil {
        return outcome, 0, outcome.err;
      }
      return outcome, outcome.state.nn, NewSyscallError("write", outcome.state.err);
    }

    method ReadContext(b: array<byte>, script: Script<SysRead>) returns (outcome: Outcome<ReadState>, n: int, err: Error)
      modifies b
      ensures (outcome, n, err) == ReadRun(closed, isStream, zeroReadIsEOF, old(b[..]), script)
      ensures b[..] == outcome.state.buffer
    {
      var length := b.Length;
      if isStream && length > MAX_RW {
        length := MAX_RW;
      }
      assert length == ReadLength(isStream, |b[..]|);
      outcome := Run("read", ReadStep(length), NewRead(b[..]), script);
      ReadKeepsLength(closed, length, b[..], script);
      forall i | 0 <= i < b.Length {
        b[i] := outcome.state.buffer[i];
      }
      if outcome.Blocked? {
        return outcome, 0, Nil;
      }
      if outcome.err != Nil {
        return outcome, 0, outcome.err;
      }
      if ReadCount(outcome.state.got) == 0 && outcome.state.got.err == Nil && zeroReadIsEOF {
        return outcome, 0, EOF;
      }
      return outcome, ReadCount(outcome.state.got), NewSyscallError("read", outcome.state.got.err);
    }

    method Connect(script: Script<ConnectTurn>) returns (outcome: Outcome<ConnectState>, rsa: Option<Addr>, err: Error)
      ensures (outcome, rsa, err) == ConnectRun(closed, script)
    {
      outcome := Run("connect", ConnectClosure, NEW_CONNECT, script);
      if outcome.Blocked? {
        return outcome, None, Nil;
      }
      if outcome.err != Nil {
        return outcome, None, outcome.err;
      }
      if outcome.state.err == EISCONN {
        return outcome, outcome.state.rsa, Nil;
      }
      return outcome, outcome.state.rsa, NewSyscallError("connect", outcome.state.err);
    }

    /** closeFile says whether the file's own close is called, fileErr what that returns. */
    method Close(fileErr: Error) returns (closeFile: bool, err: Error)
      modifies this
      ensures closed == (old(closed) + 1) % TWO_TO_THE_32
      ensures closeFile <==> closed == 1
      ensures err == if closeFile then NewSyscallError("close", fileErr) else Nil
    {
      closed := (closed + 1) % TWO_TO_THE_32;
      if closed != 1 {
        return false, Nil;
      }
      return true, NewSyscallError("close", fileErr);
    }
  }

  // ---- The engine's contract, for every closure -------------------------------

  /** The captured variables after the closure ran for the first i turns. */
  function StateAt<S, R>(f: Closure<S, R>, s: S, turns: seq<Turn<R>>, i: nat): S
    requires i <= |turns|
  {
    if i == 0 then s else StateAt(f, f(s, turns[0].input).0, turns[1..], i - 1)
  }

  function ResultAt<S, R>(f: Closure<S, R>, s: S, turns: seq<Turn<R>>, i: nat): Error
    requires i < |turns|
  {
    f(StateAt(f, s, turns, i), turns[i].input).1
  }

  /** The first k turns are live and end in a retryable error after which waiting works. */
  ghost predicate Retries<S, R>(f: Closure<S, R>, s: S, turns: seq<Turn<R>>, k: nat)
    requires k <= |turns|
  {
    forall i: nat | i < k :: turns[i].ctx == Nil && turns[i].wait == Nil && !Ready(ResultAt(f, s, turns, i))
  }

  /** Turn k is the first whose closure result is not retryable, and the context was live up to it. */
  ghost predicate Finishes<S, R>(f: Closure<S, R>, s: S, turns: seq<Turn<R>>, k: nat) {
    && k < |turns| && Retries(f, s, turns, k) && turns[k].ctx == Nil
    && Ready(ResultAt(f, s, turns, k)) && !IsContextError(ResultAt(f, s, turns, k))
  }

  /** The connection is open, the poller takes it, and the context outlives the call. */
  predicate Undisturbed<R>(closed: uint32, script: Script<R>) {
    closed == 0 && script.prepare == Nil && script.ctxAtEnd == Nil
  }

  lemma RetriesShift<S, R>(f: Closure<S, R>, s: S, turns: seq<Turn<R>>, k: nat)
    requires k < |turns|
    ensures Retries(f, s, turns, k + 1) <==>
            turns[0].ctx == Nil && turns[0].wait == Nil && !Ready(f(s, turns[0].input).1)
            && Retries(f, f(s, turns[0].input).0, turns[1..], k)
  {
    var s', rest := f(s, turns[0].input).0, turns[1..];
    assert ResultAt(f, s, turns, 0) == f(s, turns[0].input).1;
    forall i: nat | i < k ensures rest[i] == turns[i + 1] && ResultAt(f, s', rest, i) == ResultAt(f, s, turns, i + 1) {
    }
    if Retries(f, s, turns, k + 1) {
      forall i: nat | i < k ensures rest[i].ctx == Nil && rest[i].wait == Nil && !Ready(ResultAt(f, s', rest, i)) {
        assert turns[i + 1].ctx == Nil;
      }
    }
    if turns[0].ctx == Nil && turns[0].wait == Nil && !Ready(f(s, turns[0].input).1) && Retries(f, s', rest, k) {
      forall i: nat | i < k + 1 ensures turns[i].ctx == Nil && turns[i].wait == Nil && !Ready(ResultAt(f, s, turns, i)) {
        if i > 0 {
          assert rest[i - 1].ctx == Nil && ResultAt(f, s', rest, i - 1) == ResultAt(f, s, turns, i);
        }
      }
    }
  }

  lemma FinishesShift<S, R>(f: Closure<S, R>, s: S, turns: seq<Turn<R>>, k: nat)
    requires 0 < k < |turns|
    ensures Finishes(f, s, turns, k) <==>
            turns[0].ctx == Nil && turns[0].wait == Nil && !Ready(f(s, turns[0].input).1)
            && Finishes(f, f(s, turns[0].input).0, turns[1..], k - 1)
    ensures StateAt(f, s, turns, k + 1) == StateAt(f, f(s, turns[0].input).0, turns[1..], k)
  {
    RetriesShift(f, s, turns, k - 1);
    assert turns[1..][k - 1] == turns[k];
    assert ResultAt(f, f(s, turns[0].input).0, turns[1..], k - 1) == ResultAt(f, s, turns, k);
  }

  lemma StateAtOne<S, R>(f: Closure<S, R>, s: S, turns: seq<Turn<R>>)
    requires turns != []
    ensures StateAt(f, s, turns, 1) == f(s, turns[0].input).0
    ensures ResultAt(f, s, turns, 0) == f(s, turns[0].input).1
  {
    assert StateAt(f, f(s, turns[0].input).0, turns[1..], 0) == f(s, turns[0].input).0;
  }

  lemma {:induction false} LoopFinishes<S, R>(f: Closure<S, R>, s: S, turns: seq<Turn<R>>, k: nat)
    requires Finishes(f, s, turns, k)
    ensures RawLoop(f, s, Nil, turns) == Stopped(StateAt(f, s, turns, k + 1), Nil, Nil)
    decreases k
  {
    StateAtOne(f, s, turns);
    if k == 0 {
      assert ResultAt(f, s, turns, 0) == f(s, turns[0].input).1;
    } else {
      FinishesShift(f, s, turns, k);
      LoopFinishes(f, f(s, turns[0].input).0, turns[1..], k - 1);
    }
  }

  lemma {:induction false} LoopFinished<S, R>(f: Closure<S, R>, s: S, turns: seq<Turn<R>>) returns (k: nat)
    requires RawLoop(f, s, Nil, turns).Stopped? && RawLoop(f, s, Nil, turns).ctx == Nil && RawLoop(f, s, Nil, turns).err == Nil
    ensures Finishes(f, s, turns, k)
    ensures RawLoop(f, s, Nil, turns).state == StateAt(f, s, turns, k + 1)
  {
    StateAtOne(f, s, turns);
    var (s', e) := f(s, turns[0].input);
    if Ready(e) {
      k := 0;
    } else {
      var j := LoopFinished(f, s', turns[1..]);
      k := j + 1;
      FinishesShift(f, s, turns, k);
    }
  }

  /**
   * For every closure whose context errors come from the context: read and write return nil exactly
   * when the connection was open, the poller never failed, the
   * context was live from start to end, and some turn ended the retries; what the closure captured
   * is then what running it on every turn up to that one leaves.
   */
  lemma OperateReturnsNil<S, R>(closed: uint32, op: string, f: Closure<S, R>, s: S, script: Script<R>, t: S)
    ensures Operate(closed, op, f, s, script) == Returned(t, Nil) <==>
            && Undisturbed(closed, script)
            && exists k: nat :: Finishes(f, s, script.turns, k) && t == StateAt(f, s, script.turns, k + 1)
  {
    if Operate(closed, op, f, s, script) == Returned(t, Nil) {
      var k := LoopFinished(f, s, script.turns);
    }
    if k: nat :| Undisturbed(closed, script) && Finishes(f, s, script.turns, k) && t == StateAt(f, s, script.turns, k + 1) {
      LoopFinishes(f, s, script.turns, k);
    }
  }

  lemma {:induction false} LoopWaiting<S, R>(f: Closure<S, R>, s: S, turns: seq<Turn<R>>)
    ensures RawLoop(f, s, Nil, turns).Waiting? <==> Retries(f, s, turns, |turns|)
    ensures Retries(f, s, turns, |turns|) ==> RawLoop(f, s, Nil, turns) == Waiting(StateAt(f, s, turns, |turns|))
  {
    if turns != [] {
      var (s', e) := f(s, turns[0].input);
      RetriesShift(f, s, turns, |turns| - 1);
      LoopWaiting(f, s', turns[1..]);
    }
  }

  /** The call is still blocked exactly when every turn so far was live and retryable. */
  lemma OperateBlocks<S, R>(closed: uint32, op: string, f: Closure<S, R>, s: S, script: Script<R>)
    ensures Operate(closed, op, f, s, script).Blocked? <==>
            closed == 0 && script.prepare == Nil && Retries(f, s, script.turns, |script.turns|)
  {
    LoopWaiting(f, s, script.turns);
  }

  lemma {:induction false} LoopState<S, R>(f: Closure<S, R>, s: S, turns: seq<Turn<R>>) returns (k: nat)
    ensures k <= |turns| && RawLoop(f, s, Nil, turns).state == StateAt(f, s, turns, k)
    ensures forall i: nat | i < k :: turns[i].ctx == Nil
    ensures forall i: nat | i + 1 < k :: !Ready(ResultAt(f, s, turns, i))
  {
    if turns == [] || turns[0].ctx != Nil {
      k := 0;
    } else {
      StateAtOne(f, s, turns);
      var (s', e) := f(s, turns[0].input);
      if Ready(e) || turns[0].wait != Nil {
        k := 1;
      } else {
        var j := LoopState(f, s', turns[1..]);
        k := j + 1;
        forall i: nat | i < k ensures turns[i].ctx == Nil {
          assert i > 0 ==> turns[i] == turns[1..][i - 1];
        }
        forall i: nat | i + 1 < k ensures !Ready(ResultAt(f, s, turns, i)) {
          assert i > 0 ==> ResultAt(f, s, turns, i) == ResultAt(f, s', turns[1..], i - 1);
        }
      }
    }
  }

  /**
   * However a call ends, the closure ran on a live prefix of the turns, only its last run may have
   * been ready, and it never ran at all on a connection already marked closed.
   */
  lemma OperateState<S, R>(closed: uint32, op: string, f: Closure<S, R>, s: S, script: Script<R>) returns (k: nat)
    ensures k <= |script.turns| && Operate(closed, op, f, s, script).state == StateAt(f, s, script.turns, k)
    ensures forall i: nat | i < k :: script.turns[i].ctx == Nil
    ensures forall i: nat | i + 1 < k :: !Ready(ResultAt(f, s, script.turns, i))
    ensures closed != 0 ==> k == 0 && Operate(closed, op, f, s, script) == Returned(s, Syscall(op, Errno(9)))
  {
    if closed != 0 || script.prepare != Nil {
      k := 0;
    } else {
      k := LoopState(f, s, script.turns);
    }
  }

  lemma {:induction false} StateAtNext<S, R>(f: Closure<S, R>, s: S, turns: seq<Turn<R>>, k: nat)
    requires k < |turns|
    ensures StateAt(f, s, turns, k + 1) == f(StateAt(f, s, turns, k), turns[k].input).0
    decreases k
  {
    if k > 0 {
      StateAtNext(f, f(s, turns[0].input).0, turns[1..], k - 1);
    } else {
      StateAtOne(f, s, turns);
    }
  }

  // ---- Which error the engine returns -------------------------------------------

  /** The turn at which the retries end, for whatever reason. */
  ghost predicate Stops<S, R>(f: Closure<S, R>, s: S, turns: seq<Turn<R>>, k: nat) {
    && k < |turns| && Retries(f, s, turns, k)
    && (turns[k].ctx != Nil || Ready(ResultAt(f, s, turns, k)) || turns[k].wait != Nil)
  }

  /** The context's error, if that turn saw one; else the one at the end; else the poller's, if it ended the wait. */
  function StopError(ctx: Error, result: Error, wait: Error, ctxAtEnd: Error): Error {
    if ctx != Nil then ctx
    else if IsContextError(result) then result
    else if ctxAtEnd != Nil then ctxAtEnd
    else if Ready(result) then Nil
    else wait
  }

  ghost predicate StopsWith<S, R>(f: Closure<S, R>, s: S, script: Script<R>, k: nat, e: Error) {
    && Stops(f, s, script.turns, k)
    && e == StopError(script.turns[k].ctx, ResultAt(f, s, script.turns, k), script.turns[k].wait, script.ctxAtEnd)
  }

  function LoopError<S>(loop: Loop<S>, ctxAtEnd: Error): Error
    requires loop.Stopped?
  {
    if loop.ctx != Nil then loop.ctx else if ctxAtEnd != Nil then ctxAtEnd else loop.err
  }

  lemma {:induction false} LoopStops<S, R>(f: Closure<S, R>, s: S, turns: seq<Turn<R>>, k: nat, ctxAtEnd: Error)
    requires Stops(f, s, turns, k)
    ensures RawLoop(f, s, Nil, turns).Stopped?
    ensures LoopError(RawLoop(f, s, Nil, turns), ctxAtEnd) == StopError(turns[k].ctx, ResultAt(f, s, turns, k), turns[k].wait, ctxAtEnd)
    decreases k
  {
    StateAtOne(f, s, turns);
    if k > 0 {
      RetriesShift(f, s, turns, k - 1);
      var s', rest := f(s, turns[0].input).0, turns[1..];
      assert ResultAt(f, s', rest, k - 1) == ResultAt(f, s, turns, k) && rest[k - 1] == turns[k];
      assert turns[0].ctx == Nil && turns[0].wait == Nil && !Ready(ResultAt(f, s, turns, 0));
      LoopStops(f, s', rest, k - 1, ctxAtEnd);
    }
  }

  lemma {:induction false} LoopStopped<S, R>(f: Closure<S, R>, s: S, turns: seq<Turn<R>>) returns (k: nat)
    requires RawLoop(f, s, Nil, turns).Stopped?
    ensures Stops(f, s, turns, k)
  {
    StateAtOne(f, s, turns);
    if turns[0].ctx != Nil || Ready(ResultAt(f, s, turns, 0)) || turns[0].wait != Nil {
      k := 0;
    } else {
      var s', rest := f(s, turns[0].input).0, turns[1..];
      var j := LoopStopped(f, s', rest);
      k := j + 1;
      RetriesShift(f, s, turns, j);
      assert ResultAt(f, s', rest, j) == ResultAt(f, s, turns, k) && rest[j] == turns[k];
    }
  }

  /**
   * An error e comes back exactly when the connection was closed, and it is EBADF; or the poller would
   * not take the call; or the turn that ends the retries says so. A context error goes before the
   * poller's.
   */
  lemma OperateFails<S, R>(closed: uint32, op: string, f: Closure<S, R>, s: S, script: Script<R>, e: Error)
    requires e != Nil
    ensures (Operate(closed, op, f, s, script).Returned? && Operate(closed, op, f, s, script).err == e) <==>
            if closed != 0 then e == Syscall(op, Errno(9))
            else if script.prepare != Nil then e == if script.ctxAtEnd != Nil then script.ctxAtEnd else script.prepare
            else exists k: nat :: StopsWith(f, s, script, k, e)
  {
    if closed == 0 && script.prepare == Nil {
      if RawLoop(f, s, Nil, script.turns).Stopped? {
        var k := LoopStopped(f, s, script.turns);
        LoopStops(f, s, script.turns, k, script.ctxAtEnd);
        assert Operate(closed, op, f, s, script).err == e ==> StopsWith(f, s, script, k, e);
      }
      if k: nat :| StopsWith(f, s, script, k, e) {
        LoopStops(f, s, script.turns, k, script.ctxAtEnd);
      }
    }
  }

  /** The poller has no end-of-file error of its own. */
  predicate PollerWithoutEof<R>(script: Script<R>) {
    script.prepare != EOF && forall i | 0 <= i < |script.turns| :: script.turns[i].wait != EOF
  }

  lemma {:induction false} LoopWithoutEof<S, R>(f: Closure<S, R>, s: S, ctx: ContextError, turns: seq<Turn<R>>)
    requires forall i | 0 <= i < |turns| :: turns[i].wait != EOF
    ensures var loop := RawLoop(f, s, ctx, turns);
            loop.Stopped? ==> loop.err != EOF && loop.ctx != EOF
    decreases turns
  {
    if turns != [] {
      var turn := turns[0];
      var seen := if ctx != Nil then ctx else turn.ctx;
      var (s', r) := if seen != Nil then (s, seen) else f(s, turn.input);
      LoopWithoutEof(f, s', if seen == Nil && IsContextError(r) then r else seen, turns[1..]);
    }
  }

  lemma OperateWithoutEof<S, R>(closed: uint32, op: string, f: Closure<S, R>, s: S, script: Script<R>)
    requires PollerWithoutEof(script)
    ensures var o := Operate(closed, op, f, s, script); o.Returned? ==> o.err != EOF
  {
    LoopWithoutEof(f, s, Nil, script.turns);
  }

  // ---- readErr and writeErr ------------------------------------------------------

  /** What the wrapper captures (err, never assigned) and what the system call last answered. */
  datatype Captured = Captured(err: Error, last: Error)

  function ForwardStep(): Closure<Captured, Error> {
    (s: Captured, r: Error) => (s.(last := r), r)
  }

  function WriteErr(closed: uint32, op: string, script: Script<Error>): Outcome<Captured> {
    var o := Operate(closed, op, ForwardStep(), Captured(Nil, Nil), script);
    if o.Blocked? || o.err != Nil then o else Returned(o.state, NewSyscallError(op, o.state.err))
  }

  lemma {:induction false} ForwardState(turns: seq<Turn<Error>>, s: Captured, k: nat)
    requires k < |turns|
    ensures StateAt(ForwardStep(), s, turns, k + 1) == Captured(s.err, turns[k].input)
    ensures ResultAt(ForwardStep(), s, turns, k) == turns[k].input
  {
    StateAtNext(ForwardStep(), s, turns, k);
    if k > 0 {
      ForwardState(turns, s, k - 1);
    }
  }

  /** The errors that send a call back to waiting are EINTR, EAGAIN and EINPROGRESS and no others. */
  lemma RetryableErrors(op: string, e: Error)
    ensures Operate(0, op, ForwardStep(), Captured(Nil, Nil), Script(Nil, [Turn(Nil, e, Nil)], Nil)).Blocked?
            <==> e == Errno(4) || e == Errno(11) || e == Errno(115)
  {
    var script := Script(Nil, [Turn(Nil, e, Nil)], Nil);
    StateAtOne(ForwardStep(), Captured(Nil, Nil), script.turns);
    OperateBlocks(0, op, ForwardStep(), Captured(Nil, Nil), script);
    assert ResultAt(ForwardStep(), Captured(Nil, Nil), script.turns, 0) == e;
  }

  /**
   * writeErr promises to capture the system call's error and does not: it returns nil exactly when
   * the retries ended on a live context, whatever the final answer was.
   */
  lemma WriteErrReturnsNil(closed: uint32, op: string, script: Script<Error>, last: Error)
    ensures WriteErr(closed, op, script) == Returned(Captured(Nil, last), Nil) <==>
            && Undisturbed(closed, script)
            && exists k: nat :: Finishes(ForwardStep(), Captured(Nil, Nil), script.turns, k) && last == script.turns[k].input
  {
    var s := Captured(Nil, Nil);
    var o := Operate(closed, op, ForwardStep(), s, script);
    OperateReturnsNil(closed, op, ForwardStep(), s, script, Captured(Nil, last));
    if o.Returned? && o.err == Nil {
      OperateReturnsNil(closed, op, ForwardStep(), s, script, o.state);
      var k: nat :| Finishes(ForwardStep(), s, script.turns, k) && o.state == StateAt(ForwardStep(), s, script.turns, k + 1);
      ForwardState(script.turns, s, k);
    }
    if k: nat :| Finishes(ForwardStep(), s, script.turns, k) && last == script.turns[k].input {
      ForwardState(script.turns, s, k);
    }
  }

  /** The system call that ends the retries fails. */
  ghost predicate FailsForGood(script: Script<Error>) {
    exists k: nat :: Finishes(ForwardStep(), Captured(Nil, Nil), script.turns, k) && script.turns[k].input != Nil
  }

  /**
   * Nil means that the last system call succeeded exactly when the retries do not end, on an open
   * connection and a live context, in a permanent failure of it.
   */
  lemma WriteErrTruthful(closed: uint32, op: string, script: Script<Error>)
    ensures var o := WriteErr(closed, op, script);
            (o.Returned? && o.err == Nil ==> o.state.last == Nil) <==> !(Undisturbed(closed, script) && FailsForGood(script))
  {
    var s := Captured(Nil, Nil);
    var o := WriteErr(closed, op, script);
    if Undisturbed(closed, script) && FailsForGood(script) {
      var k: nat :| Finishes(ForwardStep(), s, script.turns, k) && script.turns[k].input != Nil;
      WriteErrReturnsNil(closed, op, script, script.turns[k].input);
    }
    if o.Returned? && o.err == Nil && o.state.last != Nil {
      ForwardKeepsErr(closed, op, script);
      WriteErrReturnsNil(closed, op, script, o.state.last);
    }
  }

  /** The captured error is never assigned. */
  lemma ForwardKeepsErr(closed: uint32, op: string, script: Script<Error>)
    ensures WriteErr(closed, op, script).state.err == Nil
  {
    var k := OperateState(closed, op, ForwardStep(), Captured(Nil, Nil), script);
    if k > 0 {
      ForwardState(script.turns, Captured(Nil, Nil), k - 1);
    }
  }

  /** So a send that fails for good at once is reported as a success, whatever the errno. */
  lemma SendFailureUnreported(op: string, e: Error)
    requires Ready(e) && !IsContextError(e)
    ensures WriteErr(0, op, Script(Nil, [Turn(Nil, e, Nil)], Nil)) == Returned(Captured(Nil, e), Nil)
  {
    var script := Script(Nil, [Turn(Nil, e, Nil)], Nil);
    StateAtOne(ForwardStep(), Captured(Nil, Nil), script.turns);
    assert Finishes(ForwardStep(), Captured(Nil, Nil), script.turns, 0);
    WriteErrReturnsNil(0, op, script, e);
  }

  // ---- control and controlErr -------------------------------------------------------

  /** One pass of the loop inside control: the context is checked, then the system call is made. */
  datatype Attempt = Attempt(ctx: ContextError, result: Error)

  /** Err is the captured error; a run that has not ended yet is still looping. */
  datatype ControlOutcome = Looping(err: Error) | Ended(err: Error, cerr: Error)

  function ControlLoop(err: Error, attempts: seq<Attempt>): ControlOutcome
    decreases attempts
  {
    if attempts == [] then Looping(err)
    else if attempts[0].ctx != Nil then Ended(err, attempts[0].ctx)
    else if Ready(attempts[0].result) then Ended(attempts[0].result, Nil)
    else ControlLoop(attempts[0].result, attempts[1..])
  }

  /** None: still looping. The attach error is the poller's own, raised before the loop starts. */
  function ControlErr(closed: uint32, op: string, attach: Error, attempts: seq<Attempt>): Option<Error> {
    if closed != 0 then Some(Syscall(op, EBADF))
    else if attach != Nil then Some(attach)
    else
      match ControlLoop(Nil, attempts)
      case Looping(_) => None
      case Ended(err, cerr) => Some(if cerr != Nil then cerr else NewSyscallError(op, err))
  }

  method RunControlErr(c: Conn, op: string, attach: Error, attempts: seq<Attempt>) returns (outcome: Option<Error>)
    ensures outcome == ControlErr(c.closed, op, attach, attempts)
  {
    if c.closed != 0 {
      return Some(NewSyscallError(op, EBADF));
    }
    var err, cerr, doErr := Nil, Nil, attach;
    if doErr == Nil {
      var i := 0;
      while true
        invariant i <= |attempts| && cerr == Nil
        invariant ControlLoop(Nil, attempts) == ControlLoop(err, attempts[i..])
        decreases |attempts| - i
      {
        if i == |attempts| {
          return None;
        }
        var attempt := attempts[i];
        assert attempts[i..][1..] == attempts[i + 1..];
        if attempt.ctx != Nil {
          cerr := attempt.ctx;
          break;
        }
        err := attempt.result;
        if Ready(err) {
          break;
        }
        i := i + 1;
      }
      assert ControlLoop(Nil, attempts) == Ended(err, cerr);
    }
    if cerr != Nil {
      doErr := cerr;
    }
    if doErr != Nil {
      return Some(doErr);
    }
    return Some(NewSyscallError(op, err));
  }

  /** The first k attempts were live and retryable. */
  predicate Retrying(attempts: seq<Attempt>, k: nat)
    requires k <= |attempts|
  {
    forall i | 0 <= i < k :: attempts[i].ctx == Nil && !Ready(attempts[i].result)
  }

  lemma {:induction false} ControlLoopEnds(err: Error, attempts: seq<Attempt>, k: nat)
    requires k < |attempts| && Retrying(attempts, k)
    requires attempts[k].ctx != Nil || Ready(attempts[k].result)
    ensures attempts[k].ctx == Nil ==> ControlLoop(err, attempts) == Ended(attempts[k].result, Nil)
    ensures attempts[k].ctx != Nil ==> ControlLoop(err, attempts).Ended? && ControlLoop(err, attempts).cerr == attempts[k].ctx
    decreases k
  {
    if k > 0 {
      assert attempts[0].ctx == Nil;
      ControlLoopEnds(attempts[0].result, attempts[1..], k - 1);
    }
  }

  lemma {:induction false} ControlLoopGoesOn(err: Error, attempts: seq<Attempt>)
    requires Retrying(attempts, |attempts|)
    ensures ControlLoop(err, attempts).Looping?
    decreases attempts
  {
    if attempts != [] {
      assert attempts[0].ctx == Nil;
      ControlLoopGoesOn(attempts[0].result, attempts[1..]);
    }
  }

  lemma {:induction false} FirstStop(attempts: seq<Attempt>) returns (k: nat)
    ensures k <= |attempts| && Retrying(attempts, k)
    ensures k < |attempts| ==> attempts[k].ctx != Nil || Ready(attempts[k].result)
  {
    k := 0;
    while k < |attempts| && attempts[k].ctx == Nil && !Ready(attempts[k].result)
      invariant k <= |attempts| && Retrying(attempts, k)
    {
      k := k + 1;
    }
  }

  /**
   * controlErr returns nil exactly when its last system call succeeded on a live context after
   * retryable ones only, and returns at all exactly when some attempt was not retryable or canceled.
   */
  lemma ControlErrContract(closed: uint32, op: string, attach: Error, attempts: seq<Attempt>)
    ensures ControlErr(closed, op, attach, attempts) == Some(Nil) <==>
            && closed == 0 && attach == Nil
            && exists k: nat :: k < |attempts| && Retrying(attempts, k) && attempts[k] == Attempt(Nil, Nil)
    ensures ControlErr(closed, op, attach, attempts) == None <==>
            closed == 0 && attach == Nil && Retrying(attempts, |attempts|)
  {
    var k := FirstStop(attempts);
    if k == |attempts| {
      ControlLoopGoesOn(Nil, attempts);
    } else {
      ControlLoopEnds(Nil, attempts, k);
    }
  }

  /** The same errors make control repeat the system call; any other comes back, wrapped. */
  lemma ControlRepeats(op: string, e: Error)
    ensures ControlErr(0, op, Nil, [Attempt(Nil, e)]) == None <==> e == Errno(4) || e == Errno(11) || e == Errno(115)
    ensures ControlErr(0, op, Nil, [Attempt(Nil, e)]) != None && e != Nil ==>
              ControlErr(0, op, Nil, [Attempt(Nil, e)]) == Some(Syscall(op, e))
  {
    var attempts := [Attempt(Nil, e)];
    assert Retrying(attempts, 1) <==> !Ready(attempts[0].result);
    ControlErrContract(0, op, Nil, attempts);
    if Ready(e) {
      ControlErrReturns(op, attempts, 0);
    }
  }

  /** On a closed connection, or without the poller's consent, nothing is attempted. */
  lemma ControlErrEarly(closed: uint32, op: string, attach: Error, attempts: seq<Attempt>)
    ensures closed != 0 ==> ControlErr(closed, op, attach, attempts) == Some(Syscall(op, Errno(9)))
    ensures closed == 0 && attach != Nil ==> ControlErr(closed, op, attach, attempts) == Some(attach)
  {
  }

  /** An attempt that ends the loop decides: its context error comes back bare, a system call's wrapped. */
  lemma ControlErrReturns(op: string, attempts: seq<Attempt>, k: nat)
    requires k < |attempts| && Retrying(attempts, k) && (attempts[k].ctx != Nil || Ready(attempts[k].result))
    ensures ControlErr(0, op, Nil, attempts) ==
            Some(if attempts[k].ctx != Nil then attempts[k].ctx else if attempts[k].result == Nil then Nil else Syscall(op, attempts[k].result))
  {
    ControlLoopEnds(Nil, attempts, k);
  }

  /** The errors that a wrapped control call can return are never bare retryable errnos. */
  lemma ControlErrIsReady(closed: uint32, op: string, attach: Error, attempts: seq<Attempt>)
    requires Ready(attach)
    ensures ControlErr(closed, op, attach, attempts).Some? ==> Ready(ControlErr(closed, op, attach, attempts).value)
  {
    var k := FirstStop(attempts);
    if k == |attempts| {
      ControlLoopGoesOn(Nil, attempts);
    } else {
      ControlLoopEnds(Nil, attempts, k);
    }
  }

  // ---- WriteContext ------------------------------------------------------------------

  /** A write(2) answer; the kernel never takes more than it is offered. */
  datatype SysWrite = SysWrite(n: int, err: Error)

  /**
   * Captured: the progress nn, b[nn:] as rest, the last n and err; besides these the bounds of every
   * slice offered and all bytes taken.
   */
  datatype WriteState = WriteState(rest: seq<byte>, nn: nat, n: int, err: Error, offers: seq<(nat, nat)>, accepted: seq<byte>)

  function NewWrite(b: seq<byte>): WriteState {
    WriteState(b, 0, 0, Nil, [], [])
  }

  function Taken(r: SysWrite, offered: nat): int {
    if r.n > offered then offered else if r.n < -1 then -1 else r.n
  }

  function Offered(isStream: bool, rest: seq<byte>): nat {
    if isStream && |rest| > MAX_RW then MAX_RW else |rest|
  }

  function WriteClosure(isStream: bool, s: WriteState, r: SysWrite): (WriteState, Error) {
    var offered := Offered(isStream, s.rest);
    var n := Taken(r, offered);
    var s0 := s.(n := n, err := r.err, offers := s.offers + [(s.nn, s.nn + offered)]);
    var s1 := if n > 0 then s0.(nn := s.nn + n, rest := s.rest[n..], accepted := s.accepted + s.rest[..n]) else s0;
    if s1.rest == [] then (s1, r.err)
    else if n == 0 && r.err == Nil then (s1.(err := UnexpectedEOF), Nil)
    else (s1, r.err)
  }

  function WriteStep(isStream: bool): Closure<WriteState, SysWrite> {
    (s: WriteState, r: SysWrite) => WriteClosure(isStream, s, r)
  }

  function WriteRun(closed: uint32, isStream: bool, b: seq<byte>, script: Script<SysWrite>): (Outcome<WriteState>, int, Error) {
    var o := Operate(closed, "write", WriteStep(isStream), NewWrite(b), script);
    if o.Blocked? then (o, 0, Nil)
    else if o.err != Nil then (o, 0, o.err)
    else (o, o.state.nn, NewSyscallError("write", o.state.err))
  }

  /** Bytes go out from the front of b, without gap or repeat, in slices within bounds. */
  ghost predicate InOrder(isStream: bool, b: seq<byte>, s: WriteState) {
    && s.nn <= |b| && s.rest == b[s.nn..] && s.accepted == b[..s.nn]
    && forall i | 0 <= i < |s.offers| :: s.offers[i].0 <= s.offers[i].1 <= |b| && (isStream ==> s.offers[i].1 - s.offers[i].0 <= MAX_RW)
  }

  lemma WriteKeepsOrder(isStream: bool, b: seq<byte>, s: WriteState, r: SysWrite)
    requires InOrder(isStream, b, s)
    ensures InOrder(isStream, b, WriteClosure(isStream, s, r).0)
  {
    var s' := WriteClosure(isStream, s, r).0;
    var n := s'.nn - s.nn;
    if n > 0 {
      assert b[..s.nn] + s.rest[..n] == b[..s.nn + n];
      assert s.rest[n..] == b[s.nn + n..];
    }
  }

  lemma {:induction false} WriteInOrder(isStream: bool, b: seq<byte>, s: WriteState, turns: seq<Turn<SysWrite>>, k: nat)
    requires k <= |turns| && InOrder(isStream, b, s)
    ensures InOrder(isStream, b, StateAt(WriteStep(isStream), s, turns, k))
    decreases k
  {
    if k > 0 {
      WriteKeepsOrder(isStream, b, s, turns[0].input);
      WriteInOrder(isStream, b, WriteStep(isStream)(s, turns[0].input).0, turns[1..], k - 1);
    }
  }

  /**
   * Whatever the kernel, the poller and the context do, at every point of a WriteContext the kernel
   * has taken exactly the first nn bytes of b; a nil error reports that count, and any error that
   * ends the wait reports 0 even after progress.
   */
  lemma WriteProgress(closed: uint32, isStream: bool, b: seq<byte>, script: Script<SysWrite>)
    ensures var (o, n, err) := WriteRun(closed, isStream, b, script);
            && InOrder(isStream, b, o.state)
            && (o.Returned? && err == Nil ==> n == |o.state.accepted| && o.state.accepted == b[..n])
            && (o.Returned? && o.err != Nil ==> n == 0 && err == o.err)
            && (closed != 0 ==> o.state.offers == [] && err == Syscall("write", Errno(9)))
  {
    var s := NewWrite(b);
    var k := OperateState(closed, "write", WriteStep(isStream), s, script);
    assert InOrder(isStream, b, s);
    WriteInOrder(isStream, b, s, script.turns, k);
  }

  /** The contract of write(2): it either takes bytes or fails. */
  predicate KernelSane(turns: seq<Turn<SysWrite>>) {
    forall i | 0 <= i < |turns| :: turns[i].input.n < 0 <==> turns[i].input.err != Nil
  }

  lemma {:induction false} NothingTakenYet(isStream: bool, b: seq<byte>, turns: seq<Turn<SysWrite>>, k: nat)
    requires k <= |turns| && KernelSane(turns)
    requires forall i: nat | i < k :: !Ready(ResultAt(WriteStep(isStream), NewWrite(b), turns, i))
    ensures StateAt(WriteStep(isStream), NewWrite(b), turns, k).nn == 0
    ensures StateAt(WriteStep(isStream), NewWrite(b), turns, k).rest == b
  {
    if k > 0 {
      var s := NewWrite(b);
      NothingTakenYet(isStream, b, turns, k - 1);
      StateAtNext(WriteStep(isStream), s, turns, k - 1);
      assert !Ready(ResultAt(WriteStep(isStream), s, turns, k - 1));
    }
  }

  lemma WriteEnd(isStream: bool, b: seq<byte>, turns: seq<Turn<SysWrite>>, k: nat)
    requires KernelSane(turns) && Finishes(WriteStep(isStream), NewWrite(b), turns, k)
    ensures var n := Taken(turns[k].input, Offered(isStream, b));
            var s := StateAt(WriteStep(isStream), NewWrite(b), turns, k + 1);
            && s.nn == (if n > 0 then n else 0)
            && (s.err == Nil <==> turns[k].input.err == Nil && (n > 0 || b == []))
  {
    NothingTakenYet(isStream, b, turns, k);
    StateAtNext(WriteStep(isStream), NewWrite(b), turns, k);
  }

  /** Turn k ends the retries with a write(2) of at most 1 GiB that takes n bytes. */
  ghost predicate WrittenAt(isStream: bool, b: seq<byte>, turns: seq<Turn<SysWrite>>, k: nat, n: int) {
    && Finishes(WriteStep(isStream), NewWrite(b), turns, k)
    && turns[k].input.err == Nil && n == Taken(turns[k].input, Offered(isStream, b)) && (n > 0 || b == [])
  }

  /**
   * With such a kernel one successful write ends the call. So WriteContext returns (n, nil) exactly
   * when, after retries that took nothing, a write(2) of at most 1 GiB took n bytes, n > 0 unless b
   * is empty.
   */
  lemma WriteReturnsNil(closed: uint32, isStream: bool, b: seq<byte>, script: Script<SysWrite>, n: int)
    requires KernelSane(script.turns)
    ensures (var (o, n', err) := WriteRun(closed, isStream, b, script); o.Returned? && n' == n && err == Nil) <==>
            && Undisturbed(closed, script)
            && exists k: nat :: WrittenAt(isStream, b, script.turns, k, n)
  {
    var (o, n', err) := WriteRun(closed, isStream, b, script);
    if o.Returned? && n' == n && err == Nil {
      OperateReturnsNil(closed, "write", WriteStep(isStream), NewWrite(b), script, o.state);
      var k: nat :| Finishes(WriteStep(isStream), NewWrite(b), script.turns, k)
                 && o.state == StateAt(WriteStep(isStream), NewWrite(b), script.turns, k + 1);
      WriteEnd(isStream, b, script.turns, k);
      assert WrittenAt(isStream, b, script.turns, k, n);
    }
    if k: nat :| Undisturbed(closed, script) && WrittenAt(isStream, b, script.turns, k, n) {
      var t := StateAt(WriteStep(isStream), NewWrite(b), script.turns, k + 1);
      OperateReturnsNil(closed, "write", WriteStep(isStream), NewWrite(b), script, t);
      WriteEnd(isStream, b, script.turns, k);
    }
  }

  /** Turn k ends the retries with a write(2) that fails with e, or takes nothing of a buffer that is not empty. */
  ghost predicate WriteFailsAt(isStream: bool, b: seq<byte>, turns: seq<Turn<SysWrite>>, k: nat, e: Error) {
    && Finishes(WriteStep(isStream), NewWrite(b), turns, k)
    && (turns[k].input.err == e || (turns[k].input.err == Nil && turns[k].input.n == 0 && b != [] && e == UnexpectedEOF))
  }

  lemma WriteEndError(isStream: bool, b: seq<byte>, turns: seq<Turn<SysWrite>>, k: nat, e: Error)
    requires KernelSane(turns) && Finishes(WriteStep(isStream), NewWrite(b), turns, k) && e != Nil
    ensures StateAt(WriteStep(isStream), NewWrite(b), turns, k + 1).err == e <==> WriteFailsAt(isStream, b, turns, k, e)
    ensures WriteFailsAt(isStream, b, turns, k, e) ==> StateAt(WriteStep(isStream), NewWrite(b), turns, k + 1).nn == 0
  {
    NothingTakenYet(isStream, b, turns, k);
    StateAtNext(WriteStep(isStream), NewWrite(b), turns, k);
  }

  /** A failed write(2) comes back with its own error, and one that takes nothing as an unexpected end of file. */
  lemma WriteFails(closed: uint32, isStream: bool, b: seq<byte>, script: Script<SysWrite>, e: Error)
    requires KernelSane(script.turns) && e != Nil
    ensures (var (o, n, err) := WriteRun(closed, isStream, b, script); o.Returned? && o.err == Nil && n == 0 && err == Syscall("write", e))
            <==> Undisturbed(closed, script) && exists k: nat :: WriteFailsAt(isStream, b, script.turns, k, e)
  {
    var f, s := WriteStep(isStream), NewWrite(b);
    var (o, n, err) := WriteRun(closed, isStream, b, script);
    if o.Returned? && o.err == Nil && err == Syscall("write", e) {
      OperateReturnsNil(closed, "write", f, s, script, o.state);
      var k: nat :| Finishes(f, s, script.turns, k) && o.state == StateAt(f, s, script.turns, k + 1);
      WriteEndError(isStream, b, script.turns, k, e);
    }
    if k: nat :| Undisturbed(closed, script) && WriteFailsAt(isStream, b, script.turns, k, e) {
      OperateReturnsNil(closed, "write", f, s, script, StateAt(f, s, script.turns, k + 1));
      WriteEndError(isStream, b, script.turns, k, e);
    }
  }

  /** One write(2) that would take m bytes: no more than 1 GiB goes out on a stream, no more than b otherwise. */
  lemma OneWrite(isStream: bool, b: seq<byte>, m: int)
    requires m > 0 && b != []
    ensures var (o, n, err) := WriteRun(0, isStream, b, Script(Nil, [Turn(Nil, SysWrite(m, Nil), Nil)], Nil));
            && o.Returned? && err == Nil && o.state.accepted == b[..n]
            && n == Least(m, if isStream then Least(|b|, 0x4000_0000) else |b|)
  {
    var turns := [Turn(Nil, SysWrite(m, Nil), Nil)];
    StateAtOne(WriteStep(isStream), NewWrite(b), turns);
    assert Finishes(WriteStep(isStream), NewWrite(b), turns, 0);
    LoopFinishes(WriteStep(isStream), NewWrite(b), turns, 0);
  }

  function Least(a: int, b: int): int {
    if a <= b then a else b
  }

  /** Some write(2) ends the retries and takes less than all of b. */
  ghost predicate FallsShort(isStream: bool, b: seq<byte>, script: Script<SysWrite>) {
    exists k: nat, n :: WrittenAt(isStream, b, script.turns, k, n) && n < |b|
  }

  /** A nil error means that all of b was taken exactly when no short write ends the call. */
  lemma WriteComplete(closed: uint32, isStream: bool, b: seq<byte>, script: Script<SysWrite>)
    requires KernelSane(script.turns)
    ensures var (o, n, err) := WriteRun(closed, isStream, b, script);
            (o.Returned? && err == Nil ==> n == |b| && o.state.accepted == b) <==>
            !(Undisturbed(closed, script) && FallsShort(isStream, b, script))
  {
    var (o, n, err) := WriteRun(closed, isStream, b, script);
    WriteProgress(closed, isStream, b, script);
    if Undisturbed(closed, script) && FallsShort(isStream, b, script) {
      var k: nat, n' :| WrittenAt(isStream, b, script.turns, k, n') && n' < |b|;
      WriteReturnsNil(closed, isStream, b, script, n');
    }
    if o.Returned? && err == Nil && n != |b| {
      WriteReturnsNil(closed, isStream, b, script, n);
    }
    assert b[..|b|] == b;
  }

  /** However the loop ends, all runs of the closure but the last were to be repeated, and all were live. */
  lemma {:induction false} LoopRuns<S, R>(f: Closure<S, R>, s: S, turns: seq<Turn<R>>) returns (k: nat)
    ensures k <= |turns| && RawLoop(f, s, Nil, turns).state == StateAt(f, s, turns, k)
    ensures k > 0 ==> Retries(f, s, turns, k - 1) && turns[k - 1].ctx == Nil
  {
    if turns == [] || turns[0].ctx != Nil {
      k := 0;
    } else {
      StateAtOne(f, s, turns);
      var (s', e) := f(s, turns[0].input);
      if Ready(e) || turns[0].wait != Nil {
        k := 1;
      } else {
        var j := LoopRuns(f, s', turns[1..]);
        k := j + 1;
        if j > 0 {
          RetriesShift(f, s, turns, j - 1);
          assert turns[k - 1] == turns[1..][j - 1];
        }
      }
    }
  }

  /** Some write(2) ends the retries and takes bytes. */
  ghost predicate TakesBytes(isStream: bool, b: seq<byte>, script: Script<SysWrite>) {
    exists k: nat, m :: WrittenAt(isStream, b, script.turns, k, m) && m > 0
  }

  /** The context is done by the time a call on an open connection returns, though it was not before. */
  predicate CanceledAtEnd<R>(closed: uint32, script: Script<R>) {
    closed == 0 && script.prepare == Nil && script.ctxAtEnd != Nil
  }

  /** Bytes are taken only by a last run, which then ends the retries. */
  lemma TakenByLastRun(isStream: bool, b: seq<byte>, turns: seq<Turn<SysWrite>>, k: nat)
    requires KernelSane(turns) && k < |turns| && turns[k].ctx == Nil && Retries(WriteStep(isStream), NewWrite(b), turns, k)
    ensures var s, n := StateAt(WriteStep(isStream), NewWrite(b), turns, k + 1), Taken(turns[k].input, Offered(isStream, b));
            && s.nn == (if n > 0 then n else 0)
            && (n > 0 ==> WrittenAt(isStream, b, turns, k, n))
  {
    NothingTakenYet(isStream, b, turns, k);
    StateAtNext(WriteStep(isStream), NewWrite(b), turns, k);
  }

  lemma TakenInAll(isStream: bool, b: seq<byte>, script: Script<SysWrite>)
    requires KernelSane(script.turns) && script.prepare == Nil
    ensures RawLoop(WriteStep(isStream), NewWrite(b), Nil, script.turns).state.nn > 0 <==> TakesBytes(isStream, b, script)
  {
    var f, s, turns := WriteStep(isStream), NewWrite(b), script.turns;
    var k := LoopRuns(f, s, turns);
    if k > 0 {
      TakenByLastRun(isStream, b, turns, k - 1);
    }
    if i: nat, m :| WrittenAt(isStream, b, turns, i, m) && m > 0 {
      LoopFinishes(f, s, turns, i);
      WriteEnd(isStream, b, turns, i);
    }
  }

  /**
   * The count that WriteContext returns is what the kernel took exactly when the context does not end
   * after a write(2) that took bytes and before the call returns; then 0 is returned with its error.
   */
  lemma WriteCounts(closed: uint32, isStream: bool, b: seq<byte>, script: Script<SysWrite>)
    requires KernelSane(script.turns)
    ensures var (o, n, err) := WriteRun(closed, isStream, b, script);
            (o.Returned? ==> n == |o.state.accepted|) <==>
            !(CanceledAtEnd(closed, script) && TakesBytes(isStream, b, script))
  {
    var f, s := WriteStep(isStream), NewWrite(b);
    var (o, n, err) := WriteRun(closed, isStream, b, script);
    WriteProgress(closed, isStream, b, script);
    if closed == 0 && script.prepare == Nil {
      TakenInAll(isStream, b, script);
      if k: nat, m :| WrittenAt(isStream, b, script.turns, k, m) && m > 0 {
        LoopFinishes(f, s, script.turns, k);
      }
    }
  }

  /** For one byte: it is taken, then the context is canceled, and 0 is reported. */
  lemma CanceledWriteUncounted(b: byte)
    ensures var (o, n, err) := WriteRun(0, true, [b], Script(Nil, [Turn(Nil, SysWrite(1, Nil), Nil)], Canceled));
            o.Returned? && n == 0 && err == Canceled && o.state.accepted == [b]
  {
    var turns := [Turn(Nil, SysWrite(1, Nil), Nil)];
    StateAtOne(WriteStep(true), NewWrite([b]), turns);
    assert Finishes(WriteStep(true), NewWrite([b]), turns, 0);
    LoopFinishes(WriteStep(true), NewWrite([b]), turns, 0);
  }

  /** Hence no stream write of more than 1 GiB is ever reported complete. */
  lemma WholeBufferNeverSent(closed: uint32, b: seq<byte>, script: Script<SysWrite>)
    requires KernelSane(script.turns) && |b| > 0x4000_0000
    ensures var (o, n, err) := WriteRun(closed, true, b, script);
            o.Returned? && err == Nil ==> 0 < n <= 0x4000_0000 < |b|
  {
    var (o, n, err) := WriteRun(closed, true, b, script);
    if o.Returned? && err == Nil {
      WriteReturnsNil(closed, true, b, script, n);
    }
  }

  // ---- ReadContext ---------------------------------------------------------------------

  /** A read(2) answer: the bytes delivered, or an error. */
  datatype SysRead = SysRead(data: seq<byte>, err: Error)

  /** Captured: the last answer, and the caller's buffer, which every successful read(2) fills from the front. */
  datatype ReadState = ReadState(got: SysRead, buffer: seq<byte>)

  function NewRead(b: seq<byte>): ReadState {
    ReadState(SysRead([], Nil), b)
  }

  /** The count that comes with the answer: -1 if read(2) fails. */
  function ReadCount(r: SysRead): int {
    if r.err != Nil then -1 else |r.data|
  }

  function ReadLength(isStream: bool, b: nat): nat {
    if isStream && b > MAX_RW then MAX_RW else b
  }

  /** The kernel never delivers more than it is asked for. */
  function Delivered(r: SysRead, length: nat): SysRead {
    if |r.data| > length then SysRead(r.data[..length], r.err) else r
  }

  function Filled(buffer: seq<byte>, r: SysRead): seq<byte> {
    if r.err == Nil && |r.data| <= |buffer| then r.data + buffer[|r.data|..] else buffer
  }

  function ReadClosure(length: nat, s: ReadState, r: SysRead): (ReadState, Error) {
    var got := Delivered(r, length);
    (ReadState(got, Filled(s.buffer, got)), r.err)
  }

  function ReadStep(length: nat): Closure<ReadState, SysRead> {
    (s: ReadState, r: SysRead) => ReadClosure(length, s, r)
  }

  function ReadRun(closed: uint32, isStream: bool, zeroReadIsEOF: bool, b: seq<byte>, script: Script<SysRead>): (Outcome<ReadState>, int, Error) {
    var o := Operate(closed, "read", ReadStep(ReadLength(isStream, |b|)), NewRead(b), script);
    if o.Blocked? then (o, 0, Nil)
    else if o.err != Nil then (o, 0, o.err)
    else if ReadCount(o.state.got) == 0 && o.state.got.err == Nil && zeroReadIsEOF then (o, 0, EOF)
    else (o, ReadCount(o.state.got), NewSyscallError("read", o.state.got.err))
  }

  lemma {:induction false} ReadStateLength(length: nat, b: seq<byte>, turns: seq<Turn<SysRead>>, k: nat)
    requires k <= |turns|
    ensures |StateAt(ReadStep(length), NewRead(b), turns, k).buffer| == |b|
  {
    if k > 0 {
      ReadStateLength(length, b, turns, k - 1);
      StateAtNext(ReadStep(length), NewRead(b), turns, k - 1);
    }
  }

  lemma ReadKeepsLength(closed: uint32, length: nat, b: seq<byte>, script: Script<SysRead>)
    ensures |Operate(closed, "read", ReadStep(length), NewRead(b), script).state.buffer| == |b|
  {
    var k := OperateState(closed, "read", ReadStep(length), NewRead(b), script);
    ReadStateLength(length, b, script.turns, k);
  }

  /** Failed attempts leave the buffer as it was. */
  lemma {:induction false} ReadRetrying(length: nat, b: seq<byte>, turns: seq<Turn<SysRead>>, k: nat)
    requires k <= |turns| && Retries(ReadStep(length), NewRead(b), turns, k)
    ensures StateAt(ReadStep(length), NewRead(b), turns, k).buffer == b
  {
    if k > 0 {
      ReadRetrying(length, b, turns, k - 1);
      StateAtNext(ReadStep(length), NewRead(b), turns, k - 1);
      assert !Ready(ResultAt(ReadStep(length), NewRead(b), turns, k - 1));
    }
  }

  /** Turn k ends the retries with this answer to a read(2) of the given length. */
  ghost predicate ReadAt(length: nat, b: seq<byte>, turns: seq<Turn<SysRead>>, k: nat, got: SysRead) {
    Finishes(ReadStep(length), NewRead(b), turns, k) && got == Delivered(turns[k].input, length)
  }

  lemma ReadStateAt(length: nat, b: seq<byte>, turns: seq<Turn<SysRead>>, k: nat)
    requires Finishes(ReadStep(length), NewRead(b), turns, k)
    ensures var got := Delivered(turns[k].input, length);
            StateAt(ReadStep(length), NewRead(b), turns, k + 1) == ReadState(got, Filled(b, got))
  {
    ReadRetrying(length, b, turns, k);
    StateAtNext(ReadStep(length), NewRead(b), turns, k);
  }

  lemma ReadEnds(closed: uint32, length: nat, b: seq<byte>, script: Script<SysRead>, got: SysRead)
    ensures Operate(closed, "read", ReadStep(length), NewRead(b), script) == Returned(ReadState(got, Filled(b, got)), Nil) <==>
            && Undisturbed(closed, script)
            && exists k: nat :: ReadAt(length, b, script.turns, k, got)
  {
    var s, f, t := NewRead(b), ReadStep(length), ReadState(got, Filled(b, got));
    OperateReturnsNil(closed, "read", f, s, script, t);
    if k: nat :| Finishes(f, s, script.turns, k) && t == StateAt(f, s, script.turns, k + 1) {
      ReadStateAt(length, b, script.turns, k);
      assert ReadAt(length, b, script.turns, k, got);
    }
    if k: nat :| ReadAt(length, b, script.turns, k, got) {
      ReadStateAt(length, b, script.turns, k);
      assert t == StateAt(f, s, script.turns, k + 1);
    }
  }

  /** When the engine returns nil the buffer is the caller's, filled by the last answer. */
  lemma ReadFills(closed: uint32, length: nat, b: seq<byte>, script: Script<SysRead>)
    ensures var o := Operate(closed, "read", ReadStep(length), NewRead(b), script);
            o.Returned? && o.err == Nil ==> o.state.buffer == Filled(b, o.state.got)
  {
    var s, f := NewRead(b), ReadStep(length);
    var o := Operate(closed, "read", f, s, script);
    if o.Returned? && o.err == Nil {
      OperateReturnsNil(closed, "read", f, s, script, o.state);
      var k: nat :| Finishes(f, s, script.turns, k) && o.state == StateAt(f, s, script.turns, k + 1);
      ReadStateAt(length, b, script.turns, k);
    }
  }

  /**
   * ReadContext reports n > 0 bytes without error exactly when the read(2) that ended the retries, of
   * at most 1 GiB on a stream, delivered n bytes, which are then at the front of the buffer; it
   * reports end of file exactly when that read(2) delivered none on a connection where this means the
   * end, an empty buffer included.
   */
  lemma ReadReturns(closed: uint32, isStream: bool, zeroReadIsEOF: bool, b: seq<byte>, script: Script<SysRead>, n: int, buffer: seq<byte>)
    ensures (var (o, n', err) := ReadRun(closed, isStream, zeroReadIsEOF, b, script); n > 0 && n' == n && err == Nil && o.state.buffer == buffer) <==>
            && Undisturbed(closed, script)
            && exists k: nat, got :: ReadAt(ReadLength(isStream, |b|), b, script.turns, k, got) && got.err == Nil && |got.data| == n > 0
                                  && buffer == got.data + b[n..]
    ensures PollerWithoutEof(script) ==>
            (ReadRun(closed, isStream, zeroReadIsEOF, b, script).2 == EOF <==>
            && Undisturbed(closed, script) && zeroReadIsEOF
            && exists k: nat :: ReadAt(ReadLength(isStream, |b|), b, script.turns, k, SysRead([], Nil)))
  {
    var length := ReadLength(isStream, |b|);
    var o := Operate(closed, "read", ReadStep(length), NewRead(b), script);
    ReadFills(closed, length, b, script);
    ReadEnds(closed, length, b, script, o.state.got);
    ReadEnds(closed, length, b, script, SysRead([], Nil));
    forall k: nat, got | Undisturbed(closed, script) && ReadAt(length, b, script.turns, k, got)
      ensures o == Returned(ReadState(got, Filled(b, got)), Nil)
    {
      ReadEnds(closed, length, b, script, got);
    }
    if PollerWithoutEof(script) {
      OperateWithoutEof(closed, "read", ReadStep(length), NewRead(b), script);
    }
  }

  /** One read(2) that would deliver this data: no more than the buffer, or than 1 GiB on a stream, comes in. */
  lemma OneRead(isStream: bool, zeroReadIsEOF: bool, b: seq<byte>, data: seq<byte>)
    requires data != [] && b != []
    ensures var (o, n, err) := ReadRun(0, isStream, zeroReadIsEOF, b, Script(Nil, [Turn(Nil, SysRead(data, Nil), Nil)], Nil));
            && o.Returned? && err == Nil && n == Least(|data|, if isStream then Least(|b|, 0x4000_0000) else |b|)
            && o.state.buffer == data[..n] + b[n..]
  {
    var length := ReadLength(isStream, |b|);
    var turns := [Turn(Nil, SysRead(data, Nil), Nil)];
    StateAtOne(ReadStep(length), NewRead(b), turns);
    assert Finishes(ReadStep(length), NewRead(b), turns, 0);
    LoopFinishes(ReadStep(length), NewRead(b), turns, 0);
    assert data[..|data|] == data;
  }

  /**
   * A count below 0 comes back exactly when the read(2) that ended the retries failed: -1, with its
   * error, where the io.Reader contract has a count between 0 and the length of the buffer.
   */
  lemma ReadCountNegative(closed: uint32, isStream: bool, zeroReadIsEOF: bool, b: seq<byte>, script: Script<SysRead>, e: Error)
    requires e != Nil
    ensures (var (_, n, err) := ReadRun(closed, isStream, zeroReadIsEOF, b, script); n < 0 && err == Syscall("read", e)) <==>
            && Undisturbed(closed, script)
            && exists k: nat, got :: ReadAt(ReadLength(isStream, |b|), b, script.turns, k, got) && got.err == e
    ensures ReadRun(closed, isStream, zeroReadIsEOF, b, script).1 >= -1
    ensures ReadRun(closed, isStream, zeroReadIsEOF, b, script).1 < 0 ==>
              exists e' :: e' != Nil && ReadRun(closed, isStream, zeroReadIsEOF, b, script).2 == Syscall("read", e')
  {
    var length := ReadLength(isStream, |b|);
    var o := Operate(closed, "read", ReadStep(length), NewRead(b), script);
    ReadFills(closed, length, b, script);
    ReadEnds(closed, length, b, script, o.state.got);
    forall k: nat, got | Undisturbed(closed, script) && ReadAt(length, b, script.turns, k, got)
      ensures o == Returned(ReadState(got, Filled(b, got)), Nil)
    {
      ReadEnds(closed, length, b, script, got);
    }
  }

  // ---- Connect ---------------------------------------------------------------------------

  type Addr = (int, int)

  /** Errors of the wrapped getsockopt call: never a bare errno (see ControlErrIsReady). */
  type CallError = e: Error | e == Nil || e.Syscall? || e == FileClosing witness Nil

  /**
   * What one run of the closure sees: the answer of connect(2), if it is the first; otherwise
   * getsockopt's error and SO_ERROR, the peer if getpeername succeeds, and the context after each.
   */
  datatype ConnectTurn = ConnectTurn(connect: Error, gerr: CallError, errno: int, ctx1: ContextError, peer: Option<Addr>, ctx2: ContextError)

  /** Captured: progress, rsa and err; runs counts closure runs and connects the connect(2) calls. */
  datatype ConnectState = ConnectState(progress: uint32, runs: nat, connects: nat, rsa: Option<Addr>, err: Error)

  const NEW_CONNECT := ConnectState(0, 0, 0, None, Nil)

  function ConnectClosure(s: ConnectState, t: ConnectTurn): (ConnectState, Error) {
    var s1 := s.(progress := (s.progress + 1) % TWO_TO_THE_32, runs := s.runs + 1);
    if s1.progress == 1 then (s1.(connects := s.connects + 1), t.connect)
    else if t.ctx1 != Nil then (s1, t.ctx1)
    else if t.gerr != Nil then (s1, t.gerr)
    else if t.errno != 0 then (s1.(err := Errno(t.errno)), Errno(t.errno))
    else if t.ctx2 != Nil then (s1, t.ctx2)
    else if t.peer.None? then (s1, EAGAIN)
    else (s1.(rsa := t.peer), Nil)
  }

  function ConnectRun(closed: uint32, script: Script<ConnectTurn>): (Outcome<ConnectState>, Option<Addr>, Error) {
    var o := Operate(closed, "connect", ConnectClosure, NEW_CONNECT, script);
    if o.Blocked? then (o, None, Nil)
    else if o.err != Nil then (o, None, o.err)
    else if o.state.err == EISCONN then (o, o.state.rsa, Nil)
    else (o, o.state.rsa, NewSyscallError("connect", o.state.err))
  }

  /** How often a wrapping 32-bit counter reaches 1 in n increments from 0. */
  function Rounds(n: nat): nat {
    (n + TWO_TO_THE_32 - 1) / TWO_TO_THE_32
  }

  lemma RoundsStep(n: nat)
    ensures Rounds(n + 1) == Rounds(n) + (if (n + 1) % TWO_TO_THE_32 == 1 then 1 else 0)
    ensures Rounds(0) == 0 && (0 < n <= TWO_TO_THE_32 ==> Rounds(n) == 1)
    ensures (n % TWO_TO_THE_32 + 1) % TWO_TO_THE_32 == (n + 1) % TWO_TO_THE_32
  {
  }

  lemma {:induction false} ConnectCount(turns: seq<Turn<ConnectTurn>>, k: nat)
    requires k <= |turns|
    ensures var s := StateAt(ConnectClosure, NEW_CONNECT, turns, k);
            s.runs == k && s.progress == k % TWO_TO_THE_32 && s.connects == Rounds(k)
  {
    if k > 0 {
      ConnectCount(turns, k - 1);
      StateAtNext(ConnectClosure, NEW_CONNECT, turns, k - 1);
      RoundsStep(k - 1);
    }
  }

  /**
   * connect(2) is issued once per 2^32 runs of the closure: at most once in the first 2^32, and not
   * at all if the closure never ran.
   */
  lemma ConnectIssued(closed: uint32, script: Script<ConnectTurn>)
    ensures var s := ConnectRun(closed, script).0.state;
            && s.connects == Rounds(s.runs) && s.runs <= |script.turns|
            && (s.connects <= 1 <==> s.runs <= 0x1_0000_0000)
  {
    var k := OperateState(closed, "connect", ConnectClosure, NEW_CONNECT, script);
    ConnectCount(script.turns, k);
  }

  /** Whether run k of the closure, counted from 0, calls connect(2) instead of checking on it. */
  predicate Connects(k: nat) {
    k % TWO_TO_THE_32 == 0
  }

  predicate ReportsErrno(t: ConnectTurn) {
    t.ctx1 == Nil && t.gerr == Nil && t.errno != 0
  }

  /** The SO_ERROR that is still remembered after k runs of the closure. */
  function StaleErrno(turns: seq<Turn<ConnectTurn>>, k: nat): Error
    requires k <= |turns|
  {
    if k == 0 then Nil
    else if !Connects(k - 1) && ReportsErrno(turns[k - 1].input) then Errno(turns[k - 1].input.errno)
    else StaleErrno(turns, k - 1)
  }

  /** A run of the closure that is to be repeated leaves no peer; a reported SO_ERROR is remembered. */
  lemma ConnectWaits(s: ConnectState, t: ConnectTurn, k: nat)
    requires s.progress == k % TWO_TO_THE_32 && s.rsa == None && !Ready(ConnectClosure(s, t).1)
    ensures var s' := ConnectClosure(s, t).0;
            && s'.progress == (k + 1) % TWO_TO_THE_32 && s'.rsa == None
            && s'.err == (if !Connects(k) && ReportsErrno(t) then Errno(t.errno) else s.err)
            && (s'.err == Nil || s'.err == s.err || !Ready(s'.err))
  {
  }

  lemma {:induction false} ConnectRetrying(turns: seq<Turn<ConnectTurn>>, k: nat)
    requires k <= |turns| && Retries(ConnectClosure, NEW_CONNECT, turns, k)
    ensures var s := StateAt(ConnectClosure, NEW_CONNECT, turns, k);
            s.progress == k % TWO_TO_THE_32 && s.rsa == None && s.err == StaleErrno(turns, k) && (s.err == Nil || !Ready(s.err))
  {
    if k > 0 {
      ConnectRetrying(turns, k - 1);
      StateAtNext(ConnectClosure, NEW_CONNECT, turns, k - 1);
      assert !Ready(ResultAt(ConnectClosure, NEW_CONNECT, turns, k - 1));
      ConnectWaits(StateAt(ConnectClosure, NEW_CONNECT, turns, k - 1), turns[k - 1].input, k - 1);
    }
  }

  /** What Connect returns when its retries end at turn k, the stale errno being as given. */
  function Verdict(k: nat, t: ConnectTurn, stale: Error): (Option<Addr>, Error) {
    if Connects(k) then (None, NewSyscallError("connect", stale))
    else if t.gerr != Nil then (None, NewSyscallError("connect", stale))
    else if t.errno != 0 then (None, if Errno(t.errno) == EISCONN then Nil else Syscall("connect", Errno(t.errno)))
    else (t.peer, NewSyscallError("connect", stale))
  }

  lemma ConnectLastTurn(s: ConnectState, t: ConnectTurn, k: nat)
    requires s.progress == k % TWO_TO_THE_32 && s.rsa == None && (s.err == Nil || !Ready(s.err))
    requires Ready(ConnectClosure(s, t).1) && !IsContextError(ConnectClosure(s, t).1)
    ensures var s' := ConnectClosure(s, t).0;
            Verdict(k, t, s.err) == (s'.rsa, if s'.err == EISCONN then Nil else NewSyscallError("connect", s'.err))
  {
  }

  lemma ConnectVerdict(turns: seq<Turn<ConnectTurn>>, k: nat)
    requires Finishes(ConnectClosure, NEW_CONNECT, turns, k)
    ensures var s := StateAt(ConnectClosure, NEW_CONNECT, turns, k + 1);
            Verdict(k, turns[k].input, StaleErrno(turns, k)) ==
            (s.rsa, if s.err == EISCONN then Nil else NewSyscallError("connect", s.err))
  {
    ConnectRetrying(turns, k);
    StateAtNext(ConnectClosure, NEW_CONNECT, turns, k);
    ConnectLastTurn(StateAt(ConnectClosure, NEW_CONNECT, turns, k), turns[k].input, k);
  }

  /**
   * The whole handshake, for any number of wake-ups: the engine ends without an error exactly when a
   * turn k ends the retries on a live context, and what Connect returns is then the verdict on that
   * turn and the errno left over from the turns before it.
   */
  lemma ConnectContract(closed: uint32, script: Script<ConnectTurn>, rsa: Option<Addr>, err: Error)
    ensures (var (o, rsa', err') := ConnectRun(closed, script); o.Returned? && o.err == Nil && rsa' == rsa && err' == err) <==>
            && Undisturbed(closed, script)
            && exists k: nat :: Finishes(ConnectClosure, NEW_CONNECT, script.turns, k)
                  && (rsa, err) == Verdict(k, script.turns[k].input, StaleErrno(script.turns, k))
  {
    var s := NEW_CONNECT;
    var (o, rsa', err') := ConnectRun(closed, script);
    if o.Returned? && o.err == Nil {
      OperateReturnsNil(closed, "connect", ConnectClosure, s, script, o.state);
      var k: nat :| Finishes(ConnectClosure, s, script.turns, k) && o.state == StateAt(ConnectClosure, s, script.turns, k + 1);
      ConnectVerdict(script.turns, k);
    }
    if k: nat :| Undisturbed(closed, script) && Finishes(ConnectClosure, s, script.turns, k) && (rsa, err) == Verdict(k, script.turns[k].input, StaleErrno(script.turns, k)) {
      OperateReturnsNil(closed, "connect", ConnectClosure, s, script, StateAt(ConnectClosure, s, script.turns, k + 1));
      ConnectVerdict(script.turns, k);
    }
  }

  /** The answers of the first connect(2) that lead to waiting: EINTR, EAGAIN and EINPROGRESS. */
  lemma ConnectWaitsFirst(e: Error, t: ConnectTurn)
    ensures ConnectRun(0, Script(Nil, [Turn(Nil, t.(connect := e), Nil)], Nil)).0.Blocked?
            <==> e == Errno(4) || e == Errno(11) || e == Errno(115)
  {
    var turns := [Turn(Nil, t.(connect := e), Nil)];
    StateAtOne(ConnectClosure, NEW_CONNECT, turns);
    OperateBlocks(0, "connect", ConnectClosure, NEW_CONNECT, Script(Nil, turns, Nil));
    assert ResultAt(ConnectClosure, NEW_CONNECT, turns, 0) == e;
  }

  /** A final SO_ERROR other than 0 is returned as it is, except that EISCONN, 106, is no error. */
  lemma SocketErrorReported(script: Script<ConnectTurn>, k: nat)
    requires Undisturbed(0, script) && Finishes(ConnectClosure, NEW_CONNECT, script.turns, k)
    requires !Connects(k) && script.turns[k].input.gerr == Nil && script.turns[k].input.errno != 0
    ensures var (o, rsa, err) := ConnectRun(0, script);
            var errno := script.turns[k].input.errno;
            o.Returned? && rsa == None && err == if errno == 106 then Nil else Syscall("connect", Errno(errno))
  {
    var (rsa, err) := Verdict(k, script.turns[k].input, StaleErrno(script.turns, k));
    ConnectContract(0, script, rsa, err);
  }

  /** A context that ends while a wake-up is handled ends the handshake with its error, after either system call. */
  lemma ConnectCanceled(script: Script<ConnectTurn>, k: nat)
    requires script.prepare == Nil && k < |script.turns| && Retries(ConnectClosure, NEW_CONNECT, script.turns, k)
    requires !Connects(k) && script.turns[k].ctx == Nil
    requires var t := script.turns[k].input; t.ctx1 != Nil || (t.gerr == Nil && t.errno == 0 && t.ctx2 != Nil)
    ensures var (o, rsa, err) := ConnectRun(0, script);
            var t := script.turns[k].input;
            o.Returned? && rsa == None && err == if t.ctx1 != Nil then t.ctx1 else t.ctx2
  {
    ConnectRetrying(script.turns, k);
    LoopStops(ConnectClosure, NEW_CONNECT, script.turns, k, script.ctxAtEnd);
  }

  /** A peer is only returned after SO_ERROR 0 and a successful getpeername in the last turn. */
  lemma PeerProvesConnection(closed: uint32, script: Script<ConnectTurn>)
    ensures var (o, rsa, err) := ConnectRun(closed, script);
            rsa.Some? ==> exists k: nat :: k < |script.turns| && !Connects(k) && Finishes(ConnectClosure, NEW_CONNECT, script.turns, k)
                            && script.turns[k].input.gerr == Nil && script.turns[k].input.errno == 0 && script.turns[k].input.peer == rsa
                            && (err == Nil <==> StaleErrno(script.turns, k) == Nil)
  {
    var (o, rsa, err) := ConnectRun(closed, script);
    if rsa.Some? {
      ConnectContract(closed, script, rsa, err);
      var k: nat :| Finishes(ConnectClosure, NEW_CONNECT, script.turns, k)
                 && (rsa, err) == Verdict(k, script.turns[k].input, StaleErrno(script.turns, k));
    }
  }

  /**
   * What shows that the socket is connected when the retries end at turn k: connect(2) succeeded or
   * found it connected; or, later, SO_ERROR could be read and was EISCONN, or 0 with a peer to go with it.
   */
  predicate Established(k: nat, t: ConnectTurn) {
    if Connects(k) then t.connect == Nil || t.connect == EISCONN
    else t.gerr == Nil && (Errno(t.errno) == EISCONN || (t.errno == 0 && t.peer.Some?))
  }

  ghost predicate Connected(script: Script<ConnectTurn>) {
    exists k: nat :: Finishes(ConnectClosure, NEW_CONNECT, script.turns, k) && Established(k, script.turns[k].input)
  }

  /**
   * The two errors that the closure returns and does not store: one of connect(2), and one of reading
   * SO_ERROR, as when the connection is closed during the handshake.
   */
  predicate DropsError(k: nat, t: ConnectTurn) {
    if Connects(k) then t.connect != Nil && t.connect != EISCONN else t.gerr != Nil
  }

  /** The retries end with such an error, and no errno of an earlier wake-up stands in for it. */
  ghost predicate ErrorLost(script: Script<ConnectTurn>) {
    exists k: nat :: Finishes(ConnectClosure, NEW_CONNECT, script.turns, k)
      && DropsError(k, script.turns[k].input) && StaleErrno(script.turns, k) == Nil
  }

  lemma FinishesOnce<S, R>(f: Closure<S, R>, s: S, turns: seq<Turn<R>>, k: nat, k': nat)
    requires Finishes(f, s, turns, k) && Finishes(f, s, turns, k')
    ensures k == k'
  {
    if k < k' {
      assert false;
    }
    if k' < k {
      assert false;
    }
  }

  /** SO_ERROR 0 without a peer goes back to waiting. */
  lemma SpuriousTurnWaits(s: ConnectState, t: ConnectTurn, k: nat)
    requires s.progress == k % TWO_TO_THE_32 && !Connects(k) && t.gerr == Nil && t.errno == 0 && t.peer.None?
    ensures !Ready(ConnectClosure(s, t).1) || IsContextError(ConnectClosure(s, t).1)
  {
  }

  lemma FinishedTurn(turns: seq<Turn<ConnectTurn>>, k: nat)
    requires Finishes(ConnectClosure, NEW_CONNECT, turns, k)
    ensures var t := turns[k].input;
            && !Connects(k) && t.gerr == Nil && t.errno == 0 ==> t.peer.Some?
    ensures StaleErrno(turns, k) == Nil || !Ready(StaleErrno(turns, k))
  {
    ConnectRetrying(turns, k);
    if !Connects(k) && turns[k].input.gerr == Nil && turns[k].input.errno == 0 && turns[k].input.peer.None? {
      SpuriousTurnWaits(StateAt(ConnectClosure, NEW_CONNECT, turns, k), turns[k].input, k);
    }
  }

  /** For one turn: a nil verdict shows a connection unless the turn's error was dropped with nothing to stand in for it. */
  lemma VerdictTruthful(turns: seq<Turn<ConnectTurn>>, k: nat)
    requires Finishes(ConnectClosure, NEW_CONNECT, turns, k)
    ensures var t, stale := turns[k].input, StaleErrno(turns, k);
            (Verdict(k, t, stale).1 == Nil ==> Established(k, t)) <==> stale != Nil || !DropsError(k, t)
  {
    FinishedTurn(turns, k);
  }

  /**
   * A nil error of Connect means a connection exactly when the handshake does not end, on an open
   * connection and a live context, in an error that the closure drops.
   */
  lemma NilErrorTruthful(closed: uint32, script: Script<ConnectTurn>)
    ensures var (o, rsa, err) := ConnectRun(closed, script);
            (o.Returned? && err == Nil ==> Connected(script)) <==> !(Undisturbed(closed, script) && ErrorLost(script))
  {
    var (o, rsa, err) := ConnectRun(closed, script);
    ConnectContract(closed, script, rsa, err);
    if o.Returned? && err == Nil {
      var k: nat :| Finishes(ConnectClosure, NEW_CONNECT, script.turns, k) && (rsa, err) == Verdict(k, script.turns[k].input, StaleErrno(script.turns, k));
      OnlyTurn(script, k);
      VerdictTruthful(script.turns, k);
    }
    if k: nat :| Undisturbed(closed, script) && Finishes(ConnectClosure, NEW_CONNECT, script.turns, k)
                 && DropsError(k, script.turns[k].input) && StaleErrno(script.turns, k) == Nil {
      OnlyTurn(script, k);
      VerdictTruthful(script.turns, k);
      var (rsa', err') := Verdict(k, script.turns[k].input, Nil);
      ConnectContract(closed, script, rsa', err');
    }
  }

  /** A handshake ends at one turn, so that turn decides. */
  lemma OnlyTurn(script: Script<ConnectTurn>, k: nat)
    requires Finishes(ConnectClosure, NEW_CONNECT, script.turns, k)
    ensures Connected(script) <==> Established(k, script.turns[k].input)
    ensures ErrorLost(script) <==> DropsError(k, script.turns[k].input) && StaleErrno(script.turns, k) == Nil
  {
    forall k': nat | Finishes(ConnectClosure, NEW_CONNECT, script.turns, k') ensures k' == k {
      FinishesOnce(ConnectClosure, NEW_CONNECT, script.turns, k, k');
    }
  }

  /**
   * The first way: any final answer of the first connect(2) is reported as success, though the socket
   * is only connected if that answer was nil or EISCONN.
   */
  lemma ConnectFailureUnreported(e: Error, t: ConnectTurn)
    requires Ready(e) && !IsContextError(e)
    ensures var script := Script(Nil, [Turn(Nil, t.(connect := e), Nil)], Nil);
            var (o, rsa, err) := ConnectRun(0, script);
            o.Returned? && rsa == None && err == Nil && (Connected(script) <==> e == Nil || e == EISCONN)
  {
    var script := Script(Nil, [Turn(Nil, t.(connect := e), Nil)], Nil);
    StateAtOne(ConnectClosure, NEW_CONNECT, script.turns);
    assert Finishes(ConnectClosure, NEW_CONNECT, script.turns, 0);
    OnlyTurn(script, 0);
    ConnectContract(0, script, None, Nil);
  }

  /** The second: SO_ERROR cannot be read at a later wake-up, for one because of a Close in between. */
  lemma GetsockoptFailureUnreported(t: ConnectTurn)
    requires t.ctx1 == Nil && t.gerr != Nil
    ensures var script := Script(Nil, [Turn(Nil, t.(connect := EINPROGRESS), Nil), Turn(Nil, t, Nil)], Nil);
            var (o, rsa, err) := ConnectRun(0, script);
            o.Returned? && rsa == None && err == Nil && !Connected(script)
  {
    var turns := [Turn(Nil, t.(connect := EINPROGRESS), Nil), Turn(Nil, t, Nil)];
    var script := Script(Nil, turns, Nil);
    StateAtOne(ConnectClosure, NEW_CONNECT, turns);
    assert StateAt(ConnectClosure, NEW_CONNECT, turns, 1).progress == 1;
    assert Finishes(ConnectClosure, NEW_CONNECT, turns, 1);
    OnlyTurn(script, 1);
    assert StaleErrno(turns, 0) == Nil && StaleErrno(turns, 1) == Nil;
    ConnectContract(0, script, None, Nil);
  }

  // ---- Close, under any interleaving --------------------------------------------------------

  /** Atomic steps of any number of goroutines; t names one call of Close. */
  datatype CloseEvent = Increment(t: nat) | CloseFile(t: nat) | Load

  /** What the loads saw: how many increments came before, and whether the operation got EBADF. */
  datatype CloseState = CloseState(closed: uint32, started: set<nat>, increments: nat, toClose: set<nat>, fileCloses: nat, loads: seq<(nat, bool)>)

  const OPEN := CloseState(0, {}, 0, {}, 0, [])

  predicate CloseEnabled(s: CloseState, e: CloseEvent) {
    match e
    case Increment(t) => t !in s.started
    case CloseFile(t) => t in s.toClose
    case Load => true
  }

  function CloseStep(s: CloseState, e: CloseEvent): CloseState
    requires CloseEnabled(s, e)
  {
    match e
    case Increment(t) =>
      var c := (s.closed + 1) % TWO_TO_THE_32;
      s.(closed := c, started := s.started + {t}, increments := s.increments + 1,
         toClose := if c == 1 then s.toClose + {t} else s.toClose)
    case CloseFile(t) => s.(toClose := s.toClose - {t}, fileCloses := s.fileCloses + 1)
    case Load => s.(loads := s.loads + [(s.increments, s.closed != 0)])
  }

  ghost predicate CloseReachable(s: CloseState, events: seq<CloseEvent>, s': CloseState)
    decreases events
  {
    if events == [] then s == s'
    else CloseEnabled(s, events[0]) && CloseReachable(CloseStep(s, events[0]), events[1..], s')
  }

  ghost predicate CloseInvariant(s: CloseState) {
    && s.closed == s.increments % TWO_TO_THE_32
    && s.toClose <= s.started
    && s.fileCloses + |s.toClose| == Rounds(s.increments)
    && forall i | 0 <= i < |s.loads| ::
         s.loads[i].0 <= s.increments && (s.loads[i].1 <==> s.loads[i].0 % TWO_TO_THE_32 != 0)
  }

  lemma CloseStepKeeps(s: CloseState, e: CloseEvent)
    requires CloseInvariant(s) && CloseEnabled(s, e)
    ensures CloseInvariant(CloseStep(s, e))
  {
    RoundsStep(s.increments);
  }

  lemma {:induction false} CloseRunKeeps(s: CloseState, events: seq<CloseEvent>, s': CloseState)
    requires CloseInvariant(s) && CloseReachable(s, events, s')
    ensures CloseInvariant(s')
    decreases events
  {
    if events != [] {
      CloseStepKeeps(s, events[0]);
      CloseRunKeeps(CloseStep(s, events[0]), events[1..], s');
    }
  }

  /**
   * In every interleaving with at least one and fewer than 2^32 calls of Close, the flag never reads 0
   * again, the file is closed exactly once when all calls are through, and an operation gets EBADF
   * exactly if its load came after the first increment.
   */
  lemma ClosedExactlyOnce(events: seq<CloseEvent>, s: CloseState)
    requires CloseReachable(OPEN, events, s) && 0 < s.increments < 0x1_0000_0000
    ensures s.closed != 0 && s.fileCloses <= 1
    ensures s.fileCloses == 1 <==> s.toClose == {}
    ensures forall i | 0 <= i < |s.loads| :: s.loads[i].1 <==> s.loads[i].0 > 0
  {
    RoundsStep(0);
    CloseRunKeeps(OPEN, events, s);
    RoundsStep(s.increments);
  }

  /** The bound is exact: in general the flag reads 0 after every 2^32 calls and the file is closed again. */
  lemma ClosedPerRound(events: seq<CloseEvent>, s: CloseState)
    requires CloseReachable(OPEN, events, s)
    ensures s.closed == 0 <==> s.increments % 0x1_0000_0000 == 0
    ensures s.toClose == {} ==> s.fileCloses == Rounds(s.increments)
  {
    RoundsStep(0);
    CloseRunKeeps(OPEN, events, s);
  }

  lemma {:induction false} CloseReachableSnoc(s: CloseState, events: seq<CloseEvent>, s': CloseState, e: CloseEvent)
    requires CloseReachable(s, events, s') && CloseEnabled(s', e)
    ensures CloseReachable(s, events + [e], CloseStep(s', e))
    decreases events
  {
    if events == [] {
      assert [e][1..] == [];
      assert CloseReachable(CloseStep(s, e), [], CloseStep(s', e));
      assert events + [e] == [e];
    } else {
      CloseReachableSnoc(CloseStep(s, events[0]), events[1..], s', e);
      assert (events + [e])[1..] == events[1..] + [e];
    }
  }

  /** Any number of increments can happen. */
  lemma {:induction false} IncrementsReachable(n: nat) returns (events: seq<CloseEvent>, s: CloseState)
    ensures CloseReachable(OPEN, events, s) && s.increments == n && forall t | t in s.started :: t < n
  {
    if n == 0 {
      events, s := [], OPEN;
    } else {
      var before, s1 := IncrementsReachable(n - 1);
      CloseReachableSnoc(OPEN, before, s1, Increment(n - 1));
      events, s := before + [Increment(n - 1)], CloseStep(s1, Increment(n - 1));
    }
  }

  /** In no run with at least one and at most m increments does the flag read 0. */
  ghost predicate StaysClosed(m: nat) {
    forall events, s :: CloseReachable(OPEN, events, s) && 0 < s.increments <= m ==> s.closed != 0
  }

  /** So the bound on the number of calls is exact. */
  lemma CloseBoundExact(m: nat)
    ensures StaysClosed(m) <==> m < 0x1_0000_0000
  {
    if m < TWO_TO_THE_32 {
      forall events, s | CloseReachable(OPEN, events, s) && 0 < s.increments <= m ensures s.closed != 0 {
        ClosedExactlyOnce(events, s);
      }
    } else {
      var events, s := IncrementsReachable(TWO_TO_THE_32);
      ClosedPerRound(events, s);
    }
  }

  /** A call of Close that has taken on closing the file can always do it. */
  lemma CloseCompletes(events: seq<CloseEvent>, s: CloseState) returns (more: seq<CloseEvent>, s': CloseState)
    requires CloseReachable(OPEN, events, s) && 0 < s.increments < 0x1_0000_0000
    ensures CloseReachable(OPEN, more, s') && events <= more && s'.fileCloses == 1 && s'.increments == s.increments
  {
    ClosedExactlyOnce(events, s);
    more, s' := events, s;
    if t :| t in s.toClose {
      CloseReachableSnoc(OPEN, events, s, CloseFile(t));
      more, s' := events + [CloseFile(t)], CloseStep(s, CloseFile(t));
    }
    ClosedExactlyOnce(more, s');
  }

  /** An operation can start at any time, and its load sees whether any call of Close came before it. */
  lemma LoadSees(events: seq<CloseEvent>, s: CloseState)
    requires CloseReachable(OPEN, events, s) && s.increments < 0x1_0000_0000
    ensures CloseEnabled(s, Load) && CloseStep(s, Load).loads == s.loads + [(s.increments, s.increments > 0)]
  {
    ClosedPerRound(events, s);
  }
}
