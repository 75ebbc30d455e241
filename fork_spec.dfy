/**
 * Reference semantics of the fork server, as functions from the server's
 * state before an operation to its state after it. Java exceptions are the
 * `false` half of a step's result; a failed read leaves the cursor where it was
 * (the stream is unusable afterwards anyway).
 */
module ForkSpec {
  import opened Base
  import opened ForkWire
  import opened ForkLookup

  /**
   * The server's fields: the input cursor, everything written so far, the
   * worker and class loader (null until the handshake sets them), the
   * activity flag and its timestamp, and how many clock readings and
   * invocations have happened.
   */
  datatype Server = Server(pos: nat, out: seq<Reply>, worker: Option<Frame>, loader: Option<Frame>,
                           parsing: bool, since: int, readings: nat, invocations: nat)

  /** The outcome of one step: whether it completed without an exception, and the state after it. */
  datatype Step<T> = Step(ok: bool, value: T, s: Server)

  /** The server as the constructor leaves it: `since` holds the first clock reading. */
  function Initial(e: Env): (r: Server)
    ensures r.pos == 0 && r.out == [] && r.worker.None? && r.loader.None?
    ensures !r.parsing && r.since == e.clock(0) && r.invocations == 0
  {
    Server(0, [], None, None, false, e.clock(0), 1, 0)
  }

  function Emit(s: Server, r: seq<Reply>): Server {
    s.(out := s.out + r)
  }

  function Byte(op: int8): Reply {
    OutByte(Wire(op))
  }

  /** `synchronized (lock) { parsing = busy; since = System.currentTimeMillis(); }` */
  function Mark(e: Env, s: Server, busy: bool): (r: Server)
    ensures r.parsing == busy && r.since == e.clock(s.readings) && r.readings == s.readings + 1
    ensures r.pos == s.pos && r.out == s.out && r.worker == s.worker && r.loader == s.loader
    ensures r.invocations == s.invocations
  {
    s.(parsing := busy, since := e.clock(s.readings), readings := s.readings + 1)
  }

  /** `input.read()`: -1 at end of input; a token that is not a byte means the stream is out of step. */
  datatype ByteRead = Eof | Got(b: uint8) | OutOfStep

  function ReadByte(e: Env, s: Server): (r: (ByteRead, Server))
    requires s.pos <= |e.input|
    ensures r.1.pos <= |e.input|
    ensures r.0 == Eof <==> s.pos == |e.input|
    ensures r.0.Got? <==> s.pos < |e.input| && e.input[s.pos].InByte?
    ensures r.0.Got? ==> e.input[s.pos] == InByte(r.0.b) && r.1 == s.(pos := s.pos + 1)
    ensures !r.0.Got? ==> r.1 == s
  {
    if s.pos == |e.input| then (Eof, s)
    else match e.input[s.pos]
      case InByte(b) => (Got(b), s.(pos := s.pos + 1))
      case _ => (OutOfStep, s)
  }

  /** `input.readUTF()`: EOF or a misplaced token throws. Strings are not acknowledged. */
  function ReadUtf(e: Env, s: Server): (r: Step<string>)
    requires s.pos <= |e.input|
    ensures r.s.pos <= |e.input|
    ensures r.ok <==> s.pos < |e.input| && e.input[s.pos].InUtf?
    ensures r.ok ==> e.input[s.pos] == InUtf(r.value) && r.s == s.(pos := s.pos + 1)
    ensures !r.ok ==> r.s == s
  {
    if s.pos < |e.input| && e.input[s.pos].InUtf? then Step(true, e.input[s.pos].s, s.(pos := s.pos + 1))
    else Step(false, [], s)
  }

  /** `readObject`: one frame, acknowledged with one DONE byte; EOF or a misplaced token throws. */
  function ReadObject(e: Env, s: Server): (r: Step<Option<Frame>>)
    requires s.pos <= |e.input|
    ensures r.s.pos <= |e.input|
    ensures r.ok == r.value.Some?
    ensures r.ok <==> s.pos < |e.input| && e.input[s.pos].InFrame?
    ensures r.ok ==> r.s == Emit(s.(pos := s.pos + 1), [Byte(DONE)]) && e.input[s.pos] == InFrame(r.value.value)
    ensures !r.ok ==> r.s == s
  {
    if s.pos < |e.input| && e.input[s.pos].InFrame? then
      Step(true, Some(e.input[s.pos].f), Emit(s.(pos := s.pos + 1), [Byte(DONE)]))
    else Step(false, None, s)
  }

  /**
   * The argument loop of `call`: `n` more frames read into `args`, which
   * already holds the ones read before.
   */
  function ReadArgs(e: Env, s: Server, n: nat, args: seq<Frame>): (r: Step<seq<Frame>>)
    requires s.pos <= |e.input|
    ensures r.s.pos <= |e.input| && s.pos <= r.s.pos
    ensures r.s == s.(pos := r.s.pos, out := r.s.out)
    ensures r.ok ==> |r.value| == |args| + n && r.value[..|args|] == args
    decreases n
  {
    if n == 0 then Step(true, args, s)
    else
      var f := ReadObject(e, s);
      if !f.ok then Step(false, args, f.s)
      else ReadArgs(e, f.s, n - 1, args + [f.value.value])
  }

  /** The reply to a completed invocation; Fatal is not a reply but an exception escaping `call`. */
  function Answer(o: Outcome): (r: seq<Reply>)
    ensures r == [] <==> o.Fatal?
    ensures r != [] ==> r[0] == Byte(DONE) || r[0] == Byte(ERROR)
    ensures |r| == 2 <==> o.Threw?
  {
    match o
    case Returned => [Byte(DONE)]
    case Threw(cause) => [Byte(ERROR), FaultFrame(cause)]
    case Fatal => []
  }

  /**
   * `method.invoke(object, args)` runs with the activity flag raised and
   * `since` holding the reading taken when it was raised.
   */
  function Invoke(e: Env, s: Server, target: Frame, m: MethodDesc, args: seq<Frame>): (r: (Outcome, Server))
    requires s.parsing
    requires s.readings > 0 && s.since == e.clock(s.readings - 1)
    ensures r.1 == s.(invocations := s.invocations + 1)
  {
    (e.outcome(Invocation(s.invocations, target, m, args)), s.(invocations := s.invocations + 1))
  }

  /**
   * `call(classLoader, worker)`. `ok` is false when an exception escapes it:
   * the name or an argument could not be read, the worker is null, no method
   * has that name, or the invocation failed other than by the method throwing.
   * Whatever happens, the `finally` block clears the flag and reads the clock once more.
   */
  function Call(e: Env, s: Server): (r: Step<()>)
    requires s.pos <= |e.input|
    ensures s.pos <= r.s.pos <= |e.input|
    ensures !r.s.parsing
    ensures r.s.readings == s.readings + 2 && r.s.since == e.clock(s.readings + 1)
    ensures r.s.worker == s.worker && r.s.loader == s.loader
  {
    var s1 := Mark(e, s, true);
    var name := ReadUtf(e, s1);
    var s2 := name.s;
    if !name.ok || s2.worker.None? then Step(false, (), Mark(e, s2, false))
    else match FindMethod(s2.worker.value.classes, name.value)
      case None => Step(false, (), Mark(e, s2, false))
      case Some(m) =>
        var args := ReadArgs(e, s2, m.paramCount, []);
        if !args.ok then Step(false, (), Mark(e, args.s, false))
        else
          var (o, s3) := Invoke(e, args.s, s2.worker.value, m, args.value);
          Step(!o.Fatal?, (), Mark(e, Emit(s3, Answer(o)), false))
  }

  /**
   * `initializeWorkerAndLoader`: READY, a command byte, one frame, and, when
   * the command is INIT_PARALLEL_WORKER, a second frame read as the worker,
   * provided the first is a ClassLoader; then READY. Any other command byte
   * still reads its one frame and says READY, with the worker left null.
   */
  function Handshake(e: Env, s: Server): (r: Step<()>)
    requires s.pos <= |e.input|
    ensures s.pos <= r.s.pos <= |e.input|
    ensures r.s.parsing == s.parsing && r.s.since == s.since && r.s.readings == s.readings
  {
    var s1 := Emit(s, [Byte(READY)]);
    var (c, s2) := ReadByte(e, s1);
    if !c.Got? then Step(false, (), s2)
    else
      var first := ReadObject(e, s2);
      if !first.ok then Step(false, (), first.s)
      else if !IsOp(c.b, INIT_PARALLEL_WORKER) then Step(true, (), Emit(first.s, [Byte(READY)]))
      else if !IsClassLoader(first.value.value) then Step(false, (), first.s)
      else
        var s3 := first.s.(loader := first.value);
        var w := ReadObject(e, s3);
        if !w.ok then Step(false, (), w.s)
        else Step(true, (), Emit(w.s.(worker := w.value), [Byte(READY)]))
  }

  /** The serving loop, from the next command byte to its end. */
  function Serve(e: Env, s: Server): (r: Server)
    requires s.pos <= |e.input|
    ensures s.pos <= r.pos <= |e.input|
    decreases |e.input| - s.pos
  {
    var (c, s1) := ReadByte(e, s);
    match c
    case Eof => s1
    case OutOfStep => s1
    case Got(b) =>
      if IsOp(b, PING) then Serve(e, Emit(s1, [Byte(PING)]))
      else if IsOp(b, CALL) then
        var r := Call(e, s1);
        if r.ok then Serve(e, r.s) else r.s
      else s1
  }

  /** `processRequests`: the handshake, then FAILED_TO_START or the serving loop. */
  function ProcessRequests(e: Env, s: Server): (r: Server)
    requires s.pos <= |e.input|
    ensures r.pos <= |e.input|
  {
    var h := Handshake(e, s);
    if !h.ok then Emit(h.s, [Byte(FAILED_TO_START)]) else Serve(e, h.s)
  }
}
