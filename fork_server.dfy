/**
 * The fork server itself: the object whose fields `processRequests`,
 * `initializeWorkerAndLoader` and `call` update as they read from the parent
 * and write back to it. Each method is proved to do exactly what the
 * reference semantics in ForkSpec says.
 */
module Parallel {
  import opened Base
  import opened ForkWire
  import opened ForkLookup
  import opened ForkSpec

  class ForkServer {
    /** What the parent sends, read left to right through `pos`. */
    const input: seq<Token>
    /** Successive readings of `System.currentTimeMillis()`. */
    const clock: nat -> int
    /** How each reflective invocation ends. */
    const outcome: Invocation -> Outcome

    /** Stored by the constructor; nothing in the server reads them. */
    const serverPulseMillis: int
    const serverParserTimeoutMillis: int
    const serverWaitTimeoutMillis: int

    var pos: nat
    /** Everything written to the parent so far. */
    var output: seq<Reply>
    var worker: Option<Frame>
    var classLoader: Option<Frame>
    var parsing: bool
    var since: int
    var readings: nat
    var invocations: nat

    ghost predicate Valid()
      reads this
    {
      pos <= |input|
    }

    function Environment(): Env {
      Env(input, clock, outcome)
    }

    /** The fields, as the reference semantics sees them. */
    function State(): Server
      reads this
    {
      Server(pos, output, worker, classLoader, parsing, since, readings, invocations)
    }

    constructor (input: seq<Token>, clock: nat -> int, outcome: Invocation -> Outcome,
                 serverPulseMillis: int, serverParserTimeoutMillis: int, serverWaitTimeoutMillis: int)
      ensures Valid()
      ensures this.input == input && this.clock == clock && this.outcome == outcome
      ensures this.serverPulseMillis == serverPulseMillis
      ensures this.serverParserTimeoutMillis == serverParserTimeoutMillis
      ensures this.serverWaitTimeoutMillis == serverWaitTimeoutMillis
      ensures State() == Initial(Environment())
    {
      this.input := input;
      this.clock := clock;
      this.outcome := outcome;
      this.serverPulseMillis := serverPulseMillis;
      this.serverParserTimeoutMillis := serverParserTimeoutMillis;
      this.serverWaitTimeoutMillis := serverWaitTimeoutMillis;
      pos := 0;
      output := [];
      worker := None;
      classLoader := None;
      parsing := false;
      since := clock(0);
      readings := 1;
      invocations := 0;
    }

    /** `System.currentTimeMillis()`. */
    method CurrentTimeMillis() returns (t: int)
      modifies this
      ensures t == clock(old(readings))
      ensures State() == old(State()).(readings := old(readings) + 1)
    {
      t := clock(readings);
      readings := readings + 1;
    }

    /** `synchronized (lock) { parsing = busy; since = System.currentTimeMillis(); }` */
    method SetActivity(busy: bool)
      modifies this
      ensures State() == Mark(Environment(), old(State()), busy)
    {
      parsing := busy;
      since := CurrentTimeMillis();
    }

    method WriteByte(op: int8)
      modifies this
      ensures State() == Emit(old(State()), [Byte(op)])
    {
      output := output + [Byte(op)];
    }

    method Read() returns (r: ByteRead)
      requires Valid()
      modifies this
      ensures Valid()
      ensures (r, State()) == ReadByte(Environment(), old(State()))
    {
      if pos == |input| {
        return Eof;
      }
      match input[pos]
      case InByte(b) =>
        pos := pos + 1;
        r := Got(b);
      case _ =>
        r := OutOfStep;
    }

    method ReadUTF() returns (ok: bool, s: string)
      requires Valid()
      modifies this
      ensures Valid()
      ensures Step(ok, s, State()) == ReadUtf(Environment(), old(State()))
    {
      if pos < |input| && input[pos].InUtf? {
        s := input[pos].s;
        pos := pos + 1;
        ok := true;
      } else {
        ok, s := false, [];
      }
    }

    /** Deserializes one frame and tells the parent it arrived. */
    method ReadObject() returns (obj: Option<Frame>)
      requires Valid()
      modifies this
      ensures Valid()
      ensures Step(obj.Some?, obj, State()) == ForkSpec.ReadObject(Environment(), old(State()))
    {
      if pos < |input| && input[pos].InFrame? {
        obj := Some(input[pos].f);
        pos := pos + 1;
        WriteByte(DONE);
      } else {
        obj := None;
      }
    }

    /**
     * The nested search over the class, its interfaces and its superclasses,
     * returning on the first method with that name.
     */
    method GetMethod(target: Frame, name: string) returns (found: Option<MethodDesc>)
      ensures found == FindMethod(target.classes, name)
      ensures found.Some? ==> found.value.name == name
    {
      var classes := target.classes;
      var k := 0;
      while k < |classes|
        invariant 0 <= k <= |classes|
        invariant FindMethod(classes, name) == FindMethod(classes[k..], name)
      {
        var klass := classes[k];
        var ifaces := klass.interfaces;
        var j := 0;
        while j < |ifaces|
          invariant 0 <= j <= |ifaces|
          invariant FindInInterfaces(ifaces, name) == FindInInterfaces(ifaces[j..], name)
        {
          var methods := ifaces[j].methods;
          var i := 0;
          while i < |methods|
            invariant 0 <= i <= |methods|
            invariant FindIn(methods, name) == FindIn(methods[i..], name)
          {
            if name == methods[i].name {
              assert FindMethod(classes[k..], name) == Some(methods[i]) by {
                assert FindInInterfaces(ifaces[j..], name) == Some(methods[i]);
              }
              return Some(methods[i]);
            }
            assert methods[i..][1..] == methods[i + 1..];
            i := i + 1;
          }
          assert ifaces[j..][1..] == ifaces[j + 1..];
          j := j + 1;
        }
        var own := klass.methods;
        var i := 0;
        while i < |own|
          invariant 0 <= i <= |own|
          invariant FindIn(own, name) == FindIn(own[i..], name)
        {
          if name == own[i].name {
            return Some(own[i]);
          }
          assert own[i..][1..] == own[i + 1..];
          i := i + 1;
        }
        assert classes[k..][1..] == classes[k + 1..];
        k := k + 1;
      }
      return None;
    }

    /** The argument loop of `call`: `n` frames, each acknowledged; `read` is false when a read threw. */
    method ReadArguments(n: nat) returns (read: bool, args: seq<Frame>)
      requires Valid()
      modifies this
      ensures Valid()
      ensures Step(read, args, State()) == ReadArgs(Environment(), old(State()), n, [])
    {
      args := [];
      read := true;
      var i := 0;
      while i < n
        invariant Valid() && 0 <= i <= n && |args| == i
        invariant ReadArgs(Environment(), old(State()), n, []) == ReadArgs(Environment(), State(), n - i, args)
      {
        var arg := ReadObject();
        if arg.None? {
          read := false;
          return;
        }
        args := args + [arg.value];
        i := i + 1;
      }
    }

    /** `method.invoke(target, args)` and the reply to it, with the activity flag raised. */
    method InvokeAndReply(target: Frame, m: MethodDesc, args: seq<Frame>) returns (ok: bool)
      requires parsing
      requires readings > 0 && since == clock(readings - 1)
      modifies this
      ensures var (o, s) := Invoke(Environment(), old(State()), target, m, args);
        ok == !o.Fatal? && State() == Emit(s, Answer(o))
    {
      var o := outcome(Invocation(invocations, target, m, args));
      invocations := invocations + 1;
      match o
      case Returned =>
        WriteByte(DONE);
        ok := true;
      case Threw(cause) =>
        WriteByte(ERROR);
        output := output + [FaultFrame(cause)];
        ok := true;
      case Fatal =>
        ok := false;
    }

    /** `call(classLoader, worker)`; `ok` is false when an exception escapes it. */
    method Call() returns (ok: bool)
      requires Valid()
      modifies this
      ensures Valid()
      ensures Step(ok, (), State()) == ForkSpec.Call(Environment(), old(State()))
      ensures !parsing
    {
      SetActivity(true);
      ok := false;
      var named, name := ReadUTF();
      if named && worker.Some? {
        var target := worker.value;
        var m := GetMethod(target, name);
        if m.Some? {
          var read, args := ReadArguments(m.value.paramCount);
          if read {
            ok := InvokeAndReply(target, m.value, args);
          }
        }
      }
      SetActivity(false);
    }

    /** The handshake; `ok` is false when it threw. */
    method InitializeWorkerAndLoader() returns (ok: bool)
      requires Valid()
      modifies this
      ensures Valid()
      ensures Step(ok, (), State()) == Handshake(Environment(), old(State()))
    {
      WriteByte(READY);
      var configIndex := Read();
      if !configIndex.Got? {
        return false;
      }
      var firstObject := ReadObject();
      if firstObject.None? {
        return false;
      }
      if IsOp(configIndex.b, INIT_PARALLEL_WORKER) {
        if IsClassLoader(firstObject.value) {
          classLoader := firstObject;
          var w := ReadObject();
          if w.None? {
            return false;
          }
          worker := w;
        } else {
          return false;
        }
      }
      WriteByte(READY);
      ok := true;
    }

    /** The handshake, then the request loop until EOF or a fatal error. */
    method ProcessRequests()
      requires Valid()
      modifies this
      ensures Valid()
      ensures State() == ForkSpec.ProcessRequests(Environment(), old(State()))
    {
      var started := InitializeWorkerAndLoader();
      if !started {
        WriteByte(FAILED_TO_START);
        return;
      }
      ghost var goal := Serve(Environment(), State());
      var running := true;
      while running
        invariant Valid()
        invariant running ==> Serve(Environment(), State()) == goal
        invariant !running ==> State() == goal
        decreases |input| - pos, running
      {
        var request := Read();
        match request
        case Got(b) =>
          if IsOp(b, PING) {
            WriteByte(PING);
          } else if IsOp(b, CALL) {
            var ok := Call();
            running := ok;
          } else {
            running := false;
          }
        case _ =>
          running := false;
      }
    }
  }
}
