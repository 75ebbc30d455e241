/** What the fork server's reference semantics guarantee, request by request. */
module ForkProperties {
  import opened Base
  import opened ForkWire
  import opened ForkLookup
  import opened ForkSpec

  /** `n` acknowledgements. */
  function Acks(n: nat): (r: seq<Reply>)
    ensures |r| == n && forall i :: 0 <= i < n ==> r[i] == Byte(DONE)
  {
    if n == 0 then [] else Acks(n - 1) + [Byte(DONE)]
  }

  /** The input holds the frames `fs`, in order, from position `at` on. */
  predicate FramesAt(input: seq<Token>, at: nat, fs: seq<Frame>) {
    at + |fs| <= |input| && forall i :: 0 <= i < |fs| ==> input[at + i] == InFrame(fs[i])
  }

  // ---- handshake ----

  /**
   * INIT_PARALLEL_WORKER, a ClassLoader frame and a worker frame: the server
   * writes READY, DONE, DONE, READY and keeps the two frames.
   */
  lemma HandshakeAccepts(e: Env, s: Server, l: Frame, w: Frame)
    requires s.pos + 3 <= |e.input|
    requires e.input[s.pos] == InByte(Wire(INIT_PARALLEL_WORKER))
    requires e.input[s.pos + 1] == InFrame(l) && IsClassLoader(l)
    requires e.input[s.pos + 2] == InFrame(w)
    ensures Handshake(e, s) ==
      Step(true, (), s.(pos := s.pos + 3, loader := Some(l), worker := Some(w),
                        out := s.out + [Byte(READY), Byte(DONE), Byte(DONE), Byte(READY)]))
  {
  }

  /**
   * Any other command byte is not refused: one frame is read and
   * acknowledged, READY follows, and neither worker nor class loader is set.
   */
  lemma HandshakeOtherCommand(e: Env, s: Server, b: uint8, f: Frame)
    requires s.pos + 2 <= |e.input|
    requires e.input[s.pos] == InByte(b) && !IsOp(b, INIT_PARALLEL_WORKER)
    requires e.input[s.pos + 1] == InFrame(f)
    ensures Handshake(e, s) ==
      Step(true, (), s.(pos := s.pos + 2, out := s.out + [Byte(READY), Byte(DONE), Byte(READY)]))
  {
  }

  /** End of input instead of the command byte: READY, then FAILED_TO_START, and no request is read. */
  lemma HandshakeEof(e: Env, s: Server)
    requires s.pos == |e.input|
    ensures ProcessRequests(e, s) == s.(out := s.out + [Byte(READY), Byte(FAILED_TO_START)])
  {
  }

  /** INIT_PARALLEL_WORKER followed by something that is not a ClassLoader: the frame is acknowledged, then FAILED_TO_START. */
  lemma HandshakeNotClassLoader(e: Env, s: Server, f: Frame)
    requires s.pos + 2 <= |e.input|
    requires e.input[s.pos] == InByte(Wire(INIT_PARALLEL_WORKER))
    requires e.input[s.pos + 1] == InFrame(f) && !IsClassLoader(f)
    ensures ProcessRequests(e, s) ==
      s.(pos := s.pos + 2, out := s.out + [Byte(READY), Byte(DONE), Byte(FAILED_TO_START)])
  {
  }

  /** Whenever the handshake fails, FAILED_TO_START is the last byte written and the serving loop never runs. */
  lemma HandshakeFailureStops(e: Env, s: Server)
    requires s.pos <= |e.input|
    requires !Handshake(e, s).ok
    ensures ProcessRequests(e, s).out == Handshake(e, s).s.out + [Byte(FAILED_TO_START)]
    ensures ProcessRequests(e, s).pos == Handshake(e, s).s.pos
    ensures ProcessRequests(e, s).out[|ProcessRequests(e, s).out| - 1] == Byte(FAILED_TO_START)
  {
  }

  // ---- the serving loop ----

  /** EOF ends the loop and nothing further is written. */
  lemma ServeEof(e: Env, s: Server)
    requires s.pos == |e.input|
    ensures Serve(e, s) == s
  {
  }

  /** PING is answered by exactly one PING byte; the activity flag and timestamp are not touched. */
  lemma ServePing(e: Env, s: Server)
    requires s.pos < |e.input| && e.input[s.pos] == InByte(Wire(PING))
    ensures Serve(e, s) == Serve(e, s.(pos := s.pos + 1, out := s.out + [Byte(PING)]))
  {
  }

  /** Any byte other than PING and CALL ends the loop, and nothing is written for it. */
  lemma ServeUnexpected(e: Env, s: Server, b: uint8)
    requires s.pos < |e.input| && e.input[s.pos] == InByte(b)
    requires !IsOp(b, PING) && !IsOp(b, CALL)
    ensures Serve(e, s) == s.(pos := s.pos + 1)
  {
  }

  /** A CALL that ends in a reply lets the loop go on to the next request; any other CALL ends it. */
  lemma ServeCall(e: Env, s: Server)
    requires s.pos < |e.input| && e.input[s.pos] == InByte(Wire(CALL))
    ensures var c := Call(e, s.(pos := s.pos + 1));
      Serve(e, s) == if c.ok then Serve(e, c.s) else c.s
  {
  }

  /**
   * The loop leaves the server idle whatever happens in it, never changes the
   * worker or class loader, and only appends to the output.
   */
  lemma {:induction false} ServeKeepsIdle(e: Env, s: Server)
    requires s.pos <= |e.input| && !s.parsing
    ensures !Serve(e, s).parsing
    ensures Serve(e, s).worker == s.worker && Serve(e, s).loader == s.loader
    ensures s.out <= Serve(e, s).out
    decreases |e.input| - s.pos
  {
    var (c, s1) := ReadByte(e, s);
    if c.Got? {
      if IsOp(c.b, PING) {
        ServeKeepsIdle(e, Emit(s1, [Byte(PING)]));
      } else if IsOp(c.b, CALL) {
        var r := Call(e, s1);
        CallOnlyAppends(e, s1);
        if r.ok {
          ServeKeepsIdle(e, r.s);
        }
      }
    }
  }

  /** A call only appends to the output. */
  lemma CallOnlyAppends(e: Env, s: Server)
    requires s.pos <= |e.input|
    ensures s.out <= Call(e, s).s.out
  {
    var s1 := Mark(e, s, true);
    var name := ReadUtf(e, s1);
    if name.ok && name.s.worker.Some? {
      var m := FindMethod(name.s.worker.value.classes, name.value);
      if m.Some? {
        ReadArgsAppendsAcks(e, name.s, m.value.paramCount, []);
      }
    }
  }

  /** Reading frames only ever appends acknowledgements. */
  lemma {:induction false} ReadArgsAppendsAcks(e: Env, s: Server, n: nat, args: seq<Frame>)
    requires s.pos <= |e.input|
    ensures var r := ReadArgs(e, s, n, args);
      |s.out| <= |r.s.out| && r.s.out == s.out + Acks(|r.s.out| - |s.out|)
    decreases n
  {
    if n > 0 {
      var f := ReadObject(e, s);
      if f.ok {
        ReadArgsAppendsAcks(e, f.s, n - 1, args + [f.value.value]);
        var r := ReadArgs(e, f.s, n - 1, args + [f.value.value]);
        var k := |r.s.out| - |f.s.out|;
        assert s.out + [Byte(DONE)] + Acks(k) == s.out + Acks(k + 1) by {
          AcksCons(k);
        }
      } else {
        assert s.out + Acks(0) == s.out;
      }
    } else {
      assert s.out + Acks(0) == s.out;
    }
  }

  lemma {:induction false} AcksCons(k: nat)
    ensures [Byte(DONE)] + Acks(k) == Acks(k + 1)
  {
    if k > 0 {
      AcksCons(k - 1);
    }
  }

  // ---- CALL ----

  /** With `n` frames waiting, the argument loop reads exactly those `n` and acknowledges each with one DONE. */
  lemma {:induction false} ReadArgsExact(e: Env, s: Server, n: nat, args: seq<Frame>, fs: seq<Frame>)
    requires s.pos <= |e.input| && |fs| == n && FramesAt(e.input, s.pos, fs)
    ensures ReadArgs(e, s, n, args) == Step(true, args + fs, s.(pos := s.pos + n, out := s.out + Acks(n)))
    decreases n
  {
    if n > 0 {
      assert e.input[s.pos + 0] == InFrame(fs[0]);
      var s1 := Emit(s.(pos := s.pos + 1), [Byte(DONE)]);
      assert FramesAt(e.input, s1.pos, fs[1..]) by {
        forall i | 0 <= i < |fs[1..]| ensures e.input[s1.pos + i] == InFrame(fs[1..][i]) {
          assert e.input[s.pos + (i + 1)] == InFrame(fs[i + 1]);
        }
      }
      ReadArgsExact(e, s1, n - 1, args + [fs[0]], fs[1..]);
      assert args + [fs[0]] + fs[1..] == args + fs;
      AcksCons(n - 1);
      assert s1.out + Acks(n - 1) == s.out + Acks(n);
    } else {
      assert args + fs == args;
      assert s.out + Acks(0) == s.out;
    }
  }

  /**
   * A CALL for a method the worker has, followed by exactly as many frames
   * as that method has parameters: the name is read, each argument frame is
   * acknowledged, the method is invoked once with those frames, and the reply
   * is DONE, or ERROR and the fault frame; the reply ends the output, the
   * flag is down and both timestamps were taken.
   */
  lemma CallReadsArity(e: Env, s: Server, name: string, w: Frame, m: MethodDesc, fs: seq<Frame>)
    requires s.pos < |e.input| && e.input[s.pos] == InUtf(name)
    requires s.worker == Some(w) && FindMethod(w.classes, name) == Some(m)
    requires |fs| == m.paramCount && FramesAt(e.input, s.pos + 1, fs)
    ensures var o := e.outcome(Invocation(s.invocations, w, m, fs));
      Call(e, s) == Step(!o.Fatal?, (),
        s.(pos := s.pos + 1 + m.paramCount, out := s.out + Acks(m.paramCount) + Answer(o),
           parsing := false, since := e.clock(s.readings + 1), readings := s.readings + 2,
           invocations := s.invocations + 1))
  {
    var s2 := Mark(e, s, true).(pos := s.pos + 1);
    ReadArgsExact(e, s2, m.paramCount, [], fs);
    assert [] + fs == fs;
  }

  /** Normal completion is answered by DONE; an exception thrown by the method by ERROR and its fault frame. */
  lemma AnswerShape(o: Outcome)
    ensures o.Returned? ==> Answer(o) == [OutByte(0)]
    ensures o.Threw? ==> Answer(o) == [OutByte(255), FaultFrame(o.cause)]
    ensures o.Threw? ==> FaultFrame(o.cause).message == o.cause.message
    ensures o.Threw? && !o.cause.serializable ==> FaultFrame(o.cause).className == IOExceptionClass
  {
  }

  /** A name no method has: the CALL fails after reading the name, writes nothing, and the loop ends. */
  lemma CallUnresolved(e: Env, s: Server, name: string)
    requires s.pos < |e.input| && e.input[s.pos] == InUtf(name)
    requires s.worker.Some? && FindMethod(s.worker.value.classes, name).None?
    ensures !Call(e, s).ok && Call(e, s).s.out == s.out && Call(e, s).s.pos == s.pos + 1
    ensures Call(e, s).s.invocations == s.invocations
  {
  }

  /** With no worker (a handshake that did not start with INIT_PARALLEL_WORKER) every CALL fails the same way. */
  lemma CallWithoutWorker(e: Env, s: Server, name: string)
    requires s.pos < |e.input| && e.input[s.pos] == InUtf(name)
    requires s.worker.None?
    ensures !Call(e, s).ok && Call(e, s).s.out == s.out && Call(e, s).s.pos == s.pos + 1
  {
  }

  /**
   * Whatever the input, the clock and the methods invoked, a run of
   * processRequests from a fresh server ends with the activity flag down.
   */
  lemma RunEndsIdle(e: Env)
    ensures !ProcessRequests(e, Initial(e)).parsing
  {
    var h := Handshake(e, Initial(e));
    if h.ok {
      ServeKeepsIdle(e, h.s);
    }
  }

  // ---- a complete session ----

  const EchoName: string := "echo"

  /**
   * A complete session: handshake with class loader `l` and worker `w`, one
   * CALL of a one-parameter method that returns normally, then EOF. The
   * output is READY, DONE, DONE, READY for the handshake, then DONE for the
   * argument frame and DONE for the reply.
   */
  lemma EchoSession(e: Env, l: Frame, w: Frame, m: MethodDesc, arg: Frame)
    requires IsClassLoader(l) && FindMethod(w.classes, EchoName) == Some(m) && m.paramCount == 1
    requires e.input == [InByte(Wire(INIT_PARALLEL_WORKER)), InFrame(l), InFrame(w),
                         InByte(Wire(CALL)), InUtf(EchoName), InFrame(arg)]
    requires e.outcome(Invocation(0, w, m, [arg])) == Returned
    ensures ProcessRequests(e, Initial(e)).out ==
      [Byte(READY), Byte(DONE), Byte(DONE), Byte(READY), Byte(DONE), Byte(DONE)]
    ensures !ProcessRequests(e, Initial(e)).parsing
  {
    var s0 := Initial(e);
    HandshakeAccepts(e, s0, l, w);
    var s1 := Handshake(e, s0).s;
    EchoServe(e, s1, w, m, arg);
  }

  /** The loop part of the session above, from the state the handshake leaves. */
  lemma EchoServe(e: Env, s1: Server, w: Frame, m: MethodDesc, arg: Frame)
    requires FindMethod(w.classes, EchoName) == Some(m) && m.paramCount == 1
    requires |e.input| == 6 && e.input[3] == InByte(Wire(CALL))
    requires e.input[4] == InUtf(EchoName) && e.input[5] == InFrame(arg)
    requires s1.pos == 3 && s1.worker == Some(w) && s1.invocations == 0
    requires e.outcome(Invocation(0, w, m, [arg])) == Returned
    ensures Serve(e, s1).out == s1.out + [Byte(DONE), Byte(DONE)]
    ensures !Serve(e, s1).parsing
  {
    ServeCall(e, s1);
    assert FramesAt(e.input, 5, [arg]);
    CallReadsArity(e, s1.(pos := 4), EchoName, w, m, [arg]);
    assert Acks(1) == [Byte(DONE)];
    var c := Call(e, s1.(pos := 4));
    assert c.ok && c.s.pos == 6 && !c.s.parsing;
    ServeEof(e, c.s);
  }

}
