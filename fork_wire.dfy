/**
 * The vocabulary of the fork-server channel: the opcode bytes, the tokens the
 * server reads from its input, the replies it writes to its output, and the
 * abstract objects (frames) that travel as serialized payloads.
 */
module ForkWire {
  import opened Base

  /** A Java `byte`. */
  newtype int8 = x: int | -128 <= x < 128

  /** An unsigned octet, as returned by `InputStream.read()` and written on the wire. */
  newtype uint8 = x: int | 0 <= x < 256

  const ERROR: int8 := -1
  const DONE: int8 := 0
  const CALL: int8 := 1
  const PING: int8 := 2
  const RESOURCE: int8 := 3
  const READY: int8 := 4
  const FAILED_TO_START: int8 := 5
  const INIT_PARALLEL_WORKER: int8 := 7

  /** Every opcode the server declares. */
  const Opcodes: seq<int8> := [ERROR, DONE, CALL, PING, RESOURCE, READY, FAILED_TO_START, INIT_PARALLEL_WORKER]

  /** `writeByte(op)` puts the low eight bits of the opcode on the wire. */
  function Wire(op: int8): (b: uint8)
    ensures b as int % 256 == op as int % 256
    ensures op >= 0 ==> b as int == op as int
  {
    (op as int % 256) as uint8
  }

  /** `input.read()` yields a value in 0..255; Java compares it with an opcode after widening both to int. */
  predicate IsOp(b: uint8, op: int8)
    ensures IsOp(b, op) <==> op >= 0 && b == Wire(op)
  {
    b as int == op as int
  }

  /** Two distinct Java bytes are written as two distinct wire bytes. */
  lemma WireInjective(a: int8, b: int8)
    requires a != b
    ensures Wire(a) != Wire(b)
  {
  }

  /** The opcodes are pairwise distinct values, and so are the bytes they are written as. */
  lemma OpcodesDistinct()
    ensures forall i, j :: 0 <= i < j < |Opcodes| ==> Opcodes[i] != Opcodes[j]
    ensures forall i, j :: 0 <= i < j < |Opcodes| ==> Wire(Opcodes[i]) != Wire(Opcodes[j])
    ensures Wire(ERROR) == 255
  {
    forall i, j | 0 <= i < j < |Opcodes| ensures Wire(Opcodes[i]) != Wire(Opcodes[j]) {
      WireInjective(Opcodes[i], Opcodes[j]);
    }
  }

  /** A method as `Class.getMethods()` reports it: its name and its number of parameters. */
  datatype MethodDesc = MethodDesc(name: string, paramCount: nat)

  /** An interface a class implements directly, with the methods `getMethods()` returns for it. */
  datatype Interface = Interface(name: string, methods: seq<MethodDesc>)

  /** One class of an object's superclass chain. */
  datatype Level = Level(name: string, interfaces: seq<Interface>, methods: seq<MethodDesc>)

  /**
   * A deserialized object: its runtime class followed by its superclasses
   * (`getClass()`, then `getSuperclass()` until null), and an identity that
   * stands for the rest of its serialized state.
   */
  datatype Frame = Frame(classes: seq<Level>, id: nat)

  const ClassLoaderClass: string := "java.lang.ClassLoader"

  /** `object instanceof ClassLoader`: ClassLoader is a class, so it must be on the superclass chain. */
  predicate IsClassLoader(f: Frame)
    ensures IsClassLoader(f) ==> |f.classes| > 0
    ensures |f.classes| > 0 && f.classes[0].name == ClassLoaderClass ==> IsClassLoader(f)
  {
    exists i :: 0 <= i < |f.classes| && f.classes[i].name == ClassLoaderClass
  }

  /** What the parent has sent: a command byte, a `writeUTF` string, or a size-prefixed object frame. */
  datatype Token = InByte(b: uint8) | InUtf(s: string) | InFrame(f: Frame)

  /** A throwable raised by the invoked worker method. */
  datatype Fault = Fault(className: string, message: Option<string>, stackTrace: seq<string>, serializable: bool)

  /** What the server writes: one byte, or one serialized fault frame. */
  datatype Reply = OutByte(b: uint8) | OutFault(className: string, message: Option<string>, stackTrace: seq<string>)

  const IOExceptionClass: string := "java.io.IOException"

  /**
   * The fault frame sent after ERROR: the cause itself when it is
   * serializable, otherwise an IOException with the cause's message and stack trace.
   */
  function FaultFrame(f: Fault): (r: Reply)
    ensures r.OutFault? && r.message == f.message && r.stackTrace == f.stackTrace
    ensures r.className == (if f.serializable then f.className else IOExceptionClass)
  {
    if f.serializable then OutFault(f.className, f.message, f.stackTrace)
    else OutFault(IOExceptionClass, f.message, f.stackTrace)
  }

  /** One reflective invocation, numbered from 0 in the order the server performs them. */
  datatype Invocation = Invocation(seqNo: nat, target: Frame, callee: MethodDesc, args: seq<Frame>)

  /**
   * How `method.invoke` ends: normally, by an exception the method threw
   * (an InvocationTargetException), or by any other exception, which escapes `call`.
   */
  datatype Outcome = Returned | Threw(cause: Fault) | Fatal

  /**
   * Everything the server cannot see into: the bytes the parent sends, the
   * successive readings of `System.currentTimeMillis()`, and the behaviour of
   * the worker's methods.
   */
  datatype Env = Env(input: seq<Token>, clock: nat -> int, outcome: Invocation -> Outcome)
}
