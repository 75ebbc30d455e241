# Fork-server protocol and ZAPI selection helpers, modelled in Dafny

This project models two parts of the anax test framework.

The first is the child-process side of the fork server (`ForkServer`). It is a byte-oriented RPC channel over the child's stdin and stdout:

- **Handshake.** The server writes READY, reads a command byte, reads a class-loader frame and then a worker frame, and writes READY again. If anything fails it writes FAILED_TO_START instead.
- **Serving loop.** The server reads one command byte at a time. EOF ends the loop. PING is echoed. CALL is dispatched. Any other byte ends the loop without a reply.
- **CALL.** The server reads a method name and resolves it by name only, searching interfaces before class methods at each level of the class chain. It reads one argument frame per parameter, invokes the method and replies DONE, or ERROR followed by a fault frame. The `parsing` flag is raised around the call and lowered on every path.
- **Acknowledgements.** Each frame read is acknowledged with one DONE byte.

The second part is the record-selection logic of the Zephyr ZAPI client (`ZephyrZAPIService`). Given lists the REST API has already returned, it picks a test step by order, a project by label, a cycle by name or an execution by a case-insensitive attribute search. It also builds the JSON bodies of the update requests.

Layout:

- `base.dfy`: Option and Result.
- `fork_wire.dfy`: opcodes, input tokens, replies, frames, class chains, faults and the environment.
- `fork_lookup.dfy`: `getMethod` as functions, with the lemma that it finds the first match in search order.
- `fork_spec.dfy`: reference semantics of every server operation, as functions on the server's fields.
- `fork_properties.dfy`: lemmas about those functions, covering the exact bytes per request, arity, the idle flag and a complete session.
- `fork_server.dfy`: class `ForkServer`, with the source's fields and imperative methods. Each method is proved equal to its reference function.
- `zephyr_zapi.dfy`: the selection helpers and the request-body builders.

How the environment is modelled:

- The parent's bytes are a `seq<Token>` read through a cursor. A token is a command byte, a `writeUTF` string or an object frame. End of input is `read() == -1`. A token of the wrong kind where a read expects another counts as a failed read.
- Everything written is a `seq<Reply>` of wire bytes and fault frames. Opcodes are Java bytes, and ERROR (-1) goes out as 255.
- `System.currentTimeMillis()` is the function `clock`, indexed by how many readings have been taken.
- `Method.invoke` is the function `outcome`, indexed by the invocation's sequence number, target, method and arguments.
- An object frame carries its class chain: the runtime class first, then its superclasses. Each class lists its interfaces' methods and its own methods. `instanceof ClassLoader` holds when `java.lang.ClassLoader` is on that chain.

Four behaviours of the code that are easy to miss:

- A first command byte other than INIT_PARALLEL_WORKER does not fail the handshake. The server still reads one frame, acknowledges it and replies READY. The worker stays null, so every later CALL fails (ForkServer.java:170-182).
- Argument frames are acknowledged with DONE like every other frame (ForkServer.java:262). A one-argument call that returns normally writes a DONE for the argument frame and a DONE for the reply (`ForkProperties.EchoSession`).
- A name that resolves to no method does not get an ERROR reply. The null method makes `call` throw, and the serving loop ends (ForkServer.java:192-194, 155-157).
- No supervisor runs. The three timeouts are stored by the constructor and never read (ForkServer.java:109-121).

## Model

| member | source | states |
|---|---|---|
| ForkWire.OpcodesDistinct | anax-core/src/main/java/org/anax/framework/util/parallel/ForkServer.java:34-49 | the eight opcodes are pairwise distinct Java bytes, they go out as pairwise distinct wire bytes, and ERROR goes out as 255 |
| ForkWire.WireInjective | anax-core/src/main/java/org/anax/framework/util/parallel/ForkServer.java:34-49 | `writeByte` maps distinct opcodes to distinct octets |
| ForkWire.Wire | anax-core/src/main/java/org/anax/framework/util/parallel/ForkServer.java:132 | `writeByte` keeps the low eight bits, and non-negative opcodes go out unchanged |
| ForkWire.IsOp | anax-core/src/main/java/org/anax/framework/util/parallel/ForkServer.java:143-152 | a byte read is an opcode exactly when the opcode is non-negative and the byte is its wire form, so ERROR (-1) is never recognised in a read |
| ForkWire.IsClassLoader | anax-core/src/main/java/org/anax/framework/util/parallel/ForkServer.java:173 | `instanceof ClassLoader` needs a non-empty class chain, and holds when the runtime class is `java.lang.ClassLoader` itself |
| ForkWire.FaultFrame | anax-core/src/main/java/org/anax/framework/util/parallel/ForkServer.java:204-212 | the fault frame is the cause itself if it is serializable, otherwise an IOException; either way it carries the cause's message and stack trace |
| ForkLookup.FindIn | anax-core/src/main/java/org/anax/framework/util/parallel/ForkServer.java:234-238 | one scan of a method list returns a method of that list with the requested name, and returns null exactly when no method there has the name |
| ForkLookup.FindInInterfaces | anax-core/src/main/java/org/anax/framework/util/parallel/ForkServer.java:227-233 | a match over a class's interfaces has the requested name and belongs to one of them; there is none exactly when no interface has a method of that name |
| ForkLookup.FindInLevel | anax-core/src/main/java/org/anax/framework/util/parallel/ForkServer.java:226-239 | a match at one class level has the requested name and is one of the class's own methods or an interface's; there is none exactly when neither the interfaces nor the class have the name |
| ForkLookup.FindMethod | anax-core/src/main/java/org/anax/framework/util/parallel/ForkServer.java:223-243 | a method resolved anywhere on the class chain has the requested name |
| ForkLookup.FindMethodIsFlat | anax-core/src/main/java/org/anax/framework/util/parallel/ForkServer.java:223-243 | the nested walk over classes, interfaces and methods finds what one scan of the flattened search order finds |
| ForkLookup.FindMethodFirstMatch | anax-core/src/main/java/org/anax/framework/util/parallel/ForkServer.java:223-243 | the resolved method is the one at the first position in search order with that name; the result is null exactly when no method in the chain has the name |
| ForkLookup.InterfaceBeforeClass | anax-core/src/main/java/org/anax/framework/util/parallel/ForkServer.java:226-238 | a match in one of the runtime class's interfaces wins over a same-named method of the class itself |
| ForkSpec.Initial | anax-core/src/main/java/org/anax/framework/util/parallel/ForkServer.java:109-121 | a fresh server is at the start of input with no output, no worker or class loader, `parsing` false, `since` the first clock reading and no invocations yet |
| ForkSpec.Mark | anax-core/src/main/java/org/anax/framework/util/parallel/ForkServer.java:187-190 | raising or lowering the activity flag stores the next clock reading in `since` and changes nothing else |
| ForkSpec.ReadByte | anax-core/src/main/java/org/anax/framework/util/parallel/ForkServer.java:143-145 | `read()` is -1 exactly at the end of input; it yields a byte exactly when a command byte is next and then consumes it; any other read changes nothing |
| ForkSpec.ReadUtf | anax-core/src/main/java/org/anax/framework/util/parallel/ForkServer.java:192 | `readUTF()` succeeds exactly when a string is next, yields that string and consumes it; a failed read changes nothing |
| ForkSpec.ReadObject | anax-core/src/main/java/org/anax/framework/util/parallel/ForkServer.java:254-266 | `readObject` succeeds exactly when a frame is next; it consumes that frame and writes exactly one DONE byte; a failed read writes nothing and changes nothing |
| ForkSpec.ReadArgs | anax-core/src/main/java/org/anax/framework/util/parallel/ForkServer.java:193-197 | the argument loop changes only the cursor and the output; on success it yields exactly n more arguments after those already read |
| ForkSpec.Invoke | anax-core/src/main/java/org/anax/framework/util/parallel/ForkServer.java:199 | the invocation runs only while `parsing` is true and `since` holds the reading taken when the flag went up, and it takes the next invocation number |
| ForkSpec.Answer | anax-core/src/main/java/org/anax/framework/util/parallel/ForkServer.java:198-212 | an escaping exception writes nothing; otherwise the reply starts with DONE or ERROR, and it is two items long exactly when the method threw |
| ForkSpec.Call | anax-core/src/main/java/org/anax/framework/util/parallel/ForkServer.java:186-221 | on every path `parsing` is false afterwards, the clock was read twice and `since` holds the second reading, and worker and class loader are unchanged |
| ForkSpec.Handshake | anax-core/src/main/java/org/anax/framework/util/parallel/ForkServer.java:161-184 | the handshake leaves the activity flag and timestamp alone and only moves the cursor forward |
| ForkSpec.Serve | anax-core/src/main/java/org/anax/framework/util/parallel/ForkServer.java:141-157 | the serving loop terminates and only moves the cursor forward |
| ForkSpec.ProcessRequests | anax-core/src/main/java/org/anax/framework/util/parallel/ForkServer.java:124-159 | the handshake followed by FAILED_TO_START or by the serving loop stays within the input |
| ForkProperties.HandshakeAccepts | anax-core/src/main/java/org/anax/framework/util/parallel/ForkServer.java:161-184 | INIT_PARALLEL_WORKER, a ClassLoader frame and a worker frame produce exactly READY, DONE, DONE, READY and leave `classLoader` and `worker` set to the two frames |
| ForkProperties.HandshakeOtherCommand | anax-core/src/main/java/org/anax/framework/util/parallel/ForkServer.java:170-183 | any other first command still reads one frame and produces READY, DONE, READY, with worker and class loader left unset |
| ForkProperties.HandshakeEof | anax-core/src/main/java/org/anax/framework/util/parallel/ForkServer.java:165-167 | EOF at the command byte produces READY then FAILED_TO_START and nothing else |
| ForkProperties.HandshakeNotClassLoader | anax-core/src/main/java/org/anax/framework/util/parallel/ForkServer.java:172-180 | INIT_PARALLEL_WORKER followed by a frame that is not a ClassLoader produces READY, DONE, FAILED_TO_START and reads nothing more |
| ForkProperties.HandshakeFailureStops | anax-core/src/main/java/org/anax/framework/util/parallel/ForkServer.java:126-139 | on any handshake failure FAILED_TO_START is the last byte written and no request is read |
| ForkProperties.ServeEof | anax-core/src/main/java/org/anax/framework/util/parallel/ForkServer.java:143-145 | EOF ends the loop with nothing written |
| ForkProperties.ServePing | anax-core/src/main/java/org/anax/framework/util/parallel/ForkServer.java:146-147 | PING writes exactly one PING byte, leaves everything else (including `parsing` and `since`) untouched, and the loop goes on |
| ForkProperties.ServeUnexpected | anax-core/src/main/java/org/anax/framework/util/parallel/ForkServer.java:150-152 | any byte other than PING or CALL ends the loop and nothing is written for it |
| ForkProperties.ServeCall | anax-core/src/main/java/org/anax/framework/util/parallel/ForkServer.java:148-153 | after a CALL that replied, the loop goes on to the next request; after a CALL that threw, it ends |
| ForkProperties.ServeKeepsIdle | anax-core/src/main/java/org/anax/framework/util/parallel/ForkServer.java:141-157 | whatever the requests, the loop ends with `parsing` false, worker and class loader unchanged, and the earlier output as a prefix of the final output |
| ForkProperties.CallOnlyAppends | anax-core/src/main/java/org/anax/framework/util/parallel/ForkServer.java:186-221 | a call only appends to the output |
| ForkProperties.ReadArgsAppendsAcks | anax-core/src/main/java/org/anax/framework/util/parallel/ForkServer.java:195-197 | the argument loop writes nothing but DONE acknowledgements |
| ForkProperties.AcksCons | anax-core/src/main/java/org/anax/framework/util/parallel/ForkServer.java:262 | one more acknowledgement in front of k acknowledgements is k+1 acknowledgements |
| ForkProperties.ReadArgsExact | anax-core/src/main/java/org/anax/framework/util/parallel/ForkServer.java:193-197 | with n frames waiting, the argument loop reads exactly those n, in order, and writes exactly n DONE bytes |
| ForkProperties.CallReadsArity | anax-core/src/main/java/org/anax/framework/util/parallel/ForkServer.java:186-214 | a CALL for a resolvable method reads the name and exactly as many frames as the method has parameters; it invokes the method once with those frames and writes n acknowledgements followed by the reply; afterwards `parsing` is false and `since` is fresh |
| ForkProperties.AnswerShape | anax-core/src/main/java/org/anax/framework/util/parallel/ForkServer.java:198-212 | normal completion replies DONE (0); a thrown exception replies ERROR (255) and a fault frame with the same message, which is an IOException when the cause is not serializable |
| ForkProperties.CallUnresolved | anax-core/src/main/java/org/anax/framework/util/parallel/ForkServer.java:192-194 | a name no method has makes the CALL throw after the name is read; nothing is written and nothing is invoked |
| ForkProperties.CallWithoutWorker | anax-core/src/main/java/org/anax/framework/util/parallel/ForkServer.java:223-224 | with a null worker, the CALL throws after reading the name and writes nothing |
| ForkProperties.RunEndsIdle | anax-core/src/main/java/org/anax/framework/util/parallel/ForkServer.java:124-159 | for every input, clock and outcome, a run from a fresh server ends with `parsing` false |
| ForkProperties.EchoSession | anax-core/src/main/java/org/anax/framework/util/parallel/ForkServer.java:124-221 | handshake, one call of a one-parameter method that returns normally, then EOF: the whole output is READY, DONE, DONE, READY, DONE, DONE, and the server ends idle |
| ForkProperties.Acks | anax-core/src/main/java/org/anax/framework/util/parallel/ForkServer.java:262 | n acknowledgements are n DONE bytes |
| Parallel.ForkServer.constructor | anax-core/src/main/java/org/anax/framework/util/parallel/ForkServer.java:109-121 | the server starts at the start of input with no output, no worker or class loader, `parsing` false, `since` the first clock reading, and the three timeouts stored |
| Parallel.ForkServer.CurrentTimeMillis | anax-core/src/main/java/org/anax/framework/util/parallel/ForkServer.java:189 | returns the next clock reading and changes nothing else |
| Parallel.ForkServer.SetActivity | anax-core/src/main/java/org/anax/framework/util/parallel/ForkServer.java:187-190 | sets `parsing` and refreshes `since` from the clock |
| Parallel.ForkServer.WriteByte | anax-core/src/main/java/org/anax/framework/util/parallel/ForkServer.java:147 | appends exactly one wire byte to the output |
| Parallel.ForkServer.Read | anax-core/src/main/java/org/anax/framework/util/parallel/ForkServer.java:143 | `input.read()`, as `ForkSpec.ReadByte` |
| Parallel.ForkServer.ReadUTF | anax-core/src/main/java/org/anax/framework/util/parallel/ForkServer.java:192 | `input.readUTF()`, as `ForkSpec.ReadUtf` |
| Parallel.ForkServer.ReadObject | anax-core/src/main/java/org/anax/framework/util/parallel/ForkServer.java:254-266 | reads one frame and acknowledges it, as `ForkSpec.ReadObject` |
| Parallel.ForkServer.GetMethod | anax-core/src/main/java/org/anax/framework/util/parallel/ForkServer.java:223-243 | the three nested loops with early return give exactly `FindMethod`, so the first match in search order, and a found method has the requested name |
| Parallel.ForkServer.ReadArguments | anax-core/src/main/java/org/anax/framework/util/parallel/ForkServer.java:193-197 | the for loop over the parameters gives exactly `ForkSpec.ReadArgs` |
| Parallel.ForkServer.InvokeAndReply | anax-core/src/main/java/org/anax/framework/util/parallel/ForkServer.java:198-214 | invoked only while `parsing` is true and `since` is the reading taken when it went up; writes DONE, or ERROR and the fault frame, or nothing for an escaping exception |
| Parallel.ForkServer.Call | anax-core/src/main/java/org/anax/framework/util/parallel/ForkServer.java:186-221 | `call` gives exactly `ForkSpec.Call` and leaves `parsing` false |
| Parallel.ForkServer.InitializeWorkerAndLoader | anax-core/src/main/java/org/anax/framework/util/parallel/ForkServer.java:161-184 | the handshake gives exactly `ForkSpec.Handshake` |
| Parallel.ForkServer.ProcessRequests | anax-core/src/main/java/org/anax/framework/util/parallel/ForkServer.java:124-159 | the `while (true)` loop with its exits gives exactly `ForkSpec.ProcessRequests` |
| ZephyrZapi.Succ32 | anax-plugins/anax-zapi-reporter/src/main/java/org/anax/framework/reporting/service/ZephyrZAPIService.java:256 | `ordering+1` on a Java int is congruent to ordering+1 modulo 2^32, and is exact below Integer.MAX_VALUE |
| ZephyrZapi.FirstWhere | anax-plugins/anax-zapi-reporter/src/main/java/org/anax/framework/reporting/service/ZephyrZAPIService.java:67 | `filter(..).findFirst()` stops at an element that passes the filter, and no earlier element passes it |
| ZephyrZapi.DigitChar | anax-plugins/anax-zapi-reporter/src/main/java/org/anax/framework/reporting/service/ZephyrZAPIService.java:257 | each digit is written as the character of that digit |
| ZephyrZapi.NaturalString | anax-plugins/anax-zapi-reporter/src/main/java/org/anax/framework/reporting/service/ZephyrZAPIService.java:257 | the decimal text of a natural number is a non-empty string of digits |
| ZephyrZapi.NaturalStringValue | anax-plugins/anax-zapi-reporter/src/main/java/org/anax/framework/reporting/service/ZephyrZAPIService.java:257 | the digits written for a natural number denote that number |
| ZephyrZapi.DecimalString | anax-plugins/anax-zapi-reporter/src/main/java/org/anax/framework/reporting/service/ZephyrZAPIService.java:257 | `String.valueOf` of an id is never empty, so "" can only mean "not found"; a negative id starts with '-' |
| ZephyrZapi.DecimalStringValue | anax-plugins/anax-zapi-reporter/src/main/java/org/anax/framework/reporting/service/ZephyrZAPIService.java:257 | the text `String.valueOf` writes for an id, sign included, denotes that id |
| ZephyrZapi.DecimalStringInjective | anax-plugins/anax-zapi-reporter/src/main/java/org/anax/framework/reporting/service/ZephyrZAPIService.java:257 | distinct ids give distinct texts |
| ZephyrZapi.LowerChar | anax-plugins/anax-zapi-reporter/src/main/java/org/anax/framework/reporting/service/ZephyrZAPIService.java:247 | an upper-case ASCII letter becomes its lower-case letter, any other character is kept, and no upper-case letter comes out |
| ZephyrZapi.Lower | anax-plugins/anax-zapi-reporter/src/main/java/org/anax/framework/reporting/service/ZephyrZAPIService.java:247 | lowercasing keeps the length, leaves no upper-case letter, keeps every other character in place and moves each upper-case letter to its lower-case form |
| ZephyrZapi.LowerIdempotent | anax-plugins/anax-zapi-reporter/src/main/java/org/anax/framework/reporting/service/ZephyrZAPIService.java:249 | lowercasing twice is lowercasing once |
| ZephyrZapi.Contains | anax-plugins/anax-zapi-reporter/src/main/java/org/anax/framework/reporting/service/ZephyrZAPIService.java:249 | a contained string is no longer than the text; the empty string and any prefix are contained |
| ZephyrZapi.ContainsIff | anax-plugins/anax-zapi-reporter/src/main/java/org/anax/framework/reporting/service/ZephyrZAPIService.java:249 | `contains` holds exactly when the substring occurs at some position |
| ZephyrZapi.TestStepIdViaOrder | anax-plugins/anax-zapi-reporter/src/main/java/org/anax/framework/reporting/service/ZephyrZAPIService.java:254-258 | the result is "" exactly when no step has orderId ordering+1; otherwise it is the id of the first such step |
| ZephyrZapi.ProjectId | anax-plugins/anax-zapi-reporter/src/main/java/org/anax/framework/reporting/service/ZephyrZAPIService.java:65-71 | the value of the first option whose label equals the project name exactly, and "" when none does |
| ZephyrZapi.NamedOtherwise | anax-plugins/anax-zapi-reporter/src/main/java/org/anax/framework/reporting/service/ZephyrZAPIService.java:54 | an entry the filter skips has a name |
| ZephyrZapi.CycleIdByName | anax-plugins/anax-zapi-reporter/src/main/java/org/anax/framework/reporting/service/ZephyrZAPIService.java:53-56 | the key of the first entry named cycleName; null exactly when every entry has another name; a NullPointerException exactly when an entry without a name comes before any match (the same filter is used at line 82-83) |
| ZephyrZapi.Matches | anax-plugins/anax-zapi-reporter/src/main/java/org/anax/framework/reporting/service/ZephyrZAPIService.java:249 | an object matches exactly when it has the attribute and the lowercased label value occurs somewhere in its lowercased value |
| ZephyrZapi.SelectByAttribute | anax-plugins/anax-zapi-reporter/src/main/java/org/anax/framework/reporting/service/ZephyrZAPIService.java:242-251 | a JSONException exactly when some object lacks the attribute; otherwise the first object whose lowercased attribute contains the lowercased label, or a NoSuchElementException exactly when none does |
| ZephyrZapi.SelectIgnoresLabelCase | anax-plugins/anax-zapi-reporter/src/main/java/org/anax/framework/reporting/service/ZephyrZAPIService.java:247-249 | lowercasing the label first does not change what is selected |
| ZephyrZapi.FilterDataByAttributeValue | anax-plugins/anax-zapi-reporter/src/main/java/org/anax/framework/reporting/service/ZephyrZAPIService.java:242-251 | the two loops return exactly `SelectByAttribute` |
| ZephyrZapi.IssueExecutionIdViaAttributeValue | anax-plugins/anax-zapi-reporter/src/main/java/org/anax/framework/reporting/service/ZephyrZAPIService.java:112-119 | "" when no execution matches or one lacks the attribute; any other result is the "id" of a matching execution |
| ZephyrZapi.UpdateTestStepStatusBody | anax-plugins/anax-zapi-reporter/src/main/java/org/anax/framework/reporting/service/ZephyrZAPIService.java:155-159 | "status" is always the status; "comment" is present exactly when the status is not the pass code and the description is neither null nor empty, and then it is the description; there are no other keys |
| ZephyrZapi.UpdateTestExecutionCommentBody | anax-plugins/anax-zapi-reporter/src/main/java/org/anax/framework/reporting/service/ZephyrZAPIService.java:219-221 | the body is exactly {"comment": comment} |
| ZephyrZapi.UpdateTestExecutionBugsBody | anax-plugins/anax-zapi-reporter/src/main/java/org/anax/framework/reporting/service/ZephyrZAPIService.java:232-235 | the body is exactly {"defectList": bugs, "updateDefectList": "true"} |

## Left out

- `ForkServer.main` (ForkServer.java:69-83) is left out. It parses arguments, installs the URL stream-handler factory and redirects System.in and System.out, all of which is process I/O.
- The idle and hang supervisor is not modelled because the file has none. The three timeouts are stored by the constructor and never read, and `since` is kept only as a clock reading.
- `synchronized (lock)` is modelled as plain field updates, because the server is single-threaded here.
- Java serialization is abstracted. `ForkObjectInputStream` is not part of this model: a frame is one token, and its length prefix and byte layout are not modelled. A send of the original fault that fails half-way is taken to write nothing of it.
- Bytes are abstracted too. A string or frame met where a command byte is expected counts as a failed read, not as the first byte of that payload.
- `ForkProxy.init` (ForkServer.java:257-259) is a foreign call and is left out. So is `Thread.setContextClassLoader` (line 175), and so are the class loaders passed to `readObject`.
- Reflective `Method.invoke` becomes the outcome function. Exceptions other than InvocationTargetException are the single outcome `Fatal`. Argument types are not checked against parameter types; a mismatch is one way to get `Fatal`.
- Each level's method lists are given as data. The model does not derive that `Class.getMethods()` already includes the public methods a class inherits.
- `Class.getMethods()` returns its methods in no particular order, so which of several same-named overloads `getMethod` picks depends on the JVM. The model takes each list's order as given.
- `printStackTrace`, `System.err` and flushing are left out. Nothing is buffered in the model, so a flush has nothing to do.
- A failed `writeByte` or `flush` is not modelled: the output log accepts every write. So the handler for a failed FAILED_TO_START write (ForkServer.java:134-137) is not modelled either.
- The RESOURCE opcode is declared and never used, so only `OpcodesDistinct` mentions it.
- The REST calls of `ZephyrZAPIService` (`restTemplate`, headers, multipart attachments, `getVersionId`, `versionResolver`) are left out. So are `Thread.sleep` and logging. Each helper takes the list the request would have returned. `Cycles` and its `getContents` are not part of this model: the cycle map is given as a sequence of entries in iteration order.
- Lower: the model lowercases ASCII letters only. Java's `toLowerCase` is locale-sensitive and covers all of Unicode.
- TestStepIdViaOrder: `TestStepExecution` is not part of this model. Its `orderId` is taken to be a non-null Integer and its id an integral value. A null orderId, which would throw and make `getTestStepExecutionId` return "", is not modelled.
- ProjectId: option labels are taken to be non-null. A null label would throw a NullPointerException, which is not modelled.
- SelectByAttribute: attribute values are strings. The case where `getString` rejects a value that is not a string is not modelled, and neither are the JSON parsing of the response and the `executions` cast (line 114).
- UpdateTestStepStatusBody: the status is taken to be non-null. The pass code is a parameter; its configured default is "1".
- UpdateTestStepStatusBody: a null `testMethod` is not modelled. When the status is not the pass code, `testMethod.getDescription()` then throws a NullPointerException (line 158). The model takes the description as given.
- FilterDataByAttributeValue: a null `labelValue` is not modelled. On a non-empty array `labelValue.toLowerCase()` then throws a NullPointerException (line 249), which `getIssueExecutionIdViaAttributeValue` turns into "" (lines 115-118).
- The search attribute is a parameter; its configured default is "label".
- `AnaxTestAnnotationProcessor`, `TestGoogle1`, `CycleInfo` and `AnaxAfterTestStep` are not part of the model. They hold no protocol or selection logic.
