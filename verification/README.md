# Bitcoin Script interpreter — Dafny model

A model of a small Bitcoin Script interpreter written in Rust. Its core is in three files:

- `src/stack.rs` is the data stack: a list of byte strings. Items are read as script numbers or as booleans only when popped or inspected.
- `src/interpreter.rs` is the engine. It walks the decoded instruction stream once, from left to right. Each instruction pushes a literal, pushes a constant, aborts on OP_RETURN, or runs OP_ADD or OP_EQUAL. The run stops at the first error. A run that reaches the end is valid when the top item reads as true.
- `src/lib.rs` holds the entry points. They join the unlocking script (script sig) and the locking script (script pubkey) into one program and run it on a fresh interpreter.

The engine depends on the script-number codec of the `bitcoin` crate, modelled here as pure functions:

- `write_scriptint` is modelled by `ScriptNum.Encode`.
- `read_scriptint_non_minimal` is modelled by `ScriptNum.DecodeNonMinimal`. It accepts at most 4 bytes.
- `read_scriptbool` is modelled by `ScriptNum.ReadBool`.

The encoding stores the magnitude in little-endian order. The sign is the top bit of the last byte, and zero is the empty string.

Layout, one module per concern:

| file | module | flavour |
|---|---|---|
| `types.dfy` | `Types`: bytes, `Option`, `Result`, the error kinds | values |
| `script_num.dfy` | `ScriptNum`: the number codec and the boolean reading | pure functions and lemmas |
| `stack.dfy` | `ScriptStack`: class `Stack` over `items: seq<Item>` | imperative, mirrors `Stack` |
| `interpreter.dfy` | `Engine`: the reference semantics `Step`/`Exec`/`Verdict`, and class `Interpreter` whose loop is proved to follow them | mixed |
| `lib.dfy` | `ScriptLib`: `JoinParts`, `Execute`, `IsValid` | pure glue |

Errors are values of `Types.Error`:

- `DecodeError`: the instruction decoder failed.
- `StackUnderflow`: a pop on an empty stack.
- `InvalidNumericEncoding`: an operand longer than 4 bytes.
- `ExplicitAbort`: OP_RETURN.
- `Unsupported(opcode)`: the source panics on these opcodes (`panic!`, or `todo!` for OP_SUB). The model turns that panic into an ordinary failure.

Failures do not roll back the stack. `pop_num` removes the item before it decodes it, so OP_ADD or OP_EQUAL can fail with one or two items already gone. `Engine.Effect` records the stack left behind alongside the error.

Where the repository's design description and its code differ, the model follows the code:

- OP_ADD and OP_EQUAL pop the top item first, called `a`, then the next one, called `b`. The result is `a + b` or `a == b`. Both operations are symmetric, so the order is only visible through the partial pops on failure.
- Unknown opcodes and OP_SUB crash the source. The model returns `Err(Unsupported(code))`, the classified failure the design asks for, and `Engine.UnsupportedFails` states it.
- Operands are always decoded in non-minimal mode, as the code does. No minimal mode exists in the code, so none is modelled. `ScriptNum.IsMinimal` and `ScriptNum.MinimalIffCanonical` characterise minimal encodings for reference.

## Model

| member | source | states |
|---|---|---|
| ScriptNum.Encode | src/stack.rs:28-32 | the encoding of a number is empty exactly when the number is zero |
| ScriptNum.EncodeMagnitude | src/stack.rs:28-32 | the magnitude bytes are a little-endian representation of m, with no trailing zero byte, and empty only for zero |
| ScriptNum.DecodeEncode | src/stack.rs:28-32 | decoding the bytes `push_num` writes gives the number back, for every integer |
| ScriptNum.EncodeIsMinimal | src/stack.rs:28-32 | `push_num` always writes a minimal encoding |
| ScriptNum.MinimalIffCanonical | src/stack.rs:54-57 | a byte string is minimally encoded if and only if re-encoding its value reproduces it, so non-minimal strings of at most 4 bytes are exactly the ones `pop_num` accepts but `push_num` never writes |
| ScriptNum.EncodeLength | src/stack.rs:28-32 | the encoding of n fits in k bytes if and only if 2·abs(n) < 256^k |
| ScriptNum.DecodeBound | src/stack.rs:54-57 | a k-byte string decodes to a number with 2·abs(value) < 256^k |
| ScriptNum.DecodeNonMinimal | src/stack.rs:54-57 | decoding succeeds exactly when the item has at most 4 bytes; otherwise it fails with InvalidNumericEncoding; a success is the item's value and is below 2^31 in magnitude |
| ScriptNum.NonMinimalRoundTrip | src/stack.rs:54-57 | `pop_num` reads back what `push_num` wrote if and only if the number lies strictly within ±2^31 |
| ScriptNum.ReadBool | src/stack.rs:79-84 | an item reads as true exactly when its numeric value is non-zero |
| ScriptNum.ReadBoolIsNonZero | src/stack.rs:79-84 | the byte-level rule (not every byte zero, with the last byte allowed to be 0x80) agrees with the numeric reading |
| ScriptNum.ReadBoolOfEncode | src/stack.rs:79-84 | the encoding of n reads as true exactly when n is non-zero |
| ScriptNum.LeValueZero | src/stack.rs:79-84 | a little-endian magnitude is zero exactly when every byte is zero |
| ScriptStack.BoolItem | src/stack.rs:35-41 | the item `push_bool` writes reads back as that boolean and decodes to 1 or 0 |
| ScriptStack.Truth | src/stack.rs:79-84 | a stack is true exactly when it is non-empty and its top item's value is non-zero |
| ScriptStack.PopNumOf | src/stack.rs:54-57 | popping a number succeeds exactly when the stack is non-empty and the top item has at most 4 bytes; an empty stack gives StackUnderflow; the top item is removed whether or not it decodes |
| ScriptStack.Stack.constructor | src/stack.rs:16-20 | a new stack is empty |
| ScriptStack.Stack.Push | src/stack.rs:23-25 | the bytes become the new top; nothing below changes |
| ScriptStack.Stack.PushNum | src/stack.rs:28-32 | appends the minimal encoding of x, which fits the 8-byte buffer and decodes back to x |
| ScriptStack.Stack.PushBool | src/stack.rs:35-41 | appends [0x01] for true and the empty item for false; the stack then reads as that boolean |
| ScriptStack.Stack.Pop | src/stack.rs:45-47 | an empty stack yields None and stays empty; otherwise the top item is returned and removed |
| ScriptStack.Stack.PopNum | src/stack.rs:54-57 | the new stack and the result are those of PopNumOf; underflow leaves the stack empty; a decoded value is below 2^31 in magnitude |
| ScriptStack.Stack.Len | src/stack.rs:61-63 | the length is zero exactly when there are no items |
| ScriptStack.Stack.IsEmpty | src/stack.rs:67-69 | empty exactly when the length is zero |
| ScriptStack.Stack.Top | src/stack.rs:72-74 | None exactly on an empty stack, otherwise the last item, without removing it |
| ScriptStack.Stack.IsTrue | src/stack.rs:79-84 | agrees with Truth: non-empty with a non-zero top item; an empty stack is false |
| ScriptStack.TruthOfCanonicalItems | src/stack.rs:79-84 | the empty stack, an empty item, 0x00 and negative zero 0x80 are false, and 0x01 is true |
| ScriptStack.TruthOfPushedBool | src/stack.rs:35-41 | after `push_bool(b)` the stack reads as b, whatever lies below |
| ScriptStack.TruthOfPushedNum | src/stack.rs:28-32 | after `push_num(n)` the stack is true exactly when n is non-zero |
| Engine.SmallInt | src/interpreter.rs:61-78 | exactly OP_PUSHNUM_NEG1 and OP_PUSHNUM_1..16 are constant pushes; they push -1 and 1..16, and OP_PUSHNUM_k pushes k |
| Engine.AddOf | src/interpreter.rs:98-103 | OP_ADD succeeds exactly when the two top items exist and both have at most 4 bytes; it then replaces them with one item and leaves the items below untouched; it can fail only with StackUnderflow or InvalidNumericEncoding |
| Engine.EqualOf | src/interpreter.rs:105-111 | the same success condition, shape and failure set for OP_EQUAL |
| Engine.Step | src/interpreter.rs:52-85 | a decode error, OP_RETURN or an unsupported opcode fails and leaves the stack as it was; every instruction changes the height by at most one item up and, on success, at most one down |
| Engine.Exec | src/interpreter.rs:51-88 | a run of n instructions adds at most n items |
| Engine.Verdict | src/interpreter.rs:50-90 | the run is Ok exactly when no instruction failed, and its value is then the boolean reading of the final stack |
| Engine.Interpreter.constructor | src/interpreter.rs:25-30 | a new interpreter holds the script and a fresh empty stack |
| Engine.Interpreter.ScriptIsValid | src/interpreter.rs:37-42 | valid exactly when the run succeeds with a true stack; any error is invalid |
| Engine.Interpreter.ExecuteScript | src/interpreter.rs:50-90 | the loop returns Verdict of the script from the starting stack and leaves the stack Exec leaves, including after a failure |
| Engine.Interpreter.ExecuteInstruction | src/interpreter.rs:52-85 | one pass of the dispatch changes the stack and reports the failure exactly as Step does |
| Engine.Interpreter.Add | src/interpreter.rs:98-103 | the stack and failure after `add` are those of AddOf |
| Engine.Interpreter.Equal | src/interpreter.rs:105-111 | the stack and failure after `equal` are those of EqualOf |
| Engine.ExecAppend | src/interpreter.rs:51-88 | running a + b is running a, then b on what a left, unless a failed |
| Engine.FailFast | src/interpreter.rs:51-88 | once a prefix fails, nothing after it runs and the verdict is that prefix's error |
| Engine.FailsIfAnyAlwaysFails | src/interpreter.rs:52-84 | a decode error, OP_RETURN or an unsupported opcode anywhere in the script makes the run fail, so it is never valid |
| Engine.OpReturnAborts | src/interpreter.rs:56-59 | OP_RETURN fails with ExplicitAbort whatever the stack and whatever follows |
| Engine.UnsupportedFails | src/interpreter.rs:81-84 | an unimplemented opcode (OP_SUB included) fails the run with Unsupported(code) |
| Engine.PushesNeverFail | src/interpreter.rs:53-78 | literal pushes, OP_PUSHBYTES_0 and the constant pushes never fail and add exactly one item; the constant item reads back as its constant |
| Engine.SmallIntEncodings | src/interpreter.rs:61-78 | OP_PUSHNUM_NEG1 pushes [0x81] and OP_PUSHNUM_k pushes the single byte k |
| Engine.AddSemantics | src/interpreter.rs:98-103 | on two readable top items, OP_ADD replaces them with the encoding of the sum of their values |
| Engine.AddResultFits | src/interpreter.rs:98-103 | the sum of two readable operands encodes in at most 5 bytes, so it fits the 8-byte buffer of `push_num` and cannot overflow 64 bits |
| Engine.AddCommutes | src/interpreter.rs:98-103 | swapping the two operands of OP_ADD gives the same result |
| Engine.EqualNeedsTwoItems | src/interpreter.rs:105-111 | OP_EQUAL on fewer than two items fails; with readable items it underflows and leaves an empty stack |
| Engine.AddNeedsTwoItems | src/interpreter.rs:98-103 | OP_ADD on fewer than two items fails; with readable items it underflows and leaves an empty stack |
| Engine.EqualSemantics | src/interpreter.rs:105-111 | on two readable top items, OP_EQUAL replaces them with the boolean item for numeric equality |
| Engine.EqualIgnoresPadding | src/interpreter.rs:105-111 | equality is numeric: 0x00 equals the empty item, and so does negative zero 0x80 |
| Engine.OpReturnScripts | src/interpreter.rs:120-136 | the scripts `OP_RETURN` and `OP_RETURN <0xab 0x20>` both fail |
| Engine.AddEqualScript | src/interpreter.rs:138-149 | `push a, push b, push c, OP_ADD, OP_EQUAL` (constants 1..16, b + c ≤ 16) succeeds on any stack with the value a == b + c |
| Engine.AddScriptIsValid | src/interpreter.rs:138-149 | `5 2 3 OP_ADD OP_EQUAL` runs to the end and is true |
| Engine.EqualScript | src/interpreter.rs:105-111 | `push a, push b, OP_EQUAL` (constants 1..16) succeeds on any stack with the value a == b |
| Engine.UnequalScriptIsFalse | src/interpreter.rs:105-111 | `1 2 OP_EQUAL` runs to the end and is false |
| ScriptLib.JoinParts | src/lib.rs:38-40 | the joined program is the script sig's bytes followed by the script pubkey's, with nothing in between |
| ScriptLib.Execute | src/lib.rs:21-25 | the result is the Verdict of the decoded joined program from an empty stack |
| ScriptLib.IsValid | src/lib.rs:30-34 | valid exactly when that Verdict is Ok(true) |
| ScriptLib.JoinIdentity | src/lib.rs:38-40 | an empty part is an identity for joining, and joining is associative |

## Left out

- Script decoding (`ScriptBuf::instructions` in the `bitcoin` crate) is not part of this model. The engine sees a decoded sequence of `Engine.Instruction`, and a decode failure is a `DecodeErr` element. `ScriptLib.Execute` and `ScriptLib.IsValid` take the decoder as a function parameter. An OP_PUSHBYTES_0 byte normally decodes as an empty literal push; the engine's own branch for that opcode is still modelled.
- The codec functions of the `bitcoin` crate (`write_scriptint`, `read_scriptint_non_minimal`, `read_scriptbool`) are not part of this model's source. They are modelled from their documented behaviour, including the 4-byte operand limit.
- ScriptStack.Stack.PushNum: requires x > i64::MIN. `write_scriptint` needs 9 bytes for i64::MIN and would overrun the 8-byte buffer. The engine never reaches that case, because its operands have at most 4 bytes (see Engine.AddResultFits).
- Integers are unbounded. No i64 wrap-around is modelled, because no reachable sum leaves the 64-bit range.
- The panics (`panic!` on unknown opcodes, `todo!` on OP_SUB) are modelled as the `Unsupported(code)` error, not as a process abort.
- Error messages (`anyhow` strings) are not modelled; each error is one `Types.Error` value.
- The `Default` implementation of `Stack` (src/stack.rs:87-91) is the same as `Stack::new`, and the script clone in `execute_script` has no observable effect. Neither is modelled separately.
- Engine.AddEqualScript: requires b + c ≤ 16, so that the sum is itself a one-byte item. The source test it generalises (5, 2, 3) is inside that range.
- Transaction-dependent opcodes and signature checks do not exist in the source and are not modelled.
