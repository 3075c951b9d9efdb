/** The script interpreter: one left-to-right pass over a decoded instruction
    stream, each instruction changing the stack or stopping the run with an error.

    `Step`, `Exec` and `Verdict` are the reference semantics, on stack values; the
    class `Interpreter` is the engine itself, whose loop is proved to follow them. */
module Engine {
  import opened Types
  import opened ScriptNum
  import opened ScriptStack

  /** One element of the stream the external script decoder yields: a literal push,
      an opcode, or the decoder's failure to parse the next instruction. */
  datatype Instruction = PushBytes(data: seq<u8>) | Op(code: u8) | DecodeErr

  const OP_PUSHBYTES_0: u8 := 0x00
  const OP_PUSHNUM_NEG1: u8 := 0x4f
  const OP_PUSHNUM_1: u8 := 0x51
  const OP_PUSHNUM_16: u8 := 0x60
  const OP_RETURN: u8 := 0x6a
  const OP_EQUAL: u8 := 0x87
  const OP_ADD: u8 := 0x93
  const OP_SUB: u8 := 0x94

  /** The number a constant-push opcode pushes: -1 for OP_PUSHNUM_NEG1, k for
      OP_PUSHNUM_k. */
  function SmallInt(c: u8): (r: Option<int>)
    ensures r.Some? <==> c == OP_PUSHNUM_NEG1 || OP_PUSHNUM_1 <= c <= OP_PUSHNUM_16
    ensures r.Some? ==> -1 <= r.value <= 16 && r.value != 0
    ensures r.Some? ==> (r.value == -1 <==> c == OP_PUSHNUM_NEG1)
    ensures r.Some? && r.value > 0 ==> c == OP_PUSHNUM_1 + r.value - 1
  {
    if c == OP_PUSHNUM_NEG1 then Some(-1)
    else if OP_PUSHNUM_1 <= c <= OP_PUSHNUM_16 then Some(c - OP_PUSHNUM_1 + 1)
    else None
  }

  /** The opcodes the engine implements; every other one fails as unsupported. */
  predicate Handled(c: u8)
  {
    c == OP_RETURN || c == OP_PUSHBYTES_0 || SmallInt(c).Some? || c == OP_ADD || c == OP_EQUAL
  }

  /** The stack an instruction leaves, and the error that stopped the run, if any. */
  datatype Effect = Effect(items: seq<Item>, failure: Option<Error>)

  /** The two top items exist and are short enough to read as numbers. */
  predicate TwoNumbers(items: seq<Item>)
  {
    |items| >= 2 && |items[|items| - 1]| <= MAX_NUM_LEN && |items[|items| - 2]| <= MAX_NUM_LEN
  }

  /** OP_ADD: pop a, pop b, push the encoding of a + b. */
  function AddOf(items: seq<Item>): (r: Effect)
    ensures r.failure.None? <==> TwoNumbers(items)
    ensures r.failure.None? ==> |r.items| == |items| - 1 && r.items[..|items| - 2] == items[..|items| - 2]
    ensures r.failure.Some? ==> r.failure.value in {StackUnderflow, InvalidNumericEncoding}
  {
    var a := PopNumOf(items);
    if a.num.Err? then Effect(a.rest, Some(a.num.error))
    else
      var b := PopNumOf(a.rest);
      if b.num.Err? then Effect(b.rest, Some(b.num.error))
      else Effect(b.rest + [Encode(a.num.value + b.num.value)], None)
  }

  /** OP_EQUAL: pop a, pop b, push whether they are equal as numbers. */
  function EqualOf(items: seq<Item>): (r: Effect)
    ensures r.failure.None? <==> TwoNumbers(items)
    ensures r.failure.None? ==> |r.items| == |items| - 1 && r.items[..|items| - 2] == items[..|items| - 2]
    ensures r.failure.Some? ==> r.failure.value in {StackUnderflow, InvalidNumericEncoding}
  {
    var a := PopNumOf(items);
    if a.num.Err? then Effect(a.rest, Some(a.num.error))
    else
      var b := PopNumOf(a.rest);
      if b.num.Err? then Effect(b.rest, Some(b.num.error))
      else Effect(b.rest + [BoolItem(a.num.value == b.num.value)], None)
  }

  /** The effect of one instruction. An instruction that always fails leaves the
      stack as it was; the others move its height by at most one item up or down,
      or, when OP_ADD or OP_EQUAL fails after its pops, down by at most two. */
  function Step(items: seq<Item>, ins: Instruction): (r: Effect)
    ensures AlwaysFails(ins) ==> r.failure.Some? && r.items == items
    ensures |items| - 2 <= |r.items| <= |items| + 1
    ensures r.failure.None? ==> |items| - 1 <= |r.items|
  {
    match ins
    case DecodeErr => Effect(items, Some(DecodeError))
    case PushBytes(p) => Effect(items + [p], None)
    case Op(c) =>
      if c == OP_RETURN then Effect(items, Some(ExplicitAbort))
      else if c == OP_PUSHBYTES_0 then Effect(items + [[]], None)
      else if SmallInt(c).Some? then Effect(items + [Encode(SmallInt(c).value)], None)
      else if c == OP_ADD then AddOf(items)
      else if c == OP_EQUAL then EqualOf(items)
      else Effect(items, Some(Unsupported(c)))
  }

  /** Runs the instructions in order and stops at the first failure. Each
      instruction adds at most one item. */
  function Exec(items: seq<Item>, script: seq<Instruction>): (r: Effect)
    ensures |r.items| <= |items| + |script|
    decreases |script|
  {
    if script == [] then Effect(items, None)
    else
      var e := Step(items, script[0]);
      if e.failure.Some? then e else Exec(e.items, script[1..])
  }

  /** The result of a run: the first error, or the boolean reading of the final stack. */
  function Verdict(items: seq<Item>, script: seq<Instruction>): (r: Result<bool, Error>)
    ensures r.Ok? <==> Exec(items, script).failure.None?
    ensures r.Ok? ==> r.value == Truth(Exec(items, script).items)
  {
    var e := Exec(items, script);
    if e.failure.Some? then Err(e.failure.value) else Ok(Truth(e.items))
  }

  class Interpreter {
    const stack: Stack
    const script: seq<Instruction>

    /** A new interpreter starts from an empty stack. */
    constructor (script: seq<Instruction>)
      ensures this.script == script
      ensures fresh(stack) && stack.items == []
    {
      this.script := script;
      stack := new Stack();
    }

    /** Runs the script; every failure counts as invalid. */
    method ScriptIsValid() returns (valid: bool)
      modifies stack
      ensures valid <==> Verdict(old(stack.items), script) == Ok(true)
      ensures stack.items == Exec(old(stack.items), script).items
    {
      var res := ExecuteScript();
      valid := match res
        case Ok(b) => b
        case Err(_) => false;
    }

    /** Runs the whole script once, stopping at the first failing instruction. */
    method ExecuteScript() returns (r: Result<bool, Error>)
      modifies stack
      ensures r == Verdict(old(stack.items), script)
      ensures stack.items == Exec(old(stack.items), script).items
    {
      var i := 0;
      while i < |script|
        invariant 0 <= i <= |script|
        invariant Exec(old(stack.items), script) == Exec(stack.items, script[i..])
      {
        assert script[i..][0] == script[i] && script[i..][1..] == script[i + 1..];
        var failure := ExecuteInstruction(script[i]);
        if failure.Some? {
          return Err(failure.value);
        }
        i := i + 1;
      }
      r := Ok(stack.IsTrue());
    }

    /** Applies one instruction to the stack: the body of the dispatch loop. */
    method ExecuteInstruction(ins: Instruction) returns (failure: Option<Error>)
      modifies stack
      ensures Effect(stack.items, failure) == Step(old(stack.items), ins)
    {
      failure := None;
      match ins {
        case DecodeErr =>
          failure := Some(DecodeError);
        case PushBytes(p) =>
          stack.Push(p);
        case Op(c) =>
          if c == OP_RETURN {
            failure := Some(ExplicitAbort);
          } else if c == OP_PUSHBYTES_0 {
            stack.Push([]);
          } else if c == OP_PUSHNUM_NEG1 {
            stack.PushNum(-1);
          } else if OP_PUSHNUM_1 <= c <= OP_PUSHNUM_16 {
            stack.PushNum(c - OP_PUSHNUM_1 + 1);
          } else if c == OP_ADD {
            failure := Add();
          } else if c == OP_SUB {
            failure := Some(Unsupported(c));
          } else if c == OP_EQUAL {
            failure := Equal();
          } else {
            failure := Some(Unsupported(c));
          }
      }
    }

    /** Removes the top two items, adds them as numbers and pushes the sum. */
    method Add() returns (failure: Option<Error>)
      modifies stack
      ensures Effect(stack.items, failure) == AddOf(old(stack.items))
    {
      var a := stack.PopNum();
      if a.Err? {
        return Some(a.error);
      }
      var b := stack.PopNum();
      if b.Err? {
        return Some(b.error);
      }
      stack.PushNum(a.value + b.value);
      failure := None;
    }

    /** Removes the top two items and pushes whether they are equal as numbers. */
    method Equal() returns (failure: Option<Error>)
      modifies stack
      ensures Effect(stack.items, failure) == EqualOf(old(stack.items))
    {
      var a := stack.PopNum();
      if a.Err? {
        return Some(a.error);
      }
      var b := stack.PopNum();
      if b.Err? {
        return Some(b.error);
      }
      stack.PushBool(a.value == b.value);
      failure := None;
    }
  }

  // ---------------------------------------------------------------------------
  // Properties of the reference semantics

  /** Running a + b is running a and then, if a did not fail, running b on what a left. */
  lemma {:induction false} ExecAppend(items: seq<Item>, a: seq<Instruction>, b: seq<Instruction>)
    ensures Exec(items, a + b) ==
      if Exec(items, a).failure.Some? then Exec(items, a) else Exec(Exec(items, a).items, b)
    decreases |a|
  {
    if a != [] {
      assert (a + b)[0] == a[0] && (a + b)[1..] == a[1..] + b;
      var e := Step(items, a[0]);
      if e.failure.None? {
        ExecAppend(e.items, a[1..], b);
      }
    } else {
      assert a + b == b;
    }
  }

  /** Fail-fast: once a prefix of the script fails, nothing after it runs. */
  lemma {:induction false} FailFast(items: seq<Item>, a: seq<Instruction>, b: seq<Instruction>)
    requires Exec(items, a).failure.Some?
    ensures Exec(items, a + b) == Exec(items, a)
    ensures Verdict(items, a + b) == Err(Exec(items, a).failure.value)
  {
    ExecAppend(items, a, b);
  }

  /** Instructions that fail whatever the stack: a decode error, OP_RETURN, and every
      opcode the engine does not implement. */
  predicate AlwaysFails(ins: Instruction)
  {
    ins.DecodeErr? || (ins.Op? && (ins.code == OP_RETURN || !Handled(ins.code)))
  }

  /** An always-failing instruction anywhere in the script makes the run fail. */
  lemma {:induction false} FailsIfAnyAlwaysFails(items: seq<Item>, script: seq<Instruction>, i: nat)
    requires i < |script| && AlwaysFails(script[i])
    ensures Verdict(items, script).Err?
    ensures Verdict(items, script) != Ok(true)
    decreases i
  {
    var e := Step(items, script[0]);
    if e.failure.None? {
      assert i > 0;
      assert script[1..][i - 1] == script[i];
      FailsIfAnyAlwaysFails(e.items, script[1..], i - 1);
    }
  }

  /** OP_RETURN fails the run whatever the stack and whatever follows it. */
  lemma OpReturnAborts(items: seq<Item>, rest: seq<Instruction>)
    ensures Verdict(items, [Op(OP_RETURN)] + rest) == Err(ExplicitAbort)
  {
  }

  /** An opcode the engine does not implement (OP_SUB among them) fails the run with a
      classified error instead of crashing. */
  lemma UnsupportedFails(items: seq<Item>, c: u8, rest: seq<Instruction>)
    requires !Handled(c)
    ensures Verdict(items, [Op(c)] + rest) == Err(Unsupported(c))
  {
  }

  /** A literal push and the constant pushes add exactly one item and never fail. */
  lemma PushesNeverFail(items: seq<Item>, ins: Instruction)
    requires ins.PushBytes? || (ins.Op? && (ins.code == OP_PUSHBYTES_0 || SmallInt(ins.code).Some?))
    ensures Step(items, ins).failure.None?
    ensures Step(items, ins).items[..|items|] == items
    ensures ins.PushBytes? ==> Step(items, ins).items == items + [ins.data]
    ensures ins == Op(OP_PUSHBYTES_0) ==> Step(items, ins).items == items + [[]]
    ensures ins.Op? && SmallInt(ins.code).Some? ==>
      DecodeNonMinimal(Step(items, ins).items[|items|]) == Ok(SmallInt(ins.code).value)
  {
    if ins.Op? && SmallInt(ins.code).Some? {
      NonMinimalRoundTrip(SmallInt(ins.code).value);
    }
  }

  /** The constant pushes produce Bitcoin's one-byte encodings: 0x81 for -1, k for k. */
  lemma SmallIntEncodings(k: u8)
    requires 1 <= k <= 16
    ensures Encode(-1) == [0x81]
    ensures Encode(k) == [k]
  {
  }

  /** Popping two readable items in turn yields the top one first. */
  lemma PopTwo(below: seq<Item>, p: Item, q: Item)
    requires |p| <= MAX_NUM_LEN && |q| <= MAX_NUM_LEN
    ensures PopNumOf(below + [p, q]) == Popped(below + [p], Ok(DecodeValue(q)))
    ensures PopNumOf(below + [p]) == Popped(below, Ok(DecodeValue(p)))
  {
    var s := below + [p, q];
    assert s[..|s| - 1] == below + [p];
    assert (below + [p])[..|below|] == below;
  }

  /** OP_ADD on two readable numbers replaces them with the encoding of their sum, and
      leaves every item below untouched. */
  lemma AddSemantics(below: seq<Item>, p: Item, q: Item)
    requires |p| <= MAX_NUM_LEN && |q| <= MAX_NUM_LEN
    ensures Step(below + [p, q], Op(OP_ADD))
      == Effect(below + [Encode(DecodeValue(p) + DecodeValue(q))], None)
  {
    PopTwo(below, p, q);
  }

  /** The sum of two readable numbers is at most one byte longer than an operand, so it
      always fits the 8-byte encoding buffer and never overflows 64 bits. */
  lemma AddResultFits(p: Item, q: Item)
    requires |p| <= MAX_NUM_LEN && |q| <= MAX_NUM_LEN
    ensures |Encode(DecodeValue(p) + DecodeValue(q))| <= MAX_NUM_LEN + 1
  {
    ReadableBound(p);
    ReadableBound(q);
    SumBound(DecodeValue(p), DecodeValue(q), Pow256(MAX_NUM_LEN));
    FitsOneMoreByte(DecodeValue(p) + DecodeValue(q));
  }

  lemma ReadableBound(v: Item)
    requires |v| <= MAX_NUM_LEN
    ensures 2 * Abs(DecodeValue(v)) < Pow256(MAX_NUM_LEN)
  {
    assert DecodeNonMinimal(v).Ok?;
  }

  lemma FitsOneMoreByte(n: int)
    requires 2 * Abs(n) < 256 * Pow256(MAX_NUM_LEN)
    ensures |Encode(n)| <= MAX_NUM_LEN + 1
  {
    EncodeLength(n, MAX_NUM_LEN + 1);
  }

  lemma SumBound(x: int, y: int, bound: int)
    requires 2 * Abs(x) < bound && 2 * Abs(y) < bound
    ensures 2 * Abs(x + y) < 256 * bound
  {
  }

  /** OP_ADD does not depend on the order of its two operands. */
  lemma AddCommutes(below: seq<Item>, p: Item, q: Item)
    requires |p| <= MAX_NUM_LEN && |q| <= MAX_NUM_LEN
    ensures Step(below + [p, q], Op(OP_ADD)) == Step(below + [q, p], Op(OP_ADD))
  {
    AddSemantics(below, p, q);
    AddSemantics(below, q, p);
  }

  /** OP_ADD on fewer than two items fails: an empty stack underflows, and a single
      item underflows once it has been read. */
  lemma AddNeedsTwoItems(items: seq<Item>)
    requires |items| < 2
    ensures Step(items, Op(OP_ADD)).failure.Some?
    ensures items == [] || |items[0]| <= MAX_NUM_LEN ==>
      Step(items, Op(OP_ADD)) == Effect([], Some(StackUnderflow))
  {
    if |items| == 1 {
      assert items[..0] == [];
    }
  }

  /** OP_EQUAL on fewer than two items fails: an empty stack underflows, and a single
      item underflows once it has been read. */
  lemma EqualNeedsTwoItems(items: seq<Item>)
    requires |items| < 2
    ensures Step(items, Op(OP_EQUAL)).failure.Some?
    ensures items == [] || |items[0]| <= MAX_NUM_LEN ==>
      Step(items, Op(OP_EQUAL)) == Effect([], Some(StackUnderflow))
  {
    if |items| == 1 {
      assert items[..0] == [];
    }
  }

  /** OP_EQUAL compares two readable items as numbers, not as bytes, and pushes the
      canonical boolean; the items below are untouched. */
  lemma EqualSemantics(below: seq<Item>, p: Item, q: Item)
    requires |p| <= MAX_NUM_LEN && |q| <= MAX_NUM_LEN
    ensures Step(below + [p, q], Op(OP_EQUAL))
      == Effect(below + [BoolItem(DecodeValue(p) == DecodeValue(q))], None)
  {
    PopTwo(below, p, q);
  }

  /** Because the comparison is numeric, 0x00 and the empty item are equal, and so are
      zero and negative zero. */
  lemma EqualIgnoresPadding(below: seq<Item>)
    ensures Step(below + [[0x00], []], Op(OP_EQUAL)) == Effect(below + [[0x01]], None)
    ensures Step(below + [[0x80], []], Op(OP_EQUAL)) == Effect(below + [[0x01]], None)
  {
    EqualSemantics(below, [0x00], []);
    EqualSemantics(below, [0x80], []);
  }

  // ---------------------------------------------------------------------------
  // Example scripts

  /** OP_RETURN alone, or followed by a push of data, is invalid. */
  lemma OpReturnScripts()
    ensures Verdict([], [Op(OP_RETURN)]).Err?
    ensures Verdict([], [Op(OP_RETURN), PushBytes([0xab, 32])]).Err?
  {
    OpReturnAborts([], []);
    OpReturnAborts([], [PushBytes([0xab, 32])]);
  }

  /** A step that does not fail hands its stack to the rest of the script. */
  lemma ExecCons(items: seq<Item>, script: seq<Instruction>, next: seq<Item>)
    requires script != [] && Step(items, script[0]) == Effect(next, None)
    ensures Exec(items, script) == Exec(next, script[1..])
  {
  }

  /** OP_PUSHNUM_k pushes the one-byte item k. */
  lemma PushSmall(items: seq<Item>, k: u8)
    requires 1 <= k <= 16
    ensures Step(items, Op(OP_PUSHNUM_1 + k - 1)) == Effect(items + [[k]], None)
  {
    SmallIntEncodings(k);
  }

  /** push a, push b, push c, OP_ADD, OP_EQUAL, for constants a, b, c in 1..16 with
      b + c at most 16, runs to the end on any stack and is true exactly when
      a == b + c. */
  lemma AddEqualScript(items: seq<Item>, a: u8, b: u8, c: u8)
    requires 1 <= a <= 16 && 1 <= b <= 16 && 1 <= c <= 16 && b + c <= 16
    ensures Verdict(items, [Op(OP_PUSHNUM_1 + a - 1), Op(OP_PUSHNUM_1 + b - 1),
                            Op(OP_PUSHNUM_1 + c - 1), Op(OP_ADD), Op(OP_EQUAL)])
            == Ok(a == b + c)
  {
    var script := [Op(OP_PUSHNUM_1 + a - 1), Op(OP_PUSHNUM_1 + b - 1),
                   Op(OP_PUSHNUM_1 + c - 1), Op(OP_ADD), Op(OP_EQUAL)];
    PushThree(items, a, b, c, script);
    assert script[3..] == [Op(OP_ADD), Op(OP_EQUAL)];
    AddThenEqual(items, a, b, c, b + c);
    TruthOfPushedBool(items, a == b + c);
  }

  lemma PushThree(items: seq<Item>, a: u8, b: u8, c: u8, script: seq<Instruction>)
    requires 1 <= a <= 16 && 1 <= b <= 16 && 1 <= c <= 16
    requires |script| >= 3
    requires script[0] == Op(OP_PUSHNUM_1 + a - 1) && script[1] == Op(OP_PUSHNUM_1 + b - 1)
    requires script[2] == Op(OP_PUSHNUM_1 + c - 1)
    ensures Exec(items, script) == Exec(items + [[a], [b], [c]], script[3..])
  {
    PushSmall(items, a);
    PushSmall(items + [[a]], b);
    PushSmall(items + [[a], [b]], c);
    ExecCons(items, script, items + [[a]]);
    assert script[1..][0] == script[1];
    ExecCons(items + [[a]], script[1..], items + [[a], [b]]);
    assert script[2..][0] == script[2] && script[1..][1..] == script[2..];
    ExecCons(items + [[a], [b]], script[2..], items + [[a], [b], [c]]);
    assert script[2..][1..] == script[3..];
  }

  /** Two steps that do not fail, run as a script of their own. */
  lemma ExecTwo(s0: seq<Item>, i0: Instruction, s1: seq<Item>, i1: Instruction, s2: seq<Item>)
    requires Step(s0, i0) == Effect(s1, None) && Step(s1, i1) == Effect(s2, None)
    ensures Exec(s0, [i0, i1]) == Effect(s2, None)
  {
    ExecCons(s0, [i0, i1], s1);
    assert [i0, i1][1..] == [i1];
    ExecCons(s1, [i1], s2);
    assert [i1][1..] == [];
  }

  lemma AddThenEqual(items: seq<Item>, a: u8, b: u8, c: u8, n: u8)
    requires 1 <= a <= 16 && 1 <= b <= 16 && 1 <= c <= 16 && n == b + c <= 16
    ensures Exec(items + [[a], [b], [c]], [Op(OP_ADD), Op(OP_EQUAL)])
         == Effect(items + [BoolItem(a == n)], None)
  {
    AddOnTop(items, a, b, c, n);
    EqualOfSmall(items, a, n);
    ExecTwo(items + [[a], [b], [c]], Op(OP_ADD), items + [[a], [n]], Op(OP_EQUAL),
            items + [BoolItem(a == n)]);
  }

  lemma AddOnTop(items: seq<Item>, a: u8, b: u8, c: u8, n: u8)
    requires 1 <= a <= 16 && 1 <= b <= 16 && 1 <= c <= 16 && n == b + c <= 16
    ensures Step(items + [[a], [b], [c]], Op(OP_ADD)) == Effect(items + [[a], [n]], None)
  {
    AddSmall(items + [[a]], b, c, n);
    assert items + [[a]] + [[b], [c]] == items + [[a], [b], [c]];
    assert items + [[a]] + [[n]] == items + [[a], [n]];
  }

  lemma AddSmall(items: seq<Item>, b: u8, c: u8, n: u8)
    requires 1 <= b <= 16 && 1 <= c <= 16 && n == b + c <= 16
    ensures Step(items + [[b], [c]], Op(OP_ADD)) == Effect(items + [[n]], None)
  {
    DecodeEncode(b);
    DecodeEncode(c);
    SmallIntEncodings(b);
    SmallIntEncodings(c);
    SmallIntEncodings(n);
    AddSemantics(items, [b], [c]);
  }

  /** The source's test: push 5, push 2, push 3, OP_ADD, OP_EQUAL is valid. */
  lemma AddScriptIsValid()
    ensures Verdict([], [Op(0x55), Op(0x52), Op(0x53), Op(OP_ADD), Op(OP_EQUAL)]) == Ok(true)
  {
    AddEqualScript([], 5, 2, 3);
  }

  /** push a, push b, OP_EQUAL, for constants a, b in 1..16, runs to the end on any
      stack and is true exactly when a == b. */
  lemma EqualScript(items: seq<Item>, a: u8, b: u8)
    requires 1 <= a <= 16 && 1 <= b <= 16
    ensures Verdict(items, [Op(OP_PUSHNUM_1 + a - 1), Op(OP_PUSHNUM_1 + b - 1), Op(OP_EQUAL)])
            == Ok(a == b)
  {
    var script := [Op(OP_PUSHNUM_1 + a - 1), Op(OP_PUSHNUM_1 + b - 1), Op(OP_EQUAL)];
    PushSmall(items, a);
    ExecCons(items, script, items + [[a]]);
    assert script[1..] == [Op(OP_PUSHNUM_1 + b - 1), Op(OP_EQUAL)];
    PushSmall(items + [[a]], b);
    assert items + [[a]] + [[b]] == items + [[a], [b]];
    EqualOfSmall(items, a, b);
    ExecTwo(items + [[a]], Op(OP_PUSHNUM_1 + b - 1), items + [[a], [b]], Op(OP_EQUAL),
            items + [BoolItem(a == b)]);
    TruthOfPushedBool(items, a == b);
  }

  lemma EqualOfSmall(items: seq<Item>, a: u8, b: u8)
    requires 1 <= a <= 16 && 1 <= b <= 16
    ensures Step(items + [[a], [b]], Op(OP_EQUAL)) == Effect(items + [BoolItem(a == b)], None)
  {
    DecodeEncode(a);
    DecodeEncode(b);
    SmallIntEncodings(a);
    SmallIntEncodings(b);
    EqualSemantics(items, [a], [b]);
  }

  /** push 1, push 2, OP_EQUAL runs to the end and is false. */
  lemma UnequalScriptIsFalse()
    ensures Verdict([], [Op(0x51), Op(0x52), Op(OP_EQUAL)]) == Ok(false)
  {
    EqualScript([], 1, 2);
  }
}
