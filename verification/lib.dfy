/** Entry points: the unlocking script (script sig) and the locking script (script
    pubkey) are joined into one program and run by a fresh interpreter.

    Turning script bytes into instructions is the job of an external decoder; it
    is a parameter here, so the model holds for whichever decoder the caller uses. */
module ScriptLib {
  import opened Types
  import Engine

  /** The combined program: the script sig's bytes followed by the script pubkey's,
      with nothing in between. */
  function JoinParts(scriptSig: seq<u8>, scriptPubkey: seq<u8>): (r: seq<u8>)
    ensures |r| == |scriptSig| + |scriptPubkey|
    ensures r[..|scriptSig|] == scriptSig && r[|scriptSig|..] == scriptPubkey
  {
    scriptSig + scriptPubkey
  }

  /** Runs `scriptSig | scriptPubkey` from an empty stack. */
  method Execute(scriptSig: seq<u8>, scriptPubkey: seq<u8>,
                 decode: seq<u8> -> seq<Engine.Instruction>)
    returns (r: Result<bool, Error>)
    ensures r == Engine.Verdict([], decode(JoinParts(scriptSig, scriptPubkey)))
  {
    var script := JoinParts(scriptSig, scriptPubkey);
    var interpreter := new Engine.Interpreter(decode(script));
    r := interpreter.ExecuteScript();
  }

  /** Whether `scriptSig | scriptPubkey` runs to the end with a true top item; every
      error reads as invalid. */
  method IsValid(scriptSig: seq<u8>, scriptPubkey: seq<u8>,
                 decode: seq<u8> -> seq<Engine.Instruction>)
    returns (valid: bool)
    ensures valid <==> Engine.Verdict([], decode(JoinParts(scriptSig, scriptPubkey))) == Ok(true)
  {
    var script := JoinParts(scriptSig, scriptPubkey);
    var interpreter := new Engine.Interpreter(decode(script));
    valid := interpreter.ScriptIsValid();
  }

  /** Joining is transparent: an empty part leaves the other unchanged, and joining
      is associative, so only the byte sequence matters and not where it was split. */
  lemma JoinIdentity(scriptSig: seq<u8>, scriptPubkey: seq<u8>, extra: seq<u8>)
    ensures JoinParts([], scriptPubkey) == scriptPubkey
    ensures JoinParts(scriptSig, []) == scriptSig
    ensures JoinParts(JoinParts(scriptSig, scriptPubkey), extra)
         == JoinParts(scriptSig, JoinParts(scriptPubkey, extra))
  {
  }
}
