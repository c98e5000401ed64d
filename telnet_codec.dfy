/**
 * The per-connection receive automaton of the Telnet bridge
 * (`telnet_proc_iac` and `telnet_proc_cmd`), as a pure step function over
 * (state, byte), and its fold over a received buffer.
 *
 * The automaton is modelled as the firmware has it, which departs from
 * RFC 854 in two places: a NUL data byte is not forwarded, and the escaped
 * data byte IAC IAC is dropped instead of being delivered as 0xFF.
 */
module TelnetCodec {
  import opened Esp

  const IAC: Byte := 255
  const DONT: Byte := 254
  const DO: Byte := 253
  const WONT: Byte := 252
  const WILL: Byte := 251
  const SB: Byte := 250
  const SE: Byte := 240
  const TELOPT_BREAK: Byte := 0xF3

  /** The value the step returns for "forward nothing"; numerically it is IAC. */
  const DISCARD: Byte := 0xFF

  datatype Fsm = Idle | Opt | Cmd | SubCmd | SubCmdOpt

  /** The codec part of a client slot: its `fsm` and the pending verb `opt`. */
  datatype Codec = Codec(fsm: Fsm, opt: int)

  /** The effect of one byte: the next state, the byte returned, and whether a serial break was sent. */
  datatype Step = Step(next: Codec, out: Byte, brk: bool)

  /** The effect of a run of bytes: the final state, the forwarded bytes in order, and the breaks sent. */
  datatype Trace = Trace(codec: Codec, out: seq<Byte>, breaks: nat)

  predicate IsVerb(b: int)
  {
    b == DONT || b == DO || b == WONT || b == WILL
  }

  /** `telnet_proc_cmd` sends a serial break exactly when its op is TELOPT_BREAK. */
  predicate ProcCmdBreaks(op: int)
  {
    op == TELOPT_BREAK
  }

  /** The states a slot can reach from its zero-initialised state: `opt` is 0 or a verb, and a verb whenever a command is pending. */
  predicate WellFormed(c: Codec)
  {
    (c.opt == 0 || IsVerb(c.opt)) && (c.fsm == Cmd ==> IsVerb(c.opt))
  }

  /** One call of `telnet_proc_iac` on the slot's state. */
  function ProcIac(c: Codec, data: Byte): (r: Step)
    // only the idle state forwards, and what it forwards is the byte itself
    ensures r.out != DISCARD <==> c.fsm == Idle && data != 0 && data != IAC
    ensures r.out != DISCARD ==> r.out == data
    // a break comes from IAC BRK, or from a pending command whose stored verb is BRK
    ensures r.brk <==> (c.fsm == Opt && data == TELOPT_BREAK) || (c.fsm == Cmd && c.opt == TELOPT_BREAK)
    // the pending verb changes only when a negotiation verb follows IAC, and then it is that verb
    ensures r.next.opt != c.opt ==> c.fsm == Opt && IsVerb(data) && r.next.opt == data
    ensures r.next.fsm == Cmd <==> c.fsm == Opt && IsVerb(data)
  {
    match c.fsm
    case Idle =>
      if data == 0xFF then Step(c.(fsm := Opt), DISCARD, false)
      else Step(c.(fsm := Idle), if data == 0 then DISCARD else data, false)
    case Opt =>
      if IsVerb(data) then Step(Codec(Cmd, data), DISCARD, false)
      else if data == SB then Step(c.(fsm := SubCmd), DISCARD, false)
      else if data == TELOPT_BREAK then Step(c.(fsm := Idle), DISCARD, ProcCmdBreaks(TELOPT_BREAK))
      else Step(c.(fsm := Idle), DISCARD, false)
    case SubCmd =>
      Step(if data == 0xFF then c.(fsm := SubCmdOpt) else c, DISCARD, false)
    case SubCmdOpt =>
      Step(c.(fsm := Idle), DISCARD, false)
    case Cmd =>
      Step(c.(fsm := Idle), DISCARD, ProcCmdBreaks(c.opt))
  }

  /** One more byte through `ProcIac`: the byte returned is kept unless it is DISCARD, and a break is counted. */
  function Advance(t: Trace, b: Byte): (r: Trace)
    ensures |t.out| <= |r.out| <= |t.out| + 1 && t.breaks <= r.breaks <= t.breaks + 1
  {
    var s := ProcIac(t.codec, b);
    Trace(s.next, if s.out != DISCARD then t.out + [s.out] else t.out, t.breaks + if s.brk then 1 else 0)
  }

  /** Feeding a buffer byte by byte through `ProcIac`, keeping the non-DISCARD results in order. */
  function Run(c: Codec, input: seq<Byte>): (r: Trace)
    ensures |r.out| <= |input| && r.breaks <= |input|
    ensures forall i :: 0 <= i < |r.out| ==> r.out[i] != 0 && r.out[i] != IAC
    decreases |input|
  {
    if input == [] then Trace(c, [], 0)
    else Advance(Run(c, input[..|input| - 1]), input[|input| - 1])
  }

  /** Running two pieces one after the other. */
  function Then(first: Trace, second: Trace): Trace
  {
    Trace(second.codec, first.out + second.out, first.breaks + second.breaks)
  }

  /** The bytes of `s` other than NUL, in order. */
  function WithoutNul(s: seq<Byte>): (r: seq<Byte>)
    ensures |r| <= |s|
  {
    if s == [] then []
    else WithoutNul(s[..|s| - 1]) + if s[|s| - 1] == 0 then [] else [s[|s| - 1]]
  }

  /** Splitting the input splits the run: the second part starts in the state the first part ends in. */
  lemma {:induction false} RunAppend(c: Codec, a: seq<Byte>, b: seq<Byte>)
    ensures Run(c, a + b) == Then(Run(c, a), Run(Run(c, a).codec, b))
    decreases |b|
  {
    if b == [] {
      assert a + b == a;
    } else {
      var b' := b[..|b| - 1];
      assert (a + b)[..|a + b| - 1] == a + b';
      assert (a + b)[|a + b| - 1] == b[|b| - 1];
      RunAppend(c, a, b');
    }
  }

  /** A single byte. */
  lemma RunOne(c: Codec, b: Byte)
    ensures var s := ProcIac(c, b);
      Run(c, [b]) == Trace(s.next, if s.out != DISCARD then [s.out] else [], if s.brk then 1 else 0)
  {
    assert [b][..0] == [];
  }

  /** One more byte at the end. */
  lemma RunSnoc(c: Codec, s: seq<Byte>, b: Byte)
    ensures Run(c, s + [b]) == Advance(Run(c, s), b)
  {
    assert (s + [b])[..|s|] == s;
  }

  /** The run over one more byte of an input is one more step. */
  lemma RunPrefixStep(c: Codec, input: seq<Byte>, j: nat)
    requires j < |input|
    ensures Run(c, input[..j + 1]) == Advance(Run(c, input[..j]), input[j])
  {
    assert input[..j + 1][..j] == input[..j];
  }

  /** In the idle state, bytes other than IAC are forwarded unchanged and in order, except NUL, which is dropped. */
  lemma {:induction false} PlainDataForwarded(c: Codec, s: seq<Byte>)
    requires c.fsm == Idle
    requires IAC !in s
    ensures Run(c, s) == Trace(c, WithoutNul(s), 0)
    decreases |s|
  {
    if s != [] {
      var s' := s[..|s| - 1];
      assert IAC !in s' by {
        forall i | 0 <= i < |s'| ensures s'[i] != IAC { assert s'[i] == s[i]; }
      }
      PlainDataForwarded(c, s');
    }
  }

  /** IAC followed by DO, DONT, WILL or WONT and any option byte forwards nothing, sends no break, stores the verb and returns to idle. */
  lemma NegotiationAbsorbed(c: Codec, verb: Byte, option: Byte)
    requires c.fsm == Idle && IsVerb(verb)
    ensures Run(c, [IAC, verb, option]) == Trace(Codec(Idle, verb), [], 0)
  {
    RunOne(c, IAC);
    RunSnoc(c, [IAC], verb);
    assert [IAC] + [verb] == [IAC, verb];
    RunSnoc(c, [IAC, verb], option);
    assert [IAC, verb] + [option] == [IAC, verb, option];
  }

  /** IAC BRK sends exactly one serial break, forwards nothing and returns to idle. */
  lemma BreakCommand(c: Codec)
    requires c.fsm == Idle
    ensures Run(c, [IAC, TELOPT_BREAK]) == Trace(c, [], 1)
  {
    RunOne(c, IAC);
    RunSnoc(c, [IAC], TELOPT_BREAK);
    assert [IAC] + [TELOPT_BREAK] == [IAC, TELOPT_BREAK];
  }

  /** IAC followed by any byte that is not a verb, SB or BRK (a second IAC included) forwards nothing and returns to idle. */
  lemma OtherCommandDropped(c: Codec, b: Byte)
    requires c.fsm == Idle
    requires !IsVerb(b) && b != SB && b != TELOPT_BREAK
    ensures Run(c, [IAC, b]) == Trace(c, [], 0)
  {
    RunOne(c, IAC);
    RunSnoc(c, [IAC], b);
    assert [IAC] + [b] == [IAC, b];
  }

  /** Inside a sub-negotiation every byte other than IAC is discarded without leaving it. */
  lemma {:induction false} SubNegotiationPayload(c: Codec, p: seq<Byte>)
    requires c.fsm == SubCmd
    requires IAC !in p
    ensures Run(c, p) == Trace(c, [], 0)
    decreases |p|
  {
    if p != [] {
      var p' := p[..|p| - 1];
      assert IAC !in p' by {
        forall i | 0 <= i < |p'| ensures p'[i] != IAC { assert p'[i] == p[i]; }
      }
      SubNegotiationPayload(c, p');
    }
  }

  /** IAC SB, a payload without IAC, then IAC and any byte (SE or not): nothing is forwarded, no break is sent, and the codec is idle again. */
  lemma SubNegotiationSkipped(c: Codec, payload: seq<Byte>, last: Byte)
    requires c.fsm == Idle
    requires IAC !in payload
    ensures Run(c, [IAC, SB] + payload + [IAC, last]) == Trace(c, [], 0)
  {
    var sub := Codec(SubCmd, c.opt);
    RunOne(c, IAC);
    RunSnoc(c, [IAC], SB);
    assert [IAC] + [SB] == [IAC, SB];
    assert Run(c, [IAC, SB]) == Trace(sub, [], 0);
    SubNegotiationPayload(sub, payload);
    RunAppend(c, [IAC, SB], payload);
    var head := [IAC, SB] + payload;
    assert Run(c, head) == Trace(sub, [], 0);
    RunSnoc(c, head, IAC);
    assert Run(c, head + [IAC]) == Trace(Codec(SubCmdOpt, c.opt), [], 0);
    RunSnoc(c, head + [IAC], last);
    assert head + [IAC] + [last] == head + [IAC, last];
  }

  /** From any reachable state, IAC SE brings the codec back to idle without a break; at most the SE byte itself is forwarded (when the IAC closed a pending command). */
  lemma Resynchronise(c: Codec)
    requires WellFormed(c)
    ensures var r := Run(c, [IAC, SE]); r.codec.fsm == Idle && r.breaks == 0 && (r.out == [] || r.out == [SE])
  {
    RunOne(c, IAC);
    RunSnoc(c, [IAC], SE);
    assert [IAC] + [SE] == [IAC, SE];
  }

  /** Reachable states stay reachable, and in them a break is sent only for IAC BRK. */
  lemma StepWellFormed(c: Codec, b: Byte)
    requires WellFormed(c)
    ensures WellFormed(ProcIac(c, b).next)
    ensures ProcIac(c, b).brk <==> c.fsm == Opt && b == TELOPT_BREAK
  {
  }

  /** A run from a reachable state ends in a reachable state. */
  lemma {:induction false} RunWellFormed(c: Codec, s: seq<Byte>)
    requires WellFormed(c)
    ensures WellFormed(Run(c, s).codec)
    decreases |s|
  {
    if s != [] {
      RunWellFormed(c, s[..|s| - 1]);
      StepWellFormed(Run(c, s[..|s| - 1]).codec, s[|s| - 1]);
    }
  }
}
