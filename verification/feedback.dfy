/** The two verified-write disciplines every stateful operation rests on.

    A value-verified write writes a value and reads the register back once;
    a control-flag write writes the activating flag 1 and reads back once,
    expecting the device to have cleared it to 0. Neither retries. */
module Feedback {

  import opened Registers
  import opened Transport

  /** The flag value that asks the device to act on a control register. */
  const Activate: nat := 1
  /** The value a control register reads once the device accepted the command. */
  const Cleared: nat := 0

  /** The next reply is the register word `v`. */
  predicate NextIs(rs: seq<Reply>, v: nat) {
    rs != [] && rs[0].Word? && rs[0].value == v
  }

  /** Value-verified write: one write of `value`, one read-back of the same
      register, and a mismatch error carrying both values. */
  function WriteRegFeedback(b: Bus, loc: Loc, value: nat): (s: Step<()>)
    ensures s.bus.trace == b.trace + [WriteReg(loc, value), ReadReg(loc)]
    ensures Writes(s.bus.trace) == Writes(b.trace) + [WriteReg(loc, value)]
    ensures s.bus.replies == Rest(b.replies)
    ensures s.out.Ok? <==> NextIs(b.replies, value)
    ensures s.out.Err? && b.replies != [] && b.replies[0].Word? ==>
              s.out.error == VerificationMismatch(value, b.replies[0].value)
    ensures s.out.Err? ==> s.out.error.TransportFault? || s.out.error.VerificationMismatch?
  {
    var b1 := Write(b, loc, value);
    var r := Read(b1, loc);
    WritesAfterWrite(b.trace, loc, value);
    WritesAfterRead(b1.trace, loc);
    assert r.bus.trace == b.trace + [WriteReg(loc, value), ReadReg(loc)];
    if r.out.Err? then Step(r.bus, Err(r.out.error))
    else if r.out.value != value then Step(r.bus, Err(VerificationMismatch(value, r.out.value)))
    else Step(r.bus, Ok(()))
  }

  /** Control-flag write: writes 1, reads back once, succeeds only on 0.
      A mismatch reports the cleared value 0 as the one expected. */
  function WriteCtrlRegFeedback(b: Bus, loc: Loc): (s: Step<()>)
    ensures s.bus.trace == b.trace + [WriteReg(loc, Activate), ReadReg(loc)]
    ensures Writes(s.bus.trace) == Writes(b.trace) + [WriteReg(loc, Activate)]
    ensures s.bus.replies == Rest(b.replies)
    ensures s.out.Ok? <==> NextIs(b.replies, Cleared)
    ensures s.out.Err? && b.replies != [] && b.replies[0].Word? ==>
              s.out.error == VerificationMismatch(Cleared, b.replies[0].value)
    ensures s.out.Err? ==> s.out.error.TransportFault? || s.out.error.VerificationMismatch?
  {
    CtrlCheck(b, loc, Cleared)
  }

  /** The control-flag write as the source raises it: the mismatch names the
      activating value 1 as the expected one, although 0 is what is checked. */
  function WriteCtrlRegFeedbackAsWritten(b: Bus, loc: Loc): (s: Step<()>)
    ensures s.bus.trace == b.trace + [WriteReg(loc, Activate), ReadReg(loc)]
    ensures Writes(s.bus.trace) == Writes(b.trace) + [WriteReg(loc, Activate)]
    ensures s.bus.replies == Rest(b.replies)
    ensures s.out.Ok? <==> NextIs(b.replies, Cleared)
    ensures s.out.Err? && b.replies != [] && b.replies[0].Word? ==>
              s.out.error == VerificationMismatch(Activate, b.replies[0].value)
    ensures s.out.Err? ==> s.out.error.TransportFault? || s.out.error.VerificationMismatch?
  {
    CtrlCheck(b, loc, Activate)
  }

  /** Shared body of the two control-flag writes; `reported` is the value
      the mismatch error names as expected. */
  function CtrlCheck(b: Bus, loc: Loc, reported: nat): (s: Step<()>)
    ensures s.bus.trace == b.trace + [WriteReg(loc, Activate), ReadReg(loc)]
    ensures Writes(s.bus.trace) == Writes(b.trace) + [WriteReg(loc, Activate)]
    ensures s.bus.replies == Rest(b.replies)
    ensures s.out.Ok? <==> NextIs(b.replies, Cleared)
    ensures s.out.Err? && b.replies != [] && b.replies[0].Word? ==>
              s.out.error == VerificationMismatch(reported, b.replies[0].value)
    ensures s.out.Err? ==> s.out.error.TransportFault? || s.out.error.VerificationMismatch?
  {
    var b1 := Write(b, loc, Activate);
    var r := Read(b1, loc);
    WritesAfterWrite(b.trace, loc, Activate);
    WritesAfterRead(b1.trace, loc);
    if r.out.Err? then Step(r.bus, Err(r.out.error))
    else if r.out.value != Cleared then Step(r.bus, Err(VerificationMismatch(reported, r.out.value)))
    else Step(r.bus, Ok(()))
  }

  /** Every mismatch either verified write raises names two different
      values: the one required and the one read back. */
  lemma MismatchNamesDifferentValues(b: Bus, loc: Loc, value: nat)
    ensures var s := WriteRegFeedback(b, loc, value);
      s.out.Err? && s.out.error.VerificationMismatch? ==> s.out.error.expected != s.out.error.actual
    ensures var s := WriteCtrlRegFeedback(b, loc);
      s.out.Err? && s.out.error.VerificationMismatch? ==> s.out.error.expected != s.out.error.actual
  {
  }

  /** A device that leaves the flag at 1 makes the source report
      "expected 1, got 1": the error names the same value twice. */
  lemma CtrlMismatchAsWrittenNamesSameValue(loc: Loc)
    ensures WriteCtrlRegFeedbackAsWritten(Bus([], [Word(1)]), loc).out == Err(VerificationMismatch(1, 1))
  {
  }
}
