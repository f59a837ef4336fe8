/** The process runner: a second, stateful front end to the process
    lifecycle that remembers the selected process, and samples a running
    process into a process line. */
module Runner {

  import opened Options
  import opened Words
  import opened Registers
  import opened Transport
  import opened Feedback
  import opened Codecs
  import opened Common
  import opened Machine

  datatype ProcRunner = ProcRunner(selected: Option<ProcessType>)

  /** `start`: refuse when a process runs; otherwise remember the type,
      write its selector and raise the start flag. The type stays
      remembered even when the flag write fails. */
  function Start(r: ProcRunner, b: Bus, t: ProcessType): (o: (ProcRunner, Step<()>))
    ensures !(b.replies != [] && b.replies[0].Word? && b.replies[0].value != Running) ==>
              o.0 == r && o.1.out.Err? && Writes(o.1.bus.trace) == Writes(b.trace)
    ensures b.replies != [] && b.replies[0] == Word(Running) ==> o.1.out == Err(AlreadyRunning)
    ensures b.replies != [] && b.replies[0].Word? && b.replies[0].value != Running ==>
              && o.0 == ProcRunner(Some(t))
              && Writes(o.1.bus.trace) == Writes(b.trace) + [WriteReg(Selection, Selector(t)), WriteReg(Selection, Activate)]
              && (o.1.out.Ok? <==> NextIs(b.replies[1..], Cleared))
    // the requests: the status read, then the two writes when no process runs
    ensures !(b.replies != [] && b.replies[0].Word? && b.replies[0].value != Running) ==>
              o.1.bus.trace == b.trace + [ReadReg(Status)]
    ensures b.replies != [] && b.replies[0].Word? && b.replies[0].value != Running ==>
              o.1.bus.trace == b.trace + [ReadReg(Status), WriteReg(Selection, Selector(t)),
                                          WriteReg(Selection, Activate), ReadReg(Selection)]
  {
    var status := Read(b, Status);
    WritesAfterRead(b.trace, Status);
    if status.out.Err? then (r, Step(status.bus, Err(status.out.error)))
    else if status.out.value == Running then (r, Step(status.bus, Err(AlreadyRunning)))
    else
      var b1 := Write(status.bus, Selection, Selector(t));
      WritesAfterWrite(status.bus.trace, Selection, Selector(t));
      (ProcRunner(Some(t)), WriteCtrlRegFeedback(b1, Selection))
  }

  /** `interrupt`: when a process runs, forget the selection and write the
      cancel word; otherwise do nothing. */
  function Interrupt(r: ProcRunner, b: Bus): (o: (ProcRunner, Step<()>))
    ensures !(b.replies != [] && b.replies[0].Word?) ==>
              o.0 == r && o.1.out.Err? && Writes(o.1.bus.trace) == Writes(b.trace)
    ensures b.replies != [] && b.replies[0].Word? && b.replies[0].value != Running ==>
              o.0 == r && o.1.out.Ok? && Writes(o.1.bus.trace) == Writes(b.trace)
    ensures b.replies != [] && b.replies[0] == Word(Running) ==>
              && o.0 == ProcRunner(None) && o.1.out.Ok?
              && Writes(o.1.bus.trace) == Writes(b.trace) + [WriteReg(Selection, Cancel)]
    // the requests: the status read, then the cancel for a running process
    ensures !(b.replies != [] && b.replies[0] == Word(Running)) ==> o.1.bus.trace == b.trace + [ReadReg(Status)]
    ensures b.replies != [] && b.replies[0] == Word(Running) ==>
              o.1.bus.trace == b.trace + [ReadReg(Status), WriteReg(Selection, Cancel)]
  {
    var status := Read(b, Status);
    WritesAfterRead(b.trace, Status);
    if status.out.Err? then (r, Step(status.bus, Err(status.out.error)))
    else if status.out.value != Running then (r, Step(status.bus, Ok(())))
    else
      WritesAfterWrite(status.bus.trace, Selection, Cancel);
      (ProcRunner(None), Step(Write(status.bus, Selection, Cancel), Ok(())))
  }

  /** The runner starts a process with the same writes, and the same
      outcome, as the machine object does after its screen read. */
  lemma StartAgreesWithMachine(r: ProcRunner, b: Bus, t: ProcessType, screen: Word16)
    ensures var m := StartProcess(Bus(b.trace, [Word(screen)] + b.replies), t);
            var o := Start(r, b, t);
            Writes(o.1.bus.trace) == Writes(m.bus.trace) && o.1.out.Ok? == m.out.Ok?
  {
    var rs := [Word(screen)] + b.replies;
    assert rs[1..] == b.replies;
    if |b.replies| >= 1 {
      assert rs[2..] == b.replies[1..];
    }
  }

  /** The runner's interrupt issues the first of the machine's two writes
      (the cancel word), and not the screen switch. */
  lemma InterruptAgreesWithMachine(r: ProcRunner, b: Bus, mainScreen: nat)
    requires b.replies != [] && b.replies[0] == Word(Running)
    ensures Writes(InterruptProcess(b, mainScreen).bus.trace)
            == Writes(Interrupt(r, b).1.bus.trace) + [WriteReg(Ext(ChangeScreen), mainScreen)]
  {
  }

  /** A start after a successful interrupt is not refused by the runner's
      own memory: only the status register decides. */
  lemma StartIgnoresSelection(r1: ProcRunner, r2: ProcRunner, b: Bus, t: ProcessType)
    ensures Start(r1, b, t).1 == Start(r2, b, t).1
  {
  }

  // ---------------------------------------------------------------------
  // Sampling a running process

  /** The four measurements a process line carries, in field order. */
  const MeasurementRegisters: seq<Reg> := [PressureProcess, TemperatureProcess, TemperatureChamber, TemperatureSteamgen]

  /** The single-word fields of a process line as the runner reads them. */
  const LineRegistersAsWritten: seq<Reg> :=
    [ProcSeconds, ProcPhase, PwrCtrlPattern, PwrChDrvMonitor, PwrChTarget, PwrSgCtrl, PwrSgDrvMonitor]

  /** The single-word fields of a process line, with the power fields read
      as `get_pwr_state` reads them. */
  const LineRegisters: seq<Reg> := [ProcSeconds, ProcPhase] + PowerRegisters

  /** The next `n` replies are all two-word blocks. */
  predicate BlockReplies(rs: seq<Reply>, n: nat): (ok: bool)
    ensures ok ==> |rs| >= n
    decreases n
  {
    n == 0 || (rs != [] && rs[0].Block? && |rs[0].values| == 2 && BlockReplies(rs[1..], n - 1))
  }

  /** The 32-bit patterns of the next `n` two-word blocks, first word high. */
  function Patterns(rs: seq<Reply>, n: nat): (ps: seq<nat>)
    requires BlockReplies(rs, n)
    ensures |ps| == n
    decreases n
  {
    if n == 0 then [] else [JoinWords(rs[0].values[0], rs[0].values[1])] + Patterns(rs[1..], n - 1)
  }

  /** Each pattern lies in 32 bits and splits back into its block's two words. */
  lemma {:induction false} PatternsAt(rs: seq<Reply>, n: nat)
    requires BlockReplies(rs, n)
    ensures forall i :: 0 <= i < n ==>
              rs[i].Block? && |rs[i].values| == 2
              && Patterns(rs, n)[i] <= 0xFFFF_FFFF
              && SplitWords(Patterns(rs, n)[i]) == (rs[i].values[0], rs[i].values[1])
    decreases n
  {
    if n > 0 {
      PatternsAt(rs[1..], n - 1);
      JoinInRange(rs[0].values[0], rs[0].values[1]);
      SplitJoin(rs[0].values[0], rs[0].values[1]);
      assert forall i :: 1 <= i < n ==> rs[1..][i - 1] == rs[i];
    }
  }

  /** One two-register read request per slot, in order. */
  function BlockReadEvents(regs: seq<Reg>): (es: seq<Event>)
    ensures |es| == |regs|
  {
    if regs == [] then [] else [ReadRegs(Slot(regs[0]), 2)] + BlockReadEvents(regs[1..])
  }

  /** `read_float_register` over several slots, one reply each; the first
      failed read ends the sequence. */
  function ReadMeasurements(b: Bus, regs: seq<Reg>): (s: Step<seq<nat>>)
    ensures Writes(s.bus.trace) == Writes(b.trace)
    ensures s.out.Ok? <==> BlockReplies(b.replies, |regs|)
    ensures s.out.Ok? ==>
              && s.bus.trace == b.trace + BlockReadEvents(regs)
              && s.bus.replies == b.replies[|regs|..]
              && s.out.value == Patterns(b.replies, |regs|)
    decreases |regs|
  {
    if regs == [] then Step(b, Ok([]))
    else
      var f := ReadFloatRegister(b, Slot(regs[0]));
      WritesConcat(b.trace, [ReadRegs(Slot(regs[0]), 2)]);
      if f.out.Err? then Step(f.bus, Err(f.out.error))
      else
        var rest := ReadMeasurements(f.bus, regs[1..]);
        assert BlockReadEvents(regs) == [ReadRegs(Slot(regs[0]), 2)] + BlockReadEvents(regs[1..]);
        if rest.out.Err? then rest
        else
          assert b.replies[1..][|regs| - 1..] == b.replies[|regs|..];
          Step(rest.bus, Ok([f.out.value] + rest.out.value))
  }

  /** The single-word fields of a line, in the order they are read. */
  function WordFields(l: ProcessLine): seq<Word16> {
    [l.sec, l.phase, l.ptrn, l.chPwr, l.chTar, l.sgPwr, l.sgTar]
  }

  /** The measurement fields of a line, in the order they are read. */
  function MeasurementFields(l: ProcessLine): seq<nat> {
    [l.pProc, l.tProc, l.tChmbr, l.tStmgn]
  }

  /** The power fields of a line. */
  function PowerOf(l: ProcessLine): PowerState {
    PowerState(l.ptrn, l.chPwr, l.chTar, l.sgPwr, l.sgTar)
  }

  /** The replies the fields after the bitfield need: seven words, then
      four two-word blocks. */
  predicate FieldReplies(rs: seq<Reply>) {
    WordReplies(rs, 7) && BlockReplies(rs[7..], 4)
  }

  /** The replies a complete process line needs: the bitfield word, then
      the field replies. */
  predicate LineReplies(rs: seq<Reply>) {
    rs != [] && rs[0].Word? && FieldReplies(rs[1..])
  }

  /** The process line made of the bitfield word, the seven single-word
      fields and the four measurement patterns. */
  function Sample(vr: Word16, w: seq<Word16>, m: seq<nat>): (l: ProcessLine)
    requires |w| == 7 && |m| == 4
    ensures WordFields(l) == w && MeasurementFields(l) == m && l.flags == ValveRelayFlagsOf(vr)
  {
    ProcessLine(w[0], w[1], w[2], w[3], w[4], w[5], w[6], m[0], m[1], m[2], m[3], ValveRelayFlagsOf(vr))
  }

  /** The read requests of a complete sample, in order. */
  function LineReads(regs: seq<Reg>): seq<Event> {
    [ReadReg(Slot(ValvesAndRelays))] + ReadEvents(regs) + BlockReadEvents(MeasurementRegisters)
  }

  /** The reads after the bitfield: the seven words, then the measurements. */
  function ReadFields(vr: Word16, b: Bus, regs: seq<Reg>): (s: Step<ProcessLine>)
    requires |regs| == 7
    ensures Writes(s.bus.trace) == Writes(b.trace)
    ensures s.out.Ok? <==> FieldReplies(b.replies)
    ensures s.out.Ok? ==>
              && s.bus.trace == b.trace + ReadEvents(regs) + BlockReadEvents(MeasurementRegisters)
              && s.out.value == Sample(vr, WordValues(b.replies, 7), Patterns(b.replies[7..], 4))
  {
    var words := ReadRegisters(b, regs);
    if words.out.Err? then Step(words.bus, Err(words.out.error))
    else
      var ms := ReadMeasurements(words.bus, MeasurementRegisters);
      if ms.out.Err? then Step(ms.bus, Err(ms.out.error))
      else Step(ms.bus, Ok(Sample(vr, words.out.value, ms.out.value)))
  }

  /** `poll_progress` reading its single-word fields from `regs`: the
      bitfield, then the words, then the measurements; the first failed
      read ends it. */
  function PollProgressFrom(b: Bus, regs: seq<Reg>): (s: Step<ProcessLine>)
    requires |regs| == 7
    ensures Writes(s.bus.trace) == Writes(b.trace)
    ensures s.out.Ok? <==> LineReplies(b.replies)
    ensures s.out.Ok? ==>
              && s.bus.trace == b.trace + [ReadReg(Slot(ValvesAndRelays))] + ReadEvents(regs) + BlockReadEvents(MeasurementRegisters)
              && s.out.value == Sample(b.replies[0].value, WordValues(b.replies[1..], 7), Patterns(b.replies[1..][7..], 4))
  {
    var v := Read(b, Slot(ValvesAndRelays));
    WritesAfterRead(b.trace, Slot(ValvesAndRelays));
    if v.out.Err? then Step(v.bus, Err(v.out.error))
    else ReadFields(v.out.value, v.bus, regs)
  }

  /** `poll_progress` as the runner reads it: the steam-generator power
      and target come from PWR_SG_CTRL and PWR_SG_DRV_MONITOR. */
  function PollProgressAsWritten(b: Bus): (s: Step<ProcessLine>)
    ensures Writes(s.bus.trace) == Writes(b.trace)
    ensures s.out.Ok? <==> LineReplies(b.replies)
  {
    PollProgressFrom(b, LineRegistersAsWritten)
  }

  /** `poll_progress` with the power fields read from the registers
      `get_pwr_state` reads. */
  function PollProgress(b: Bus): (s: Step<ProcessLine>)
    ensures Writes(s.bus.trace) == Writes(b.trace)
    ensures s.out.Ok? <==> LineReplies(b.replies)
  {
    PollProgressFrom(b, LineRegisters)
  }

  /** Flag k of a complete sample is bit k of the bitfield word; bits
      10..15 are ignored. */
  lemma PollProgressFlags(b: Bus, regs: seq<Reg>)
    requires |regs| == 7 && LineReplies(b.replies)
    ensures var l := PollProgressFrom(b, regs).out.value;
            && (forall k :: 0 <= k < ValveRelayBitCount ==> l.flags.Bits()[k] == Bit(b.replies[0].value, k))
            && l.flags == ValveRelayFlagsOf(b.replies[0].value % 1024)
  {
    var w := b.replies[0].value;
    ValveRelayBits(w);
    ValveRelayIgnoresHighBits(w);
  }

  /** The word fields of a complete sample are the seven replies after the
      bitfield, in order. */
  lemma PollProgressWords(b: Bus, regs: seq<Reg>)
    requires |regs| == 7 && LineReplies(b.replies)
    ensures |b.replies| >= 8 && forall i :: 1 <= i < 8 ==> b.replies[i].Word?
    ensures forall i :: 0 <= i < 7 ==> WordFields(PollProgressFrom(b, regs).out.value)[i] == b.replies[1 + i].value
  {
    WordRepliesAt(b.replies[1..], 7);
    assert forall i :: 0 <= i < 7 ==> b.replies[1..][i] == b.replies[1 + i];
  }

  /** Each measurement of a complete sample is the 32-bit pattern of its
      two-word block, first word high. */
  lemma PollProgressMeasurements(b: Bus, regs: seq<Reg>)
    requires |regs| == 7 && LineReplies(b.replies)
    ensures |b.replies| >= 12 && forall i :: 8 <= i < 12 ==> b.replies[i].Block? && |b.replies[i].values| == 2
    ensures forall i :: 0 <= i < 4 ==>
              SplitWords(MeasurementFields(PollProgressFrom(b, regs).out.value)[i])
              == (b.replies[8 + i].values[0], b.replies[8 + i].values[1])
  {
    PatternsAt(b.replies[1..][7..], 4);
    assert forall i :: 0 <= i < 4 ==> b.replies[1..][7..][i] == b.replies[8 + i];
  }

  /** The requests a complete sample issues after the earlier trace. */
  lemma PollProgressTrace(b: Bus, regs: seq<Reg>)
    requires |regs| == 7 && LineReplies(b.replies)
    ensures |PollProgressFrom(b, regs).bus.trace| == |b.trace| + |LineReads(regs)|
    ensures PollProgressFrom(b, regs).bus.trace[|b.trace|..] == LineReads(regs)
  {
    var s := PollProgressFrom(b, regs);
    var x := [ReadReg(Slot(ValvesAndRelays))];
    var e := ReadEvents(regs);
    var m := BlockReadEvents(MeasurementRegisters);
    assert s.bus.trace == b.trace + x + e + m;
    SuffixOfConcat(b.trace, x, e, m);
  }

  lemma SuffixOfConcat<T>(a: seq<T>, x: seq<T>, e: seq<T>, m: seq<T>)
    ensures |a + x + e + m| == |a| + |x + e + m|
    ensures (a + x + e + m)[|a|..] == x + e + m
  {
    assert a + x + e + m == a + (x + e + m);
  }

  lemma LineReadsAt(regs: seq<Reg>)
    requires |regs| == 7
    ensures |LineReads(regs)| == 12
    ensures forall i :: 0 <= i < 7 ==> LineReads(regs)[1 + i] == ReadReg(Slot(regs[i]))
  {
    ReadEventsAt(regs);
  }

  lemma SliceOfSlice<T>(t: seq<T>, a: nat, c: nat, i: nat, j: nat)
    requires a <= c <= |t| && i <= j <= c - a
    ensures t[a..c][i..j] == t[a + i..a + j]
  {
    var u, v := t[a..c][i..j], t[a + i..a + j];
    assert |u| == |v|;
    forall k | 0 <= k < |u|
      ensures u[k] == v[k]
    {
      assert u[k] == t[a..c][i + k] == t[a + i + k];
    }
  }

  /** Positions 1..7 of a line's requests are the single-word reads. */
  lemma LineReadsWords(regs: seq<Reg>)
    requires |regs| == 7
    ensures |LineReads(regs)| == 12
    ensures LineReads(regs)[1..8] == ReadEvents(regs)
  {
    var e := ReadEvents(regs);
    var m := BlockReadEvents(MeasurementRegisters);
    assert LineReads(regs) == [ReadReg(Slot(ValvesAndRelays))] + e + m;
  }

  /** A slice of the reads of `regs` is the reads of that slice. */
  lemma ReadEventsSlice(regs: seq<Reg>, i: nat, j: nat)
    requires i <= j <= |regs|
    ensures ReadEvents(regs)[i..j] == ReadEvents(regs[i..j])
  {
    ReadEventsAt(regs);
    ReadEventsAt(regs[i..j]);
    assert forall k :: 0 <= k < j - i ==> ReadEvents(regs)[i..j][k] == ReadEvents(regs[i..j])[k];
  }

  /** The corrected line reads the five power registers at positions 3..7,
      in `get_pwr_state`'s order. */
  lemma LineReadsPower()
    ensures |LineReads(LineRegisters)| == 12
    ensures LineReads(LineRegisters)[3..8] == ReadEvents(PowerRegisters)
  {
    LineReadsWords(LineRegisters);
    SliceOfSlice(LineReads(LineRegisters), 1, 8, 2, 7);
    ReadEventsSlice(LineRegisters, 2, 7);
    assert LineRegisters[2..7] == PowerRegisters;
  }

  /** Five word replies at positions 3..7 give the power fields of the line. */
  lemma PowerFieldsOf(b: Bus)
    requires LineReplies(b.replies)
    ensures var g := GetPowerState(Bus([], b.replies[3..8]));
            g.out.Ok? && PowerOf(PollProgressFrom(b, LineRegisters).out.value) == g.out.value
  {
    WordRepliesAt(b.replies[1..], 7);
    assert forall i :: 0 <= i < 7 ==> b.replies[1..][i] == b.replies[1 + i];
    PowerStateOf(Bus([], b.replies[3..8]));
    PollProgressWords(b, LineRegisters);
  }

  /** The corrected sample agrees with `get_pwr_state`: it reads the same
      five registers in the same order, and a device giving the same five
      replies yields the same five values. */
  lemma PollProgressPowerAgrees(b: Bus)
    requires LineReplies(b.replies)
    ensures PollProgress(b).bus.trace[|b.trace| + 3..|b.trace| + 8] == ReadEvents(PowerRegisters)
    ensures var g := GetPowerState(Bus([], b.replies[3..8]));
            g.out.Ok? && PowerOf(PollProgress(b).out.value) == g.out.value
  {
    var s := PollProgressFrom(b, LineRegisters);
    assert PollProgress(b) == s;
    assert s.bus.trace[|b.trace| + 3..|b.trace| + 8] == ReadEvents(PowerRegisters) by {
      PollProgressTrace(b, LineRegisters);
      LineReadsPower();
      SliceOfSlice(s.bus.trace, |b.trace|, |s.bus.trace|, 3, 8);
    }
    PowerFieldsOf(b);
  }

  /** Only the registers of `regs` are read by their single-word reads. */
  lemma ReadEventsOnly(regs: seq<Reg>, r: Reg)
    ensures ReadReg(Slot(r)) in ReadEvents(regs) ==> r in regs
  {
    ReadEventsAt(regs);
    if ReadReg(Slot(r)) in ReadEvents(regs) {
      var i :| 0 <= i < |regs| && ReadEvents(regs)[i] == ReadReg(Slot(r));
      AddressesDistinct(regs[i], r);
    }
  }

  /** The measurement reads are all two-register reads. */
  lemma {:induction false} BlockReadsOnly(regs: seq<Reg>, e: Event)
    ensures e in BlockReadEvents(regs) ==> e.ReadRegs?
  {
    if regs != [] {
      BlockReadsOnly(regs[1..], e);
    }
  }

  /** The only single-word reads of a line are the bitfield and `regs`. */
  lemma LineReadsOnly(regs: seq<Reg>, r: Reg)
    requires |regs| == 7
    ensures ReadReg(Slot(r)) in LineReads(regs) ==> r == ValvesAndRelays || r in regs
  {
    ReadEventsOnly(regs, r);
    BlockReadsOnly(MeasurementRegisters, ReadReg(Slot(r)));
    AddressesDistinct(r, ValvesAndRelays);
  }

  /** As written, the line issues no read of PWR_SG_TARGET. */
  lemma AsWrittenSkipsTarget()
    ensures ReadReg(Slot(PwrSgTarget)) !in LineReads(LineRegistersAsWritten)
  {
    assert PwrSgTarget !in LineRegistersAsWritten by {
      forall i | 0 <= i < |LineRegistersAsWritten|
        ensures LineRegistersAsWritten[i] != PwrSgTarget
      {
      }
    }
    LineReadsOnly(LineRegistersAsWritten, PwrSgTarget);
  }

  /** As written, the steam-generator power is sampled from PWR_SG_CTRL and
      the target from PWR_SG_DRV_MONITOR, where `get_pwr_state` samples
      PWR_SG_DRV_MONITOR and PWR_SG_TARGET. */
  lemma PollProgressAsWrittenMisreadsSteamGenerator(b: Bus)
    requires LineReplies(b.replies)
    ensures PollProgressAsWritten(b).bus.trace[|b.trace| + 6] == ReadReg(Slot(PwrSgCtrl))
    ensures PollProgressAsWritten(b).bus.trace[|b.trace| + 7] == ReadReg(Slot(PwrSgDrvMonitor))
  {
    var s := PollProgressFrom(b, LineRegistersAsWritten);
    assert PollProgressAsWritten(b) == s;
    var l := LineReads(LineRegistersAsWritten);
    assert s.bus.trace[|b.trace|..] == l && |l| == 12 by {
      PollProgressTrace(b, LineRegistersAsWritten);
      LineReadsWords(LineRegistersAsWritten);
    }
    assert l[6] == ReadReg(Slot(PwrSgCtrl)) && l[7] == ReadReg(Slot(PwrSgDrvMonitor)) by {
      LineReadsAt(LineRegistersAsWritten);
    }
  }

  /** As written, a complete sample never reads PWR_SG_TARGET. */
  lemma PollProgressAsWrittenNeverReadsTarget(b: Bus)
    requires LineReplies(b.replies)
    ensures ReadReg(Slot(PwrSgTarget)) !in PollProgressAsWritten(b).bus.trace[|b.trace|..]
  {
    var s := PollProgressFrom(b, LineRegistersAsWritten);
    assert PollProgressAsWritten(b) == s;
    PollProgressTrace(b, LineRegistersAsWritten);
    AsWrittenSkipsTarget();
  }
}
