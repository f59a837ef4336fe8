/** The device operations of the machine object, other than the door
    drive: device id, board number, firmware version, DIP switches, float
    slots, heater counters, power state and the process lifecycle.

    Each operation takes the session and returns the session after it and
    what it returned or raised. */
module Machine {

  import opened Options
  import opened Words
  import opened Registers
  import opened Transport
  import opened Feedback
  import opened Codecs
  import opened Common

  // ---------------------------------------------------------------------
  // Device id

  /** `e` writes the 32-character field that stores `id`: the id followed by NULs. */
  predicate WritesPaddedId(e: Event, id: string) {
    && e.WriteText? && e.loc == Slot(DeviceId)
    && |e.text| == DeviceIdMaxLength
    && |id| <= DeviceIdMaxLength && e.text[..|id|] == id
    && (forall i :: |id| <= i < |e.text| ==> e.text[i] == '\0')
  }

  /** `set_device_id`: an id longer than 32 characters raises before any
      request; otherwise one string write of the NUL-padded id. */
  function SetDeviceId(b: Bus, id: string): (s: Step<()>)
    ensures |id| > DeviceIdMaxLength ==> s == Step(b, Err(InvalidArgument))
    ensures |id| <= DeviceIdMaxLength ==>
              && s.out.Ok? && s.bus.replies == b.replies
              && |s.bus.trace| == |b.trace| + 1 && s.bus.trace[..|b.trace|] == b.trace
              && WritesPaddedId(s.bus.trace[|b.trace|], id)
  {
    if |id| > DeviceIdMaxLength then Step(b, Err(InvalidArgument))
    else
      var b' := WriteString(b, Slot(DeviceId), PadNul(id, DeviceIdMaxLength));
      assert b'.trace[..|b.trace|] == b.trace;
      Step(b', Ok(()))
  }

  /** `_get_device_id`: read the 32-character field, strip trailing NULs. */
  function ReadDeviceId(b: Bus): (s: Step<string>)
    ensures s.bus.trace == b.trace + [ReadText(Slot(DeviceId), DeviceIdMaxLength)]
    ensures s.out.Ok? <==> b.replies != [] && b.replies[0].Text?
    ensures s.out.Ok? ==>
              var raw := b.replies[0].text;
              && NoTrailingNul(s.out.value) && s.out.value <= raw
              && (forall i :: |s.out.value| <= i < |raw| ==> raw[i] == '\0')
  {
    var r := ReadString(b, Slot(DeviceId), DeviceIdMaxLength);
    if r.out.Err? then Step(r.bus, Err(r.out.error)) else Step(r.bus, Ok(StripNul(r.out.value)))
  }

  /** `get_device_id`: as `_get_device_id`, but a failed read gives "". */
  function GetDeviceId(b: Bus): (s: Step<string>)
    ensures s.out.Ok?
    ensures s.bus.trace == b.trace + [ReadText(Slot(DeviceId), DeviceIdMaxLength)]
    ensures !(b.replies != [] && b.replies[0].Text?) ==> s.out.value == ""
    ensures b.replies != [] && b.replies[0].Text? ==> s.out == ReadDeviceId(b).out
  {
    var r := ReadDeviceId(b);
    if r.out.Err? then Step(r.bus, Ok("")) else r
  }

  /** Reading back the field a successful `set_device_id` wrote returns the
      id, when the id does not itself end in NUL. */
  lemma {:induction false} DeviceIdRoundTrip(b: Bus, id: string, later: Bus)
    requires |id| <= DeviceIdMaxLength && NoTrailingNul(id)
    requires later.replies != [] && later.replies[0] == Text(SetDeviceId(b, id).bus.trace[|b.trace|].text)
    ensures GetDeviceId(later).out == Ok(id)
  {
    var t := SetDeviceId(b, id).bus.trace[|b.trace|].text;
    assert t == PadNul(id, DeviceIdMaxLength);
    StripPadded(id, DeviceIdMaxLength);
  }

  // ---------------------------------------------------------------------
  // Board number, firmware version, DIP switches

  /** `set_boardnumber`: a revision that is not an upper-case letter raises
      before any request; otherwise one write of the packed word. */
  function SetBoardNumber(b: Bus, rev: char, year: nat, month: nat): (s: Step<()>)
    ensures !IsRevision(rev) ==> s == Step(b, Err(InvalidArgument))
    ensures IsRevision(rev) ==>
              && s.out.Ok? && s.bus.replies == b.replies
              && s.bus.trace == b.trace + [WriteReg(Slot(BoardNum), PackBoardNumber(rev, year, month))]
    ensures IsRevision(rev) && year < 128 && month < 16 ==>
              var w := PackBoardNumber(rev, year, month);
              w < WordLimit && UnpackBoardNumber(w) == BoardNumber(rev, year, month)
  {
    if !IsRevision(rev) then Step(b, Err(InvalidArgument))
    else
      var w := PackBoardNumber(rev, year, month);
      assert year < 128 && month < 16 ==> w < WordLimit && UnpackBoardNumber(w) == BoardNumber(rev, year, month) by {
        if year < 128 && month < 16 {
          BoardNumberRoundTrip(rev, year, month);
        }
      }
      Step(Write(b, Slot(BoardNum), w), Ok(()))
  }

  /** `get_boardnumber` */
  function GetBoardNumber(b: Bus): (s: Step<BoardNumber>)
    ensures s.bus.trace == b.trace + [ReadReg(Slot(BoardNum))]
    ensures s.out.Ok? <==> b.replies != [] && b.replies[0].Word?
    ensures s.out.Ok? ==>
              var w := b.replies[0].value;
              && s.out.value.year < 128 && s.out.value.month < 16
              && (w / 2048 < 26 ==>
                    IsRevision(s.out.value.revision)
                    && PackBoardNumber(s.out.value.revision, s.out.value.year, s.out.value.month) == w)
  {
    var r := Read(b, Slot(BoardNum));
    if r.out.Err? then Step(r.bus, Err(r.out.error))
    else
      var w := r.out.value;
      BoardNumberFields(w);
      var u := UnpackBoardNumber(w);
      assert w / 2048 < 26 ==> IsRevision(u.revision) && PackBoardNumber(u.revision, u.year, u.month) == w by {
        if w / 2048 < 26 {
          BoardNumberRepack(w);
        }
      }
      Step(r.bus, Ok(u))
  }

  /** A device that returns the word `set_boardnumber` wrote makes
      `get_boardnumber` return the revision, year and month that were set. */
  lemma BoardNumberGetAfterSet(b: Bus, rev: char, year: nat, month: nat, later: Bus)
    requires IsRevision(rev) && year < 128 && month < 16
    requires later.replies != [] && later.replies[0] == Word(SetBoardNumber(b, rev, year, month).bus.trace[|b.trace|].value)
    ensures GetBoardNumber(later).out == Ok(BoardNumber(rev, year, month))
  {
  }

  /** `t` is three canonical decimal numbers (no leading zeros) joined by
      dots whose 7/5/4-bit packing is `w`. */
  ghost predicate IsVersionText(t: string, w: nat) {
    exists major: string, minor: string, patch: string | IsNumeral(major) && IsNumeral(minor) && IsNumeral(patch) ::
      && t == major + "." + minor + "." + patch
      && DigitsValue(minor) < 32 && DigitsValue(patch) < 16
      && DigitsValue(major) * 512 + DigitsValue(minor) * 16 + DigitsValue(patch) == w
  }

  lemma {:induction false} VersionTextOf(w: Word16)
    ensures IsVersionText(VersionText(VersionOf(w)), w)
  {
    var v := VersionOf(w);
    VersionSplit(w);
    DecimalValue(v.major);
    DecimalValue(v.minor);
    DecimalValue(v.patch);
    var a, b, c := Decimal(v.major), Decimal(v.minor), Decimal(v.patch);
    assert VersionText(v) == a + "." + b + "." + c;
  }

  /** The version text of a register word is unique: any canonical
      rendering of the word is the one `VersionTextOf` describes. */
  lemma VersionTextUnique(t: string, w: Word16)
    ensures IsVersionText(t, w) ==> t == VersionText(VersionOf(w))
  {
    if IsVersionText(t, w) {
      var major: string, minor: string, patch: string :|
        && IsNumeral(major) && IsNumeral(minor) && IsNumeral(patch)
        && t == major + "." + minor + "." + patch
        && DigitsValue(minor) < 32 && DigitsValue(patch) < 16
        && DigitsValue(major) * 512 + DigitsValue(minor) * 16 + DigitsValue(patch) == w;
      NumeralIsDecimal(major);
      NumeralIsDecimal(minor);
      NumeralIsDecimal(patch);
      var v := Version(DigitsValue(major), DigitsValue(minor), DigitsValue(patch));
      assert VersionWord(v) == w;
      VersionJoin(v);
    }
  }

  /** `get_firmware_version`: the version word as "major.minor.patch". */
  function GetFirmwareVersion(b: Bus): (s: Step<string>)
    ensures s.bus.trace == b.trace + [ReadReg(Slot(FirmwareVersion))]
    ensures s.out.Ok? <==> b.replies != [] && b.replies[0].Word?
    ensures s.out.Ok? ==> IsVersionText(s.out.value, b.replies[0].value)
  {
    var r := Read(b, Slot(FirmwareVersion));
    if r.out.Err? then Step(r.bus, Err(r.out.error))
    else
      VersionTextOf(r.out.value);
      Step(r.bus, Ok(VersionText(VersionOf(r.out.value))))
  }

  /** `get_dpi_switch`: switch k is bit k of the DIP register. */
  function GetDipSwitch(b: Bus): (s: Step<(bool, bool, bool, bool)>)
    ensures s.bus.trace == b.trace + [ReadReg(Slot(DipSwitch))]
    ensures s.out.Ok? <==> b.replies != [] && b.replies[0].Word?
    ensures s.out.Ok? ==>
              var w := b.replies[0].value;
              s.out.value == (Bit(w, 0), Bit(w, 1), Bit(w, 2), Bit(w, 3))
  {
    var r := Read(b, Slot(DipSwitch));
    if r.out.Err? then Step(r.bus, Err(r.out.error))
    else
      DipSwitchBits(r.out.value);
      Step(r.bus, Ok(DipSwitchOf(r.out.value)))
  }

  // ---------------------------------------------------------------------
  // Float slots: two words, word 0 at the slot's address, word 1 after it

  /** `_write_float_register`, given the two words of the float. */
  function WriteFloatWords(b: Bus, r: Reg, words: (Word16, Word16)): (s: Bus)
    ensures s.trace == b.trace + [WriteReg(Slot(r), words.0), WriteReg(At(Address(r) + 1), words.1)]
    ensures s.replies == b.replies
  {
    Write(Write(b, Slot(r), words.0), At(Address(r) + 1), words.1)
  }

  /** `_read_float_register`, up to the float conversion: one two-word read. */
  function ReadFloatWords(b: Bus, r: Reg): (s: Step<(Word16, Word16)>)
    ensures s.bus.trace == b.trace + [ReadRegs(Slot(r), 2)]
    ensures s.out.Ok? <==> b.replies != [] && b.replies[0].Block? && |b.replies[0].values| == 2
    ensures s.out.Ok? ==> s.out.value == (b.replies[0].values[0], b.replies[0].values[1])
  {
    var rd := ReadBlock(b, Slot(r), 2);
    if rd.out.Err? then Step(rd.bus, Err(rd.out.error))
    else Step(rd.bus, Ok((rd.out.value[0], rd.out.value[1])))
  }

  /** Writing a float slot stores word 0 at the slot and word 1 just after
      it, and changes no named register other than the slot itself. */
  lemma {:induction false} FloatWriteStores(mem: map<Loc, nat>, b: Bus, r: Reg, words: (Word16, Word16), other: Reg)
    requires IsFloatSlot(r) && other != r
    ensures var after := Store(mem, WriteFloatWords(b, r, words).trace);
            && Slot(r) in after && after[Slot(r)] == words.0
            && At(Address(r) + 1) in after && after[At(Address(r) + 1)] == words.1
            && var before := Store(mem, b.trace);
               (Slot(other) in after <==> Slot(other) in before)
               && (Slot(other) in before ==> after[Slot(other)] == before[Slot(other)])
  {
    var k0, k1 := Slot(r), At(Address(r) + 1);
    var es := [WriteReg(k0, words.0), WriteReg(k1, words.1)];
    StoreConcat(mem, b.trace, es);
    StoreTwoWrites(Store(mem, b.trace), k0, words.0, k1, words.1);
    FloatSlotDisjoint(r, other);
  }

  /** A device that answers the two-register read with what the float
      write stored gives back the two words written, word 0 first. */
  lemma {:induction false} FloatReadAfterWrite(mem: map<Loc, nat>, b: Bus, r: Reg, words: (Word16, Word16), later: Bus)
    requires var after := Store(mem, WriteFloatWords(b, r, words).trace);
             && Slot(r) in after && At(Address(r) + 1) in after
             && later.replies != [] && later.replies[0].Block? && |later.replies[0].values| == 2
             && later.replies[0].values[0] == after[Slot(r)]
             && later.replies[0].values[1] == after[At(Address(r) + 1)]
    ensures ReadFloatWords(later, r).out == Ok(words)
  {
    var es := [WriteReg(Slot(r), words.0), WriteReg(At(Address(r) + 1), words.1)];
    StoreConcat(mem, b.trace, es);
    StoreTwoWrites(Store(mem, b.trace), Slot(r), words.0, At(Address(r) + 1), words.1);
  }

  lemma StoreTwoWrites(m: map<Loc, nat>, k0: Loc, v0: nat, k1: Loc, v1: nat)
    ensures Store(m, [WriteReg(k0, v0), WriteReg(k1, v1)]) == m[k0 := v0][k1 := v1]
  {
    var es := [WriteReg(k0, v0), WriteReg(k1, v1)];
    var m1 := m[k0 := v0];
    assert Store(m, es) == Store(m1, es[1..]);
    assert es[1..] == [WriteReg(k1, v1)];
    assert Store(m1, [WriteReg(k1, v1)]) == Store(m1[k1 := v1], []);
  }

  // ---------------------------------------------------------------------
  // Heater toggle counters

  /** `HeatersToggleCounts`: a field left `None` is not written. */
  datatype HeaterToggleCounts = HeaterToggleCounts(sgAb: Option<nat>, chAb: Option<nat>, sgC: Option<nat>)

  function OptionalWrite(b: Bus, loc: Loc, v: Option<nat>): Bus {
    if v.Some? then Write(b, loc, v.value) else b
  }

  /** `set_heater_toggle_cnts`: writes sg_ab, ch_ab, sg_c in that order,
      skipping `None`. */
  function SetHeaterToggleCounts(b: Bus, c: HeaterToggleCounts): (s: Bus)
    ensures s.replies == b.replies
    ensures |s.trace| >= |b.trace| && s.trace[..|b.trace|] == b.trace
    ensures forall i :: |b.trace| <= i < |s.trace| ==> s.trace[i].WriteReg?
    ensures |s.trace| - |b.trace|
            == (if c.sgAb.Some? then 1 else 0) + (if c.chAb.Some? then 1 else 0) + (if c.sgC.Some? then 1 else 0)
  {
    var b1 := OptionalWrite(b, Ext(HeatersToggleMsrSgAb), c.sgAb);
    var b2 := OptionalWrite(b1, Ext(HeatersToggleMsrChAb), c.chAb);
    var b3 := OptionalWrite(b2, Ext(HeatersToggleMsrSgC), c.sgC);
    assert b3.trace[..|b.trace|] == b.trace by {
      assert b3.trace[..|b2.trace|] == b2.trace && b2.trace[..|b1.trace|] == b1.trace;
      assert b1.trace[..|b.trace|] == b.trace;
    }
    b3
  }

  /** The effect of one optional field on a counter register. */
  predicate StoredAs(before: map<Loc, nat>, after: map<Loc, nat>, loc: Loc, v: Option<nat>) {
    if v.Some? then loc in after && after[loc] == v.value
    else (loc in after <==> loc in before) && (loc in before ==> after[loc] == before[loc])
  }

  lemma OptionalWriteStores(mem: map<Loc, nat>, b: Bus, loc: Loc, v: Option<nat>)
    ensures Store(mem, OptionalWrite(b, loc, v).trace)
            == if v.Some? then Store(mem, b.trace)[loc := v.value] else Store(mem, b.trace)
  {
    if v.Some? {
      StoreConcat(mem, b.trace, [WriteReg(loc, v.value)]);
    }
  }

  /** A counter register ends up holding its field when the field is
      given, and keeps its old contents when it is not; no other register
      changes. */
  lemma {:induction false} HeaterCountsStored(mem: map<Loc, nat>, b: Bus, c: HeaterToggleCounts, other: Loc)
    requires other !in {Ext(HeatersToggleMsrSgAb), Ext(HeatersToggleMsrChAb), Ext(HeatersToggleMsrSgC)}
    ensures var before, after := Store(mem, b.trace), Store(mem, SetHeaterToggleCounts(b, c).trace);
            && StoredAs(before, after, Ext(HeatersToggleMsrSgAb), c.sgAb)
            && StoredAs(before, after, Ext(HeatersToggleMsrChAb), c.chAb)
            && StoredAs(before, after, Ext(HeatersToggleMsrSgC), c.sgC)
            && StoredAs(before, after, other, None)
  {
    var b1 := OptionalWrite(b, Ext(HeatersToggleMsrSgAb), c.sgAb);
    var b2 := OptionalWrite(b1, Ext(HeatersToggleMsrChAb), c.chAb);
    OptionalWriteStores(mem, b, Ext(HeatersToggleMsrSgAb), c.sgAb);
    OptionalWriteStores(mem, b1, Ext(HeatersToggleMsrChAb), c.chAb);
    OptionalWriteStores(mem, b2, Ext(HeatersToggleMsrSgC), c.sgC);
  }

  // ---------------------------------------------------------------------
  // Power state

  datatype PowerState = PowerState(ptrn: Word16, chPwr: Word16, chTar: Word16, sgPwr: Word16, sgTar: Word16)

  /** The registers `get_pwr_state` reads, in field order. */
  const PowerRegisters: seq<Reg> := [PwrCtrlPattern, PwrChDrvMonitor, PwrChTarget, PwrSgDrvMonitor, PwrSgTarget]

  /** The next `n` replies are all register words. */
  predicate WordReplies(rs: seq<Reply>, n: nat): (ok: bool)
    ensures ok ==> |rs| >= n
    decreases n
  {
    n == 0 || (rs != [] && rs[0].Word? && WordReplies(rs[1..], n - 1))
  }

  /** The values of the next `n` word replies. */
  function WordValues(rs: seq<Reply>, n: nat): (vs: seq<Word16>)
    requires WordReplies(rs, n)
    ensures |vs| == n
    decreases n
  {
    if n == 0 then [] else [rs[0].value] + WordValues(rs[1..], n - 1)
  }

  /** `WordReplies` and `WordValues` read position by position. */
  lemma {:induction false} WordRepliesAt(rs: seq<Reply>, n: nat)
    ensures WordReplies(rs, n) <==> |rs| >= n && forall i :: 0 <= i < n ==> rs[i].Word?
    ensures WordReplies(rs, n) ==> forall i :: 0 <= i < n ==> WordValues(rs, n)[i] == rs[i].value
    decreases n
  {
    if n > 0 && rs != [] {
      WordRepliesAt(rs[1..], n - 1);
      assert forall i :: 1 <= i < n && i < |rs| ==> rs[1..][i - 1] == rs[i];
    }
  }

  /** One read request per register, in order. */
  function ReadEvents(regs: seq<Reg>): (es: seq<Event>)
    ensures |es| == |regs|
  {
    if regs == [] then [] else [ReadReg(Slot(regs[0]))] + ReadEvents(regs[1..])
  }

  lemma {:induction false} ReadEventsAt(regs: seq<Reg>)
    ensures forall i :: 0 <= i < |regs| ==> ReadEvents(regs)[i] == ReadReg(Slot(regs[i]))
  {
    if regs != [] {
      ReadEventsAt(regs[1..]);
      assert forall i :: 1 <= i < |regs| ==> regs[1..][i - 1] == regs[i];
    }
  }

  /** Single-register reads of `regs`, one reply each; the first failed
      read ends the sequence. */
  function ReadRegisters(b: Bus, regs: seq<Reg>): (s: Step<seq<Word16>>)
    ensures Writes(s.bus.trace) == Writes(b.trace)
    ensures s.out.Ok? <==> WordReplies(b.replies, |regs|)
    ensures s.out.Ok? ==>
              && s.bus.trace == b.trace + ReadEvents(regs)
              && s.bus.replies == b.replies[|regs|..]
              && s.out.value == WordValues(b.replies, |regs|)
    ensures s.out.Err? ==> s.out.error.TransportFault?
    decreases |regs|
  {
    if regs == [] then Step(b, Ok([]))
    else
      var r := Read(b, Slot(regs[0]));
      WritesAfterRead(b.trace, Slot(regs[0]));
      if r.out.Err? then Step(r.bus, Err(r.out.error))
      else
        var rest := ReadRegisters(r.bus, regs[1..]);
        if rest.out.Err? then rest
        else
          assert b.replies[1..][|regs| - 1..] == b.replies[|regs|..];
          Step(rest.bus, Ok([r.out.value] + rest.out.value))
  }

  /** `get_pwr_state` */
  function GetPowerState(b: Bus): (s: Step<PowerState>)
    ensures Writes(s.bus.trace) == Writes(b.trace)
    ensures s.out.Ok? <==> WordReplies(b.replies, 5)
    ensures s.out.Ok? ==>
              && s.bus.trace == b.trace + ReadEvents(PowerRegisters)
              && var vs := WordValues(b.replies, 5);
                 s.out.value == PowerState(vs[0], vs[1], vs[2], vs[3], vs[4])
  {
    var r := ReadRegisters(b, PowerRegisters);
    if r.out.Err? then Step(r.bus, Err(r.out.error))
    else Step(r.bus, Ok(PowerState(r.out.value[0], r.out.value[1], r.out.value[2], r.out.value[3], r.out.value[4])))
  }

  /** Five word replies make `get_pwr_state` succeed with those five words. */
  lemma PowerStateOf(b: Bus)
    requires |b.replies| >= 5 && forall i :: 0 <= i < 5 ==> b.replies[i].Word?
    ensures GetPowerState(b).out
            == Ok(PowerState(b.replies[0].value, b.replies[1].value, b.replies[2].value,
                             b.replies[3].value, b.replies[4].value))
    ensures GetPowerState(b).bus.trace[|b.trace|..] == ReadEvents(PowerRegisters)
  {
    WordRepliesAt(b.replies, 5);
  }

  // ---------------------------------------------------------------------
  // Process lifecycle

  const Selection: Loc := Slot(ProcSelectStart)
  const Status: Loc := Slot(ProcStatus)
  /** The status word of a running process. */
  const Running: nat := 1
  /** The word that cancels the running process. */
  const Cancel: nat := 0xFFFF

  /** `start_process` after its screen read: refuse if a process is
      running, otherwise write the selector and raise the start flag. */
  function StartChecked(b: Bus, t: ProcessType): (s: Step<()>)
    ensures !(b.replies != [] && b.replies[0].Word? && b.replies[0].value != Running) ==>
              && s.out.Err? && s.bus.trace == b.trace + [ReadReg(Status)]
              && Writes(s.bus.trace) == Writes(b.trace)
              && (b.replies != [] && b.replies[0] == Word(Running) ==> s.out == Err(AlreadyRunning))
    ensures b.replies != [] && b.replies[0].Word? && b.replies[0].value != Running ==>
              && s.bus.trace == b.trace + [ReadReg(Status), WriteReg(Selection, Selector(t)),
                                           WriteReg(Selection, Activate), ReadReg(Selection)]
              && Writes(s.bus.trace) == Writes(b.trace) + [WriteReg(Selection, Selector(t)), WriteReg(Selection, Activate)]
              && (s.out.Ok? <==> NextIs(b.replies[1..], Cleared))
  {
    var status := Read(b, Status);
    WritesAfterRead(b.trace, Status);
    if status.out.Err? then Step(status.bus, Err(status.out.error))
    else if status.out.value == Running then Step(status.bus, Err(AlreadyRunning))
    else
      var b1 := Write(status.bus, Selection, Selector(t));
      WritesAfterWrite(status.bus.trace, Selection, Selector(t));
      WriteCtrlRegFeedback(b1, Selection)
  }

  /** `start_process`: report the current screen, refuse if a process is
      running, otherwise write the selector and raise the start flag. */
  function StartProcess(b: Bus, t: ProcessType): (s: Step<()>)
    // raises before any write when a read fails or a process runs
    ensures !(|b.replies| >= 2 && b.replies[0].Word? && b.replies[1].Word? && b.replies[1].value != Running) ==>
              s.out.Err? && Writes(s.bus.trace) == Writes(b.trace)
    ensures |b.replies| >= 2 && b.replies[0].Word? && b.replies[1] == Word(Running) ==>
              s.out == Err(AlreadyRunning)
    // otherwise: exactly the selector, then the control flag, on the same register
    ensures |b.replies| >= 2 && b.replies[0].Word? && b.replies[1].Word? && b.replies[1].value != Running ==>
              && Writes(s.bus.trace) == Writes(b.trace) + [WriteReg(Selection, Selector(t)), WriteReg(Selection, Activate)]
              && (s.out.Ok? <==> NextIs(b.replies[2..], Cleared))
    // the requests: the screen read, then the status read, then the two writes
    ensures !(b.replies != [] && b.replies[0].Word?) ==> s.bus.trace == b.trace + [ReadReg(Ext(ChangeScreen))]
    ensures b.replies != [] && b.replies[0].Word? && !(|b.replies| >= 2 && b.replies[1].Word? && b.replies[1].value != Running) ==>
              s.bus.trace == b.trace + [ReadReg(Ext(ChangeScreen)), ReadReg(Status)]
    ensures |b.replies| >= 2 && b.replies[0].Word? && b.replies[1].Word? && b.replies[1].value != Running ==>
              s.bus.trace == b.trace + [ReadReg(Ext(ChangeScreen)), ReadReg(Status),
                                        WriteReg(Selection, Selector(t)), WriteReg(Selection, Activate), ReadReg(Selection)]
  {
    var screen := Read(b, Ext(ChangeScreen));
    WritesAfterRead(b.trace, Ext(ChangeScreen));
    if screen.out.Err? then Step(screen.bus, Err(screen.out.error))
    else
      var s := StartChecked(screen.bus, t);
      assert screen.bus.replies == b.replies[1..];
      assert b.trace + [ReadReg(Ext(ChangeScreen))] + [ReadReg(Status)]
             == b.trace + [ReadReg(Ext(ChangeScreen)), ReadReg(Status)];
      assert b.trace + [ReadReg(Ext(ChangeScreen))] + [ReadReg(Status), WriteReg(Selection, Selector(t)),
                                                       WriteReg(Selection, Activate), ReadReg(Selection)]
             == b.trace + [ReadReg(Ext(ChangeScreen)), ReadReg(Status),
                           WriteReg(Selection, Selector(t)), WriteReg(Selection, Activate), ReadReg(Selection)];
      s
  }

  /** `interrupt_process`: nothing unless a process runs; then the cancel
      word, and a verified switch to the main screen. */
  function InterruptProcess(b: Bus, mainScreen: nat): (s: Step<()>)
    ensures !(b.replies != [] && b.replies[0].Word?) ==> s.out.Err? && Writes(s.bus.trace) == Writes(b.trace)
    ensures b.replies != [] && b.replies[0].Word? && b.replies[0].value != Running ==>
              s.out.Ok? && Writes(s.bus.trace) == Writes(b.trace)
    ensures b.replies != [] && b.replies[0] == Word(Running) ==>
              && Writes(s.bus.trace) == Writes(b.trace) + [WriteReg(Selection, Cancel), WriteReg(Ext(ChangeScreen), mainScreen)]
              && (s.out.Ok? <==> NextIs(b.replies[1..], mainScreen))
    // the requests: the status read, then, for a running process, the cancel and the verified switch
    ensures !(b.replies != [] && b.replies[0] == Word(Running)) ==> s.bus.trace == b.trace + [ReadReg(Status)]
    ensures b.replies != [] && b.replies[0] == Word(Running) ==>
              s.bus.trace == b.trace + [ReadReg(Status), WriteReg(Selection, Cancel),
                                        WriteReg(Ext(ChangeScreen), mainScreen), ReadReg(Ext(ChangeScreen))]
  {
    var status := Read(b, Status);
    WritesAfterRead(b.trace, Status);
    if status.out.Err? then Step(status.bus, Err(status.out.error))
    else if status.out.value != Running then Step(status.bus, Ok(()))
    else
      var b1 := Write(status.bus, Selection, Cancel);
      WritesAfterWrite(status.bus.trace, Selection, Cancel);
      WriteRegFeedback(b1, Ext(ChangeScreen), mainScreen)
  }
}
