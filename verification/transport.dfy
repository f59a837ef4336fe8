/** The register-level view of one device session.

    A session is a trace of the requests the controller issued plus the
    replies the device still has to give, in order. Every read request
    consumes one reply; a missing reply or one of the wrong shape is a
    transport fault, surfaced at once. Writes are atomic events that the
    link always accepts. */
module Transport {

  import opened Words
  import opened Registers

  datatype Event =
    | WriteReg(loc: Loc, value: nat)
    | ReadReg(loc: Loc)
    | ReadRegs(loc: Loc, count: nat)
    | WriteText(loc: Loc, text: string)
    | ReadText(loc: Loc, count: nat)
  {
    predicate IsWrite() {
      WriteReg? || WriteText?
    }
  }

  /** What the device answers to one read request. */
  datatype Reply =
    | Word(value: Word16)
    | Block(values: seq<Word16>)
    | Text(text: string)
    | NoResponse

  datatype Error =
    | TransportFault(loc: Loc)
    | VerificationMismatch(expected: nat, actual: nat)
    | ActuationTimeout(action: string)
    | AlreadyRunning
    | InvalidArgument

  datatype Result<+T> = Ok(value: T) | Err(error: Error)

  datatype Bus = Bus(trace: seq<Event>, replies: seq<Reply>)

  /** The session after an operation, and what the operation returned or raised. */
  datatype Step<+T> = Step(bus: Bus, out: Result<T>)

  function Rest(rs: seq<Reply>): seq<Reply> {
    if rs == [] then [] else rs[1..]
  }

  function Issue(b: Bus, e: Event): Bus {
    Bus(b.trace + [e], b.replies)
  }

  /** `write_register(loc, value)` */
  function Write(b: Bus, loc: Loc, value: nat): Bus {
    Issue(b, WriteReg(loc, value))
  }

  /** `read_register(loc)` */
  function Read(b: Bus, loc: Loc): (s: Step<Word16>)
    ensures s.bus.trace == b.trace + [ReadReg(loc)]
    ensures s.bus.replies == Rest(b.replies)
    ensures s.out.Ok? <==> b.replies != [] && b.replies[0].Word?
    ensures s.out.Ok? ==> s.out.value == b.replies[0].value
    ensures s.out.Err? ==> s.out.error == TransportFault(loc)
  {
    var b' := Bus(b.trace + [ReadReg(loc)], Rest(b.replies));
    if b.replies != [] && b.replies[0].Word? then Step(b', Ok(b.replies[0].value))
    else Step(b', Err(TransportFault(loc)))
  }

  /** `read_registers(loc, count)`: one request answered by `count` words. */
  function ReadBlock(b: Bus, loc: Loc, count: nat): (s: Step<seq<Word16>>)
    ensures s.bus.trace == b.trace + [ReadRegs(loc, count)]
    ensures s.bus.replies == Rest(b.replies)
    ensures s.out.Ok? <==> b.replies != [] && b.replies[0].Block? && |b.replies[0].values| == count
    ensures s.out.Ok? ==> s.out.value == b.replies[0].values
  {
    var b' := Bus(b.trace + [ReadRegs(loc, count)], Rest(b.replies));
    if b.replies != [] && b.replies[0].Block? && |b.replies[0].values| == count then
      Step(b', Ok(b.replies[0].values))
    else Step(b', Err(TransportFault(loc)))
  }

  /** `write_string(loc, text, count)` */
  function WriteString(b: Bus, loc: Loc, text: string): Bus {
    Issue(b, WriteText(loc, text))
  }

  /** `read_string(loc, count)` */
  function ReadString(b: Bus, loc: Loc, count: nat): (s: Step<string>)
    ensures s.bus.trace == b.trace + [ReadText(loc, count)]
    ensures s.bus.replies == Rest(b.replies)
    ensures s.out.Ok? <==> b.replies != [] && b.replies[0].Text?
    ensures s.out.Ok? ==> s.out.value == b.replies[0].text
    ensures s.out.Err? ==> s.out.error.TransportFault?
  {
    var b' := Bus(b.trace + [ReadText(loc, count)], Rest(b.replies));
    if b.replies != [] && b.replies[0].Text? then Step(b', Ok(b.replies[0].text))
    else Step(b', Err(TransportFault(loc)))
  }

  // ---------------------------------------------------------------------
  // Observing traces

  /** The write requests of a trace, in order. */
  function Writes(t: seq<Event>): seq<Event> {
    if t == [] then []
    else (if t[0].IsWrite() then [t[0]] else []) + Writes(t[1..])
  }

  lemma {:induction false} WritesConcat(a: seq<Event>, b: seq<Event>)
    ensures Writes(a + b) == Writes(a) + Writes(b)
  {
    if a == [] {
      assert a + b == b;
    } else {
      assert (a + b)[1..] == a[1..] + b;
      WritesConcat(a[1..], b);
    }
  }

  /** Appending a read request adds no write. */
  lemma WritesAfterRead(t: seq<Event>, loc: Loc)
    ensures Writes(t + [ReadReg(loc)]) == Writes(t)
  {
    WritesConcat(t, [ReadReg(loc)]);
  }

  /** Appending a write request adds exactly that write. */
  lemma WritesAfterWrite(t: seq<Event>, loc: Loc, value: nat)
    ensures Writes(t + [WriteReg(loc, value)]) == Writes(t) + [WriteReg(loc, value)]
  {
    WritesConcat(t, [WriteReg(loc, value)]);
  }

  // ---------------------------------------------------------------------
  // An ideal register file, for round trips through the device

  /** The register contents after the device applies the writes of `t`. */
  function Store(mem: map<Loc, nat>, t: seq<Event>): map<Loc, nat>
    decreases |t|
  {
    if t == [] then mem
    else Store(if t[0].WriteReg? then mem[t[0].loc := t[0].value] else mem, t[1..])
  }

  /** Applying two traces one after the other is applying their concatenation. */
  lemma {:induction false} StoreConcat(mem: map<Loc, nat>, a: seq<Event>, b: seq<Event>)
    ensures Store(mem, a + b) == Store(Store(mem, a), b)
    decreases |a|
  {
    if a != [] {
      assert (a + b)[1..] == a[1..] + b;
      StoreConcat(if a[0].WriteReg? then mem[a[0].loc := a[0].value] else mem, a[1..], b);
    } else {
      assert a + b == b;
    }
  }
}
