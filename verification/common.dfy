/** The shared vocabulary of the controller: process types and their
    device selectors, the command-line labels, the generic wait-for-value
    loop, and the two-word register read behind every float. */
module Common {

  import opened Options
  import opened Words
  import opened Registers
  import opened Transport
  import opened Codecs

  // ---------------------------------------------------------------------
  // Process types

  datatype ProcessType = P134 | P134Fast | P121 | Prion | TVac | THelix

  /** The enumeration value of each process type (1..6). */
  function EnumValue(t: ProcessType): nat {
    match t
    case P134 => 1
    case P134Fast => 2
    case P121 => 3
    case Prion => 4
    case TVac => 5
    case THelix => 6
  }

  /** `process_type_values`: the word written to PROC_SELECT_START to
      select a process. None is a sentinel of that register: not the
      cleared flag 0, not the activating flag 1, not the cancel word
      0xFFFF. */
  function Selector(t: ProcessType): (v: Word16)
    ensures v != 0 && v != 1 && v != 0xFFFF
  {
    match t
    case P121 => 3
    case P134 => 4
    case P134Fast => 7
    case Prion => 9
    case TVac => 6
    case THelix => 5
  }

  /** The process type a selector word selects, if any: the inverse table. */
  function SelectedBy(v: nat): (t: Option<ProcessType>)
    ensures t.Some? ==> v in {3, 4, 5, 6, 7, 9}
  {
    match v
    case 3 => Some(P121)
    case 4 => Some(P134)
    case 5 => Some(THelix)
    case 6 => Some(TVac)
    case 7 => Some(P134Fast)
    case 9 => Some(Prion)
    case _ => None
  }

  /** The selector table is injective: each word selects exactly the type
      it was written for. */
  lemma SelectorInverse(t: ProcessType, v: nat)
    ensures SelectedBy(Selector(t)) == Some(t)
    ensures SelectedBy(v) == Some(t) <==> v == Selector(t)
  {
  }

  /** The enumeration values are injective too. */
  lemma EnumValueInjective(t1: ProcessType, t2: ProcessType)
    ensures EnumValue(t1) == EnumValue(t2) <==> t1 == t2
    ensures 1 <= EnumValue(t1) <= 6
  {
  }

  // ---------------------------------------------------------------------
  // Command-line labels

  /** `process_labels` */
  const ProcessLabels: seq<string> := ["121", "134", "134f", "prion", "tvac", "thelix"]

  /** `label_to_process_type` */
  const LabelToProcessType: map<string, ProcessType> := map[
    "121" := P121, "134" := P134, "134f" := P134Fast,
    "prion" := Prion, "tvac" := TVac, "thelix" := THelix]

  /** The label of each process type. */
  function Label(t: ProcessType): (l: string)
    ensures l in ProcessLabels
  {
    match t
    case P121 => "121"
    case P134 => "134"
    case P134Fast => "134f"
    case Prion => "prion"
    case TVac => "tvac"
    case THelix => "thelix"
  }

  /** The map's keys are exactly the listed labels, each listed once. */
  lemma LabelKeys()
    ensures LabelToProcessType.Keys == set i | 0 <= i < |ProcessLabels| :: ProcessLabels[i]
    ensures forall i, j :: 0 <= i < j < |ProcessLabels| ==> ProcessLabels[i] != ProcessLabels[j]
  {
    var s := set i | 0 <= i < |ProcessLabels| :: ProcessLabels[i];
    assert ProcessLabels[0] in s && ProcessLabels[1] in s && ProcessLabels[2] in s;
    assert ProcessLabels[3] in s && ProcessLabels[4] in s && ProcessLabels[5] in s;
  }

  /** The label map is a bijection onto the process types, with `Label`
      as its inverse. */
  lemma LabelBijection(t: ProcessType, l: string)
    ensures Label(t) in LabelToProcessType && LabelToProcessType[Label(t)] == t
    ensures l in LabelToProcessType ==> Label(LabelToProcessType[l]) == l
  {
  }

  // ---------------------------------------------------------------------
  // await_value

  /** The first `k` polls returned without raising and did not match. */
  predicate MissesBefore<T(==)>(samples: seq<Result<T>>, value: T, k: nat) {
    k <= |samples| && forall i :: 0 <= i < k ==> samples[i].Ok? && samples[i].value != value
  }

  /** Poll k is the first whose result equals `value`, and it comes
      before the deadline. */
  predicate FirstMatchWithin<T(==)>(samples: seq<Result<T>>, value: T, budget: Option<nat>, k: nat) {
    && MissesBefore(samples, value, k)
    && k < |samples| && samples[k] == Ok(value)
    && (budget.None? || k <= budget.value)
  }

  /** Poll k raises, after non-matching polls only, before the deadline. */
  predicate RaisesWithin<T(==)>(samples: seq<Result<T>>, value: T, budget: Option<nat>, k: nat) {
    && MissesBefore(samples, value, k)
    && k < |samples| && samples[k].Err?
    && (budget.None? || k <= budget.value)
  }

  /** With a budget of n, the first n + 1 polls return without matching. */
  predicate MissesPastDeadline<T(==)>(samples: seq<Result<T>>, value: T, budget: Option<nat>) {
    budget.Some? && MissesBefore(samples, value, budget.value + 1)
  }

  /** `await_value`, with the polled function's results given as `samples`
      (an `Err` is a call that raised) and the timeout as a poll budget
      (with `Some(n)`, the deadline has passed at the (n+1)-th
      non-matching poll). The answer is `Some(Ok(true))` or
      `Some(Ok(false))` as returned, `Some(Err(e))` when a call raised `e`,
      which `await_value` does not catch, or `None` when the samples ran
      out while still waiting. `polls` counts non-matching polls. */
  method AwaitValue<T(==)>(samples: seq<Result<T>>, value: T, budget: Option<nat>)
    returns (r: Option<Result<bool>>, polls: nat)
    ensures MissesBefore(samples, value, polls)
    // True on the first matching poll, checked before the deadline
    ensures r == Some(Ok(true)) ==> FirstMatchWithin(samples, value, budget, polls)
    // and the converse: a first match within the budget is reported as True
    ensures forall k: nat :: FirstMatchWithin(samples, value, budget, k) ==> r == Some(Ok(true)) && polls == k
    // a raising call ends the wait with its error, and only then is there an error
    ensures r.Some? && r.value.Err? ==>
              RaisesWithin(samples, value, budget, polls) && samples[polls] == Err(r.value.error)
    ensures forall k: nat :: RaisesWithin(samples, value, budget, k) ==> r == Some(Err(samples[k].error)) && polls == k
    // False only after a non-matching poll, with a budget, once it is spent
    ensures r == Some(Ok(false)) ==> budget.Some? && polls == budget.value + 1
    ensures MissesPastDeadline(samples, value, budget) ==> r == Some(Ok(false))
    ensures budget.None? ==> r != Some(Ok(false))
    ensures r.None? ==> polls == |samples| && (budget.None? || polls <= budget.value)
  {
    polls := 0;
    r := None;
    while polls < |samples|
      invariant MissesBefore(samples, value, polls)
      invariant budget.Some? ==> polls <= budget.value
      decreases |samples| - polls
    {
      if samples[polls].Err? {
        return Some(Err(samples[polls].error)), polls;
      }
      if samples[polls].value == value {
        return Some(Ok(true)), polls;
      }
      polls := polls + 1;
      if budget.Some? && polls > budget.value {
        return Some(Ok(false)), polls;
      }
    }
  }

  // ---------------------------------------------------------------------
  // Float registers as 32-bit patterns

  /** `read_float_register` up to the IEEE reinterpretation: one
      two-register read, the first word as the high half. */
  function ReadFloatRegister(b: Bus, loc: Loc): (s: Step<nat>)
    ensures s.bus.trace == b.trace + [ReadRegs(loc, 2)]
    ensures s.bus.replies == Rest(b.replies)
    ensures s.out.Ok? <==> b.replies != [] && b.replies[0].Block? && |b.replies[0].values| == 2
    ensures s.out.Ok? ==> s.out.value <= 0xFFFF_FFFF
    ensures s.out.Ok? ==> SplitWords(s.out.value) == (b.replies[0].values[0], b.replies[0].values[1])
    ensures s.out.Err? ==> s.out.error.TransportFault?
  {
    var r := ReadBlock(b, loc, 2);
    if r.out.Err? then Step(r.bus, Err(TransportFault(loc)))
    else
      var first, second := r.out.value[0], r.out.value[1];
      JoinInRange(first, second);
      SplitJoin(first, second);
      Step(r.bus, Ok(JoinWords(first, second)))
  }

  // ---------------------------------------------------------------------
  // A process line

  /** One sample of a running process. The four measurements are kept as
      the raw 32-bit patterns of their registers. */
  datatype ProcessLine = ProcessLine(
    sec: Word16, phase: Word16,
    ptrn: Word16, chPwr: Word16, chTar: Word16, sgPwr: Word16, sgTar: Word16,
    pProc: nat, tProc: nat, tChmbr: nat, tStmgn: nat,
    flags: ValveRelayFlags)
}
