/** The device's register map: every named 16-bit slot and its address.

    The addresses are a compatibility surface: they are reproduced exactly.
    Registers that the controller uses but whose addresses are not part of
    this model are kept abstract (`External`), distinct from each other
    and from every numbered address. */
module Registers {

  import opened Options

  datatype Reg =
    | ProcPhase | FirmwareVersion | DipSwitch | DeviceId
    | SaveAll | SaveAllSerialNum | SaveAllISaveParams
    | DoorUnlocked | DoorOpen | CoilControl | BoardNum | ProcSelectStart
    | ExecutionCounter
    | DatetimeGetYear | DatetimeGetMonth | DatetimeGetDay
    | DatetimeGetHour | DatetimeGetMinute | DatetimeGetSecond
    | DatetimeGetSetDay | DatetimeGetSetMonth | DatetimeGetSetYear
    | DatetimeGetSetHour | DatetimeGetSetMinute | DatetimeSave
    | ScaleFactorsPressProcA | ScaleFactorsTmprProcA
    | ScaleFactorsTmprChmbrA | ScaleFactorsTmprSgA
    | ScaleFactorsPressProcB | ScaleFactorsTmprProcB
    | ScaleFactorsTmprChmbrB | ScaleFactorsTmprSgB
    | PressureProcess | TemperatureProcess | TemperatureChamber
    | TemperatureSteamgen | AtmosphericPressure
    | AdcfTmprProcess | AdcfTmprChamber | AdcfTmprSteamge
    | StandbyCoolingThrsh
    | RelaySteamgenAb | RelayChamberAb | RelayPumpVacuum | RelayPumpWater
    | Valve1 | Valve2 | Valve3 | Valve5 | RelaySteamgenC
    | TestFloat | TestInt | StmReboot | ProcStatus | ProcSeconds
    | PwrCtrlPattern | PwrChCtrl | PwrChDrvMonitor | PwrChTarget
    | PwrSgCtrl | PwrSgTarget | PwrSgDrvMonitor
    | ValvesAndRelays

  /** Registers the controller addresses whose numbers are defined outside
      the register table. */
  datatype External =
    | ChangeScreen | ProcDoState | PressureRelative | TemperatureExternal
    | AdcfPressProcess
    | HeatersToggleMsrSgAb | HeatersToggleMsrChAb | HeatersToggleMsrSgC
    | Backlight | UseDefaultModbusParams

  /** A register location as it appears in a bus event. */
  datatype Loc = At(addr: nat) | Ext(reg: External)

  function Address(r: Reg): (a: nat)
    ensures a < 0x1_0000
    ensures Named(a) == Some(r)
  {
    match r
    case ProcPhase => 4
    case FirmwareVersion => 5
    case DipSwitch => 164
    case DeviceId => 1024
    case SaveAll => 76
    case SaveAllSerialNum => 77
    case SaveAllISaveParams => 118
    case DoorUnlocked => 1531
    case DoorOpen => 1528
    case CoilControl => 40
    case BoardNum => 512
    case ProcSelectStart => 95
    case ExecutionCounter => 65
    case DatetimeGetYear => 1512
    case DatetimeGetMonth => 1513
    case DatetimeGetDay => 1514
    case DatetimeGetHour => 1515
    case DatetimeGetMinute => 1516
    case DatetimeGetSecond => 1517
    case DatetimeGetSetDay => 111
    case DatetimeGetSetMonth => 112
    case DatetimeGetSetYear => 113
    case DatetimeGetSetHour => 114
    case DatetimeGetSetMinute => 115
    case DatetimeSave => 116
    case ScaleFactorsPressProcA => 514
    case ScaleFactorsTmprProcA => 516
    case ScaleFactorsTmprChmbrA => 518
    case ScaleFactorsTmprSgA => 520
    case ScaleFactorsPressProcB => 526
    case ScaleFactorsTmprProcB => 528
    case ScaleFactorsTmprChmbrB => 530
    case ScaleFactorsTmprSgB => 532
    case PressureProcess => 562
    case TemperatureProcess => 564
    case TemperatureChamber => 566
    case TemperatureSteamgen => 568
    case AtmosphericPressure => 576
    case AdcfTmprProcess => 552
    case AdcfTmprChamber => 554
    case AdcfTmprSteamge => 556
    case StandbyCoolingThrsh => 223
    case RelaySteamgenAb => 1519
    case RelayChamberAb => 1520
    case RelayPumpVacuum => 1521
    case RelayPumpWater => 1522
    case Valve1 => 1523
    case Valve2 => 1524
    case Valve3 => 1525
    case Valve5 => 1526
    case RelaySteamgenC => 1551
    case TestFloat => 3490
    case TestInt => 3492
    case StmReboot => 3499
    case ProcStatus => 3502
    case ProcSeconds => 3500
    case PwrCtrlPattern => 3493
    case PwrChCtrl => 3494
    case PwrChDrvMonitor => 3504
    case PwrChTarget => 3495
    case PwrSgCtrl => 3496
    case PwrSgTarget => 3497
    case PwrSgDrvMonitor => 3505
    case ValvesAndRelays => 3503
  }

  /** Reverse lookup: which named register, if any, sits at `a`. Written
      independently of `Address`, ordered by address. */
  function Named(a: nat): Option<Reg> {
    match a
    case 4 => Some(ProcPhase)
    case 5 => Some(FirmwareVersion)
    case 40 => Some(CoilControl)
    case 65 => Some(ExecutionCounter)
    case 76 => Some(SaveAll)
    case 77 => Some(SaveAllSerialNum)
    case 95 => Some(ProcSelectStart)
    case 111 => Some(DatetimeGetSetDay)
    case 112 => Some(DatetimeGetSetMonth)
    case 113 => Some(DatetimeGetSetYear)
    case 114 => Some(DatetimeGetSetHour)
    case 115 => Some(DatetimeGetSetMinute)
    case 116 => Some(DatetimeSave)
    case 118 => Some(SaveAllISaveParams)
    case 164 => Some(DipSwitch)
    case 223 => Some(StandbyCoolingThrsh)
    case 512 => Some(BoardNum)
    case 514 => Some(ScaleFactorsPressProcA)
    case 516 => Some(ScaleFactorsTmprProcA)
    case 518 => Some(ScaleFactorsTmprChmbrA)
    case 520 => Some(ScaleFactorsTmprSgA)
    case 526 => Some(ScaleFactorsPressProcB)
    case 528 => Some(ScaleFactorsTmprProcB)
    case 530 => Some(ScaleFactorsTmprChmbrB)
    case 532 => Some(ScaleFactorsTmprSgB)
    case 552 => Some(AdcfTmprProcess)
    case 554 => Some(AdcfTmprChamber)
    case 556 => Some(AdcfTmprSteamge)
    case 562 => Some(PressureProcess)
    case 564 => Some(TemperatureProcess)
    case 566 => Some(TemperatureChamber)
    case 568 => Some(TemperatureSteamgen)
    case 576 => Some(AtmosphericPressure)
    case 1024 => Some(DeviceId)
    case 1512 => Some(DatetimeGetYear)
    case 1513 => Some(DatetimeGetMonth)
    case 1514 => Some(DatetimeGetDay)
    case 1515 => Some(DatetimeGetHour)
    case 1516 => Some(DatetimeGetMinute)
    case 1517 => Some(DatetimeGetSecond)
    case 1519 => Some(RelaySteamgenAb)
    case 1520 => Some(RelayChamberAb)
    case 1521 => Some(RelayPumpVacuum)
    case 1522 => Some(RelayPumpWater)
    case 1523 => Some(Valve1)
    case 1524 => Some(Valve2)
    case 1525 => Some(Valve3)
    case 1526 => Some(Valve5)
    case 1528 => Some(DoorOpen)
    case 1531 => Some(DoorUnlocked)
    case 1551 => Some(RelaySteamgenC)
    case 3490 => Some(TestFloat)
    case 3492 => Some(TestInt)
    case 3493 => Some(PwrCtrlPattern)
    case 3494 => Some(PwrChCtrl)
    case 3495 => Some(PwrChTarget)
    case 3496 => Some(PwrSgCtrl)
    case 3497 => Some(PwrSgTarget)
    case 3499 => Some(StmReboot)
    case 3500 => Some(ProcSeconds)
    case 3502 => Some(ProcStatus)
    case 3503 => Some(ValvesAndRelays)
    case 3504 => Some(PwrChDrvMonitor)
    case 3505 => Some(PwrSgDrvMonitor)
    case _ => None
  }

  /** The bus location of a named register. */
  function Slot(r: Reg): Loc {
    At(Address(r))
  }

  /** Registers that hold a 32-bit float across two consecutive words. */
  predicate IsFloatSlot(r: Reg) {
    r in {ScaleFactorsPressProcA, ScaleFactorsTmprProcA, ScaleFactorsTmprChmbrA, ScaleFactorsTmprSgA,
          ScaleFactorsPressProcB, ScaleFactorsTmprProcB, ScaleFactorsTmprChmbrB, ScaleFactorsTmprSgB,
          PressureProcess, TemperatureProcess, TemperatureChamber, TemperatureSteamgen,
          AtmosphericPressure, AdcfTmprProcess, AdcfTmprChamber, AdcfTmprSteamge, TestFloat}
  }

  /** Number of registers the device-id string occupies from `DeviceId`. */
  const DeviceIdRegisters: nat := 32

  /** Looking a register's address up gives that register back. */
  lemma LookupAddress(r: Reg)
    ensures Named(Address(r)) == Some(r)
  {
  }

  /** No two named registers share an address (no enumeration aliasing). */
  lemma AddressesDistinct(r1: Reg, r2: Reg)
    ensures Address(r1) == Address(r2) <==> r1 == r2
  {
    if r1 != r2 {
      var a1, a2 := Address(r1), Address(r2);
      assert Named(a1) != Named(a2);
    }
  }

  /** The second word of every float slot is not another named register. */
  lemma FloatSlotSecondWordFree(f: Reg, r: Reg)
    requires IsFloatSlot(f)
    ensures Address(r) != Address(f) + 1
  {
    SecondWordUnnamed(f);
  }

  /** No register is named at the second word of a float slot. */
  lemma SecondWordUnnamed(f: Reg)
    requires IsFloatSlot(f)
    ensures Named(Address(f) + 1) == None
  {
    match f
    case ScaleFactorsPressProcA =>
    case ScaleFactorsTmprProcA =>
    case ScaleFactorsTmprChmbrA =>
    case ScaleFactorsTmprSgA =>
    case ScaleFactorsPressProcB =>
    case ScaleFactorsTmprProcB =>
    case ScaleFactorsTmprChmbrB =>
    case ScaleFactorsTmprSgB =>
    case PressureProcess =>
    case TemperatureProcess =>
    case TemperatureChamber =>
    case TemperatureSteamgen =>
    case AtmosphericPressure =>
    case AdcfTmprProcess =>
    case AdcfTmprChamber =>
    case AdcfTmprSteamge =>
    case TestFloat =>
    case _ => assert false;
  }

  /** Both words of a float slot are apart from every other named register. */
  lemma FloatSlotDisjoint(f: Reg, r: Reg)
    requires IsFloatSlot(f) && r != f
    ensures Slot(r) != Slot(f) && Slot(r) != At(Address(f) + 1)
  {
    AddressesDistinct(f, r);
    SecondWordUnnamed(f);
    var a := Address(r);
    assert Named(a) == Some(r);
  }

  /** The device-id string region holds no other named register. */
  lemma DeviceIdRegionFree(r: Reg)
    requires r != DeviceId
    ensures !(Address(DeviceId) <= Address(r) < Address(DeviceId) + DeviceIdRegisters)
  {
    LookupAddress(r);
  }
}
