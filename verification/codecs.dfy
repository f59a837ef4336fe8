/** Encodings between register words and the values the controller reports:
    firmware version, board number, DIP switches, the valve/relay bitfield,
    the device-id string and decimal text. All pure. */
module Codecs {

  import opened Words

  // ---------------------------------------------------------------------
  // Firmware version: 7 bits major, 5 bits minor, 4 bits patch

  datatype Version = Version(major: nat, minor: nat, patch: nat)

  /** `(w >> 9, (w >> 4) & 0x1F, w & 0xF)` */
  function VersionOf(w: nat): Version {
    Version(ShiftRight(w, 9), BitAnd(ShiftRight(w, 4), 0x1F), BitAnd(w, 0xF))
  }

  /** The register word a version is stored as. */
  function VersionWord(v: Version): nat {
    v.major * 512 + v.minor * 16 + v.patch
  }

  lemma VersionMasks(w: nat)
    ensures VersionOf(w) == Version(w / 512, (w / 16) % 32, w % 16)
  {
    assert Pow2(4) == 16 && Pow2(5) == 32 && Pow2(9) == 512;
    AndLowMask(w / 16, 5);
    AndLowMask(w, 4);
  }

  /** Any register word splits into fields that fit 7/5/4 bits and
      recompose to the word. */
  lemma {:induction false} VersionSplit(w: Word16)
    ensures VersionOf(w).major < 128 && VersionOf(w).minor < 32 && VersionOf(w).patch < 16
    ensures VersionWord(VersionOf(w)) == w
  {
    VersionMasks(w);
    var q := w / 16;
    assert w == 16 * q + w % 16;
    assert q == 32 * (q / 32) + q % 32;
    DivModUnique(w, 512, q / 32, (q % 32) * 16 + w % 16);
  }

  /** A version whose fields fit 7/5/4 bits is decoded from its word unchanged. */
  lemma {:induction false} VersionJoin(v: Version)
    requires v.major < 128 && v.minor < 32 && v.patch < 16
    ensures VersionWord(v) < WordLimit
    ensures VersionOf(VersionWord(v)) == v
  {
    var w := VersionWord(v);
    VersionMasks(w);
    DivModUnique(w, 16, v.major * 32 + v.minor, v.patch);
    DivModUnique(w / 16, 32, v.major, v.minor);
    DivModUnique(w, 512, v.major, v.minor * 16 + v.patch);
  }

  // ---------------------------------------------------------------------
  // Decimal text, for the "major.minor.patch" rendering

  predicate IsDigits(s: string) {
    |s| > 0 && forall i :: 0 <= i < |s| ==> '0' <= s[i] <= '9'
  }

  /** The canonical decimal text of a number: digits with no leading zero,
      except the single digit "0". */
  predicate IsNumeral(s: string) {
    IsDigits(s) && (|s| == 1 || s[0] != '0')
  }

  /** `str(n)` for a non-negative integer. */
  function Decimal(n: nat): (s: string)
    ensures IsNumeral(s)
    ensures n > 0 ==> s[0] != '0'
  {
    var d := [('0' as int + n % 10) as char];
    if n < 10 then d else Decimal(n / 10) + d
  }

  /** The number a digit string spells (most significant digit first). */
  function DigitsValue(s: string): nat
    requires forall i :: 0 <= i < |s| ==> '0' <= s[i] <= '9'
  {
    if s == [] then 0
    else 10 * DigitsValue(s[..|s| - 1]) + (s[|s| - 1] as int - '0' as int)
  }

  /** The decimal text of n reads back as n. */
  lemma {:induction false} DecimalValue(n: nat)
    ensures DigitsValue(Decimal(n)) == n
  {
    if n >= 10 {
      var s := Decimal(n);
      assert s[..|s| - 1] == Decimal(n / 10);
      DecimalValue(n / 10);
    }
  }

  /** A digit string with a non-zero first digit spells a positive number. */
  lemma {:induction false} LeadingDigitPositive(s: string)
    requires IsDigits(s) && s[0] != '0'
    ensures DigitsValue(s) > 0
  {
    if |s| > 1 {
      LeadingDigitPositive(s[..|s| - 1]);
    }
  }

  /** A canonical numeral is the decimal text of the number it spells:
      the rendering `str(n)` is the only text that reads back as n. */
  lemma {:induction false} NumeralIsDecimal(s: string)
    requires IsNumeral(s)
    ensures s == Decimal(DigitsValue(s))
  {
    var last := s[|s| - 1] as int - '0' as int;
    if |s| > 1 {
      var init := s[..|s| - 1];
      var v := DigitsValue(init);
      LeadingDigitPositive(init);
      NumeralIsDecimal(init);
      DivModUnique(DigitsValue(s), 10, v, last);
      assert s == init + [s[|s| - 1]];
    }
  }

  /** `f"{major}.{minor}.{patch}"` */
  function VersionText(v: Version): string {
    Decimal(v.major) + "." + Decimal(v.minor) + "." + Decimal(v.patch)
  }

  // ---------------------------------------------------------------------
  // DIP switch: bits 0..3

  /** `(w & 1 > 0, w & 2 > 0, w & 4 > 0, w & 8 > 0)` */
  function DipSwitchOf(w: nat): (bool, bool, bool, bool) {
    (BitAnd(w, 1) > 0, BitAnd(w, 2) > 0, BitAnd(w, 4) > 0, BitAnd(w, 8) > 0)
  }

  /** Switch k of the result is bit k of the word. */
  lemma DipSwitchBits(w: nat)
    ensures DipSwitchOf(w) == (Bit(w, 0), Bit(w, 1), Bit(w, 2), Bit(w, 3))
  {
    assert Pow2(0) == 1 && Pow2(1) == 2 && Pow2(2) == 4 && Pow2(3) == 8;
    AndSingleBit(w, 0);
    AndSingleBit(w, 1);
    AndSingleBit(w, 2);
    AndSingleBit(w, 3);
  }

  /** Encoding four switches as bits and decoding gives them back. */
  lemma DipSwitchRoundTrip(d: (bool, bool, bool, bool))
    ensures DipSwitchOf(FromBits([d.0, d.1, d.2, d.3])) == d
  {
    var bits := [d.0, d.1, d.2, d.3];
    DipSwitchBits(FromBits(bits));
    BitOfFromBits(bits, 0);
    BitOfFromBits(bits, 1);
    BitOfFromBits(bits, 2);
    BitOfFromBits(bits, 3);
  }

  /** Bits above bit 3 do not affect the switches. */
  lemma DipSwitchIgnoresHighBits(w: nat)
    ensures DipSwitchOf(w) == DipSwitchOf(w % 16)
  {
    assert Pow2(4) == 16;
    DipSwitchBits(w);
    DipSwitchBits(w % 16);
    BitOfLowPart(w, 0, 4);
    BitOfLowPart(w, 1, 4);
    BitOfLowPart(w, 2, 4);
    BitOfLowPart(w, 3, 4);
  }

  // ---------------------------------------------------------------------
  // Valves and relays bitfield: bits 0..9

  datatype ValveRelayFlags = ValveRelayFlags(
    v1: bool, v2: bool, v3: bool, v5: bool,
    pvac: bool, pwtr: bool,
    chAb: bool, sgA: bool, sgB: bool, sgC: bool)
  {
    /** The flags in bit order. */
    function Bits(): seq<bool> {
      [v1, v2, v3, v5, pvac, pwtr, chAb, sgA, sgB, sgC]
    }
  }

  const ValveRelayBitCount: nat := 10

  /** `w & (1 << k) > 0` for k = 0..9, in the field order of the sample. */
  function ValveRelayFlagsOf(w: nat): ValveRelayFlags {
    ValveRelayFlags(
      BitAnd(w, ShiftLeft(1, 0)) > 0, BitAnd(w, ShiftLeft(1, 1)) > 0,
      BitAnd(w, ShiftLeft(1, 2)) > 0, BitAnd(w, ShiftLeft(1, 3)) > 0,
      BitAnd(w, ShiftLeft(1, 4)) > 0, BitAnd(w, ShiftLeft(1, 5)) > 0,
      BitAnd(w, ShiftLeft(1, 6)) > 0, BitAnd(w, ShiftLeft(1, 7)) > 0,
      BitAnd(w, ShiftLeft(1, 8)) > 0, BitAnd(w, ShiftLeft(1, 9)) > 0)
  }

  /** Flag k (v1, v2, v3, v5, pvac, pwtr, ch_ab, sg_a, sg_b, sg_c) is bit k. */
  lemma ValveRelayBits(w: nat)
    ensures |ValveRelayFlagsOf(w).Bits()| == ValveRelayBitCount
    ensures forall k :: 0 <= k < ValveRelayBitCount ==> ValveRelayFlagsOf(w).Bits()[k] == Bit(w, k)
  {
    forall k | 0 <= k < ValveRelayBitCount
      ensures ValveRelayFlagsOf(w).Bits()[k] == Bit(w, k)
    {
      AndSingleBit(w, k);
    }
  }

  /** Encoding the ten flags as bits and decoding gives them back. */
  lemma ValveRelayRoundTrip(f: ValveRelayFlags)
    ensures ValveRelayFlagsOf(FromBits(f.Bits())) == f
  {
    var bits := f.Bits();
    var w := FromBits(bits);
    var g := ValveRelayFlagsOf(w);
    ValveRelayBits(w);
    forall k | 0 <= k < ValveRelayBitCount
      ensures g.Bits()[k] == bits[k]
    {
      BitOfFromBits(bits, k);
    }
    assert g.Bits() == bits;
    BitsDetermineFlags(g, f);
  }

  lemma BitsDetermineFlags(g: ValveRelayFlags, f: ValveRelayFlags)
    requires g.Bits() == f.Bits()
    ensures g == f
  {
    var gb, fb := g.Bits(), f.Bits();
    assert gb[0] == fb[0] && gb[1] == fb[1] && gb[2] == fb[2] && gb[3] == fb[3] && gb[4] == fb[4];
    assert gb[5] == fb[5] && gb[6] == fb[6] && gb[7] == fb[7] && gb[8] == fb[8] && gb[9] == fb[9];
  }

  /** Bits 10..15 of the register do not affect any flag. */
  lemma ValveRelayIgnoresHighBits(w: nat)
    ensures ValveRelayFlagsOf(w) == ValveRelayFlagsOf(w % 1024)
  {
    assert Pow2(10) == 1024;
    ValveRelayBits(w);
    ValveRelayBits(w % 1024);
    forall k | 0 <= k < ValveRelayBitCount
      ensures Bit(w % 1024, k) == Bit(w, k)
    {
      BitOfLowPart(w, k, 10);
    }
    assert ValveRelayFlagsOf(w).Bits() == ValveRelayFlagsOf(w % 1024).Bits();
  }

  // ---------------------------------------------------------------------
  // Board number: revision letter, production year and month

  datatype BoardNumber = BoardNumber(revision: char, year: nat, month: nat)

  /** The revisions `set_boardnumber` accepts: an upper-case letter. */
  predicate IsRevision(c: char) {
    'A' <= c <= 'Z'
  }

  /** `(ord(rev) - ord('A')) << 11 | year << 4 | month` */
  function PackBoardNumber(rev: char, year: nat, month: nat): nat
    requires IsRevision(rev)
  {
    BitOr(BitOr(ShiftLeft(rev as nat - 'A' as nat, 11), ShiftLeft(year, 4)), month)
  }

  /** `(chr((w >> 11) + ord('A')), (w >> 4) & 0x7F, w & 0xF)` */
  function UnpackBoardNumber(w: Word16): BoardNumber {
    assert Pow2(11) == 2048;
    BoardNumber((ShiftRight(w, 11) + 'A' as nat) as char, BitAnd(ShiftRight(w, 4), 0x7F), BitAnd(w, 0xF))
  }

  lemma BoardNumberFields(w: Word16)
    ensures UnpackBoardNumber(w) == BoardNumber((w / 2048 + 'A' as nat) as char, (w / 16) % 128, w % 16)
  {
    assert Pow2(4) == 16 && Pow2(7) == 128 && Pow2(11) == 2048;
    AndLowMask(w / 16, 7);
    AndLowMask(w, 4);
  }

  /** Within a 7-bit year and a 4-bit month the packing is plain addition
      of disjoint fields and fits one register. */
  lemma PackedBoardNumber(rev: char, year: nat, month: nat)
    requires IsRevision(rev) && year < 128 && month < 16
    ensures PackBoardNumber(rev, year, month) == (rev as nat - 'A' as nat) * 2048 + year * 16 + month
    ensures PackBoardNumber(rev, year, month) < WordLimit
  {
    var code := rev as nat - 'A' as nat;
    assert Pow2(4) == 16 && Pow2(7) == 128 && Pow2(11) == 2048;
    assert code * Pow2(11) == (code * Pow2(7)) * Pow2(4);
    OrShifted(code * Pow2(7), year, 4);
    OrDisjoint(code, year, 7);
    OrDisjoint(code * 128 + year, month, 4);
  }

  /** Reading back a packed board number gives the revision, year and month. */
  lemma BoardNumberRoundTrip(rev: char, year: nat, month: nat)
    requires IsRevision(rev) && year < 128 && month < 16
    ensures PackBoardNumber(rev, year, month) < WordLimit
    ensures UnpackBoardNumber(PackBoardNumber(rev, year, month)) == BoardNumber(rev, year, month)
  {
    PackedBoardNumber(rev, year, month);
    var w := PackBoardNumber(rev, year, month);
    var code := rev as nat - 'A' as nat;
    BoardNumberFields(w);
    DivModUnique(w, 2048, code, year * 16 + month);
    DivModUnique(w, 16, code * 128 + year, month);
    DivModUnique(w / 16, 128, code, year);
  }

  /** Every register word with a revision code below 26 is the packing
      of what it unpacks to. */
  lemma BoardNumberRepack(w: Word16)
    requires w / 2048 < 26
    ensures IsRevision(UnpackBoardNumber(w).revision)
    ensures var u := UnpackBoardNumber(w); PackBoardNumber(u.revision, u.year, u.month) == w
  {
    BoardNumberFields(w);
    var u := UnpackBoardNumber(w);
    PackedBoardNumber(u.revision, u.year, u.month);
    var q := w / 16;
    assert w == 16 * q + w % 16;
    assert q == 128 * (q / 128) + q % 128;
    DivModUnique(w, 2048, q / 128, (q % 128) * 16 + w % 16);
  }

  /** Without a range check a year of 128 spills into the revision bits:
      board 'A' of year 128 reads back as board 'B' of year 0. */
  lemma BoardNumberYearOverflow()
    ensures PackBoardNumber('A', 128, 0) == 2048
    ensures UnpackBoardNumber(2048) == BoardNumber('B', 0, 0)
  {
    assert Pow2(4) == 16 && Pow2(11) == 2048;
    BoardNumberFields(2048);
  }

  // ---------------------------------------------------------------------
  // Device id: a fixed 32-character field, NUL-padded

  const DeviceIdMaxLength: nat := 32

  /** `s.ljust(n, '\0')` */
  function PadNul(s: string, n: nat): (r: string)
    ensures |r| == if |s| >= n then |s| else n
    ensures r[..|s|] == s
    ensures forall i :: |s| <= i < |r| ==> r[i] == '\0'
  {
    if |s| >= n then s else s + seq(n - |s|, _ => '\0')
  }

  predicate NoTrailingNul(s: string) {
    s == [] || s[|s| - 1] != '\0'
  }

  /** `s.rstrip('\0')` */
  function StripNul(s: string): (r: string)
    ensures NoTrailingNul(r)
    ensures r <= s
    ensures forall i :: |r| <= i < |s| ==> s[i] == '\0'
  {
    if s != [] && s[|s| - 1] == '\0' then StripNul(s[..|s| - 1]) else s
  }

  /** Stripping the padding returns the original id, when that id did not
      itself end in NUL. */
  lemma StripPadded(s: string, n: nat)
    requires NoTrailingNul(s)
    ensures StripNul(PadNul(s, n)) == s
  {
  }
}
