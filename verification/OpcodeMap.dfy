/** The copy tables against the processor: lengths and branches after the opcode maps of the Intel SDM (Volume 2, Tables
    2-1 to 2-3 of section 2.1.5, and Tables A-2 and A-3 of Appendix A), for 32-bit code before VEX and TSX. */
module OpcodeMap {
  import opened Bytes
  import opened Options
  import opened Disasm
  import opened CopyTables
  import opened Relocation
  import opened Patching

  // ---------------------------------------------------------------- the opcode maps

  predicate IsPrefixByte(b: Byte)
  {
    b in {0x26, 0x2e, 0x36, 0x3e, 0x64, 0x65, 0x66, 0x67, 0xf0, 0xf2, 0xf3}
  }

  /** A word or a double word. */
  function Full(short: bool): nat { if short then 2 else 4 }

  /** The opcode is followed by a ModR/M byte. */
  predicate HasModRm(b: Byte)
  {
    if b < 0x40 then b % 8 < 4
    else
      || 0x62 <= b <= 0x63 || b == 0x69 || b == 0x6b || 0x80 <= b <= 0x8f || 0xc0 <= b <= 0xc1 || 0xc4 <= b <= 0xc7
      || 0xd0 <= b <= 0xd3 || 0xd8 <= b <= 0xdf || 0xf6 <= b <= 0xf7 || 0xfe <= b <= 0xff
  }

  /** The bytes of immediate data, of a branch displacement or of an absolute address; `reg` is in the ModR/M byte. */
  function Immediate(b: Byte, reg: nat, opSize: bool, adSize: bool): nat
  {
    if b < 0x40 then (if b % 8 == 4 then 1 else if b % 8 == 5 then Full(opSize) else 0)
    else if b in {0x6a, 0x6b, 0x80, 0x82, 0x83, 0xa8, 0xc0, 0xc1, 0xc6, 0xcd, 0xd4, 0xd5, 0xeb} then 1
    else if 0x70 <= b <= 0x7f || 0xb0 <= b <= 0xb7 || 0xe0 <= b <= 0xe7 then 1
    else if b in {0x68, 0x69, 0x81, 0xa9, 0xc7, 0xe8, 0xe9} || 0xb8 <= b <= 0xbf then Full(opSize)
    else if 0xa0 <= b <= 0xa3 then Full(adSize)
    else if b in {0x9a, 0xea} then Full(opSize) + 2
    else if b in {0xc2, 0xca} then 2
    else if b == 0xc8 then 3
    else if b == 0xf6 && reg == 0 then 1
    else if b == 0xf7 && reg == 0 then Full(opSize)
    else 0
  }

  /** The same of the opcodes after 0F. */
  predicate HasModRm2(b: Byte)
  {
    !(|| b in {0x05, 0x06, 0x07, 0x08, 0x09, 0x0b, 0x0e, 0x77, 0xa0, 0xa1, 0xa2, 0xa8, 0xa9, 0xaa}
      || 0x30 <= b <= 0x37 || 0x80 <= b <= 0x8f || 0xc8 <= b <= 0xcf)
  }

  function Immediate2(b: Byte, opSize: bool): nat
  {
    if 0x80 <= b <= 0x8f then Full(opSize)
    else if b in {0x0f, 0x70, 0x71, 0x72, 0x73, 0xa4, 0xac, 0xba, 0xc2, 0xc4, 0xc5, 0xc6} then 1
    else 0
  }

  /** The displacement of the 16-bit addressing forms. */
  function AddressingForm16(mod: nat, rm: nat): nat
  {
    if mod == 1 then 1 else if mod == 2 || (mod == 0 && rm == 6) then 2 else 0
  }

  /** The bytes of the addressing form behind the ModR/M byte at `at`. */
  function Form(b: seq<Byte>, at: nat, adSize: bool): Option<nat>
  {
    if at >= |b| then None
    else
      var mod, rm := b[at] / 0x40, b[at] % 8;
      if adSize then Some(AddressingForm16(mod, rm))
      else if mod == 3 || rm != 4 then Some(AddressingForm(mod, rm, 0))
      else if at + 1 < |b| then Some(AddressingForm(mod, rm, b[at + 1] % 8))
      else None
  }

  /** The length of the instruction that starts with the `n` bytes of an opcode and, with a ModR/M byte, goes on with
      `form` and then with immediate data. */
  function WithForm(n: nat, form: Option<nat>, immediate: nat): Option<nat>
  {
    match form case None => None case Some(f) => Some(n + 1 + f + immediate)
  }

  /** The length of the first instruction; None if the end of the bytes hides it. */
  function IntelLength(b: seq<Byte>, opSize: bool, adSize: bool): Option<nat>
  {
    if |b| == 0 then None
    else if IsPrefixByte(b[0]) then
      match IntelLength(b[1..], opSize || b[0] == 0x66, adSize || b[0] == 0x67)
      case None => None
      case Some(n) => Some(n + 1)
    else if b[0] == 0x0f then
      if |b| < 2 then None
      else if HasModRm2(b[1]) then WithForm(2, ModRmForm2(b, adSize), Immediate2(b[1], opSize))
      else Some(2 + Immediate2(b[1], opSize))
    else if HasModRm(b[0]) then
      WithForm(1, Form(b, 1, adSize), Immediate(b[0], if |b| > 1 then Reg(b[1]) else 0, opSize, adSize))
    else Some(1 + Immediate(b[0], 0, opSize, adSize))
  }

  /** Moves from and to control and debug registers have no memory operand. */
  function ModRmForm2(b: seq<Byte>, adSize: bool): Option<nat>
    requires |b| >= 2
  {
    if 0x20 <= b[1] <= 0x23 then (if |b| > 2 then Some(0) else None) else Form(b, 2, adSize)
  }

  // ---------------------------------------------------------------- where the tables agree with them

  /** The length by the tables is that of the processor: the opcode is not 82, whose ModR/M byte the tables leave out;
      nor one after 0F without any operand bytes, such as CPUID, RDTSC or BSWAP, to which they add one; nor 0F C2, whose
      immediate byte they leave out; for 0F 0F it makes no difference that they read the ModR/M byte one byte late; and
      none that they decode every addressing form as a 32-bit one of memory. */
  predicate Agrees(b: seq<Byte>, opSize: bool, adSize: bool)
  {
    |b| > 0 &&
    if IsPrefixByte(b[0]) then Agrees(b[1..], opSize || b[0] == 0x66, adSize || b[0] == 0x67)
    else if b[0] == 0x0f then
      && |b| >= 2
      && if b[1] == 0x0f then Form(b, 3, false) == Form(b, 2, adSize)
         else if b[1] == 0xc2 then OneMore(Form(b, 2, false), Form(b, 2, adSize))
         else if HasModRm2(b[1]) then Form(b, 2, false) == ModRmForm2(b, adSize)
         else 0x80 <= b[1] <= 0x8f
    else b[0] != 0x82 && (HasModRm(b[0]) ==> Form(b, 1, false) == Form(b, 1, adSize))
  }

  predicate OneMore(x: Option<nat>, y: Option<nat>)
  {
    x.Some? && y.Some? && x.value == y.value + 1
  }

  /** What the tables say of an opcode, against the maps. */
  lemma EntryMatches(b: Byte, modRm: Byte, opSize: bool, adSize: bool)
    requires !IsPrefixByte(b) && b != 0x0f && OneByte(b).action != Invalid
    ensures var e := if OneByte(b).action == CopyBytes then OneByte(b) else GroupEntry(OneByte(b).action, modRm);
            && e.action == CopyBytes
            && (b != 0x82 ==>
                  && e.modOffset == (if HasModRm(b) then 1 else 0)
                  && Fixed(e, opSize, adSize) == 1 + e.modOffset + Immediate(b, Reg(modRm), opSize, adSize))
            && (b == 0x82 ==> e.modOffset == 0 && Fixed(e, opSize, adSize) == 2)
  {
    hide Reg;
    if b < 0xa0 {
      LowEntry(b, opSize, adSize);
    } else {
      HighEntry(b, modRm, opSize, adSize);
    }
  }

  lemma LowEntry(b: Byte, opSize: bool, adSize: bool)
    requires !IsPrefixByte(b) && b != 0x0f && b < 0xa0
    ensures var e := OneByte(b);
            && e.action == CopyBytes
            && (b != 0x82 ==>
                  && e.modOffset == (if HasModRm(b) then 1 else 0)
                  && Fixed(e, opSize, adSize) == 1 + e.modOffset + Immediate(b, 0, opSize, adSize))
            && (b == 0x82 ==> e.modOffset == 0 && Fixed(e, opSize, adSize) == 2)
  {
  }

  lemma HighEntry(b: Byte, modRm: Byte, opSize: bool, adSize: bool)
    requires !IsPrefixByte(b) && 0xa0 <= b && OneByte(b).action != Invalid
    ensures var e := if OneByte(b).action == CopyBytes then OneByte(b) else GroupEntry(OneByte(b).action, modRm);
            && e.action == CopyBytes && e.modOffset == (if HasModRm(b) then 1 else 0)
            && Fixed(e, opSize, adSize) == 1 + e.modOffset + Immediate(b, Reg(modRm), opSize, adSize)
  {
    hide Reg;
  }

  lemma EntryMatches2(b: Byte, opSize: bool, adSize: bool)
    requires TwoByte(b).action != Invalid
    ensures var e := TwoByte(b);
            && e.action == CopyBytes
            && (b == 0x0f ==> e.modOffset == 2 && Fixed(e, opSize, adSize) == 3)
            && (b != 0x0f ==>
                  && e.modOffset == (if HasModRm2(b) then 1 else 0)
                  && Fixed(e, opSize, adSize) ==
                     if b == 0xc2 || (!HasModRm2(b) && !(0x80 <= b <= 0x8f)) then 2
                     else 1 + e.modOffset + Immediate2(b, opSize))
  {
  }

  /** The length that CopyBytes finds. */
  lemma BodyLength(e: CopyEntry, b: seq<Byte>, opSize: bool, adSize: bool, kind: TargetKind)
    requires CopiesBytes(e) && kind != Relative && (kind != NoTarget ==> e.relOffset == 0)
    requires Body(e, b, opSize, adSize, kind).Some?
    ensures var n := Body(e, b, opSize, adSize, kind).value.len;
            if e.modOffset == 0 then n == Fixed(e, opSize, adSize)
            else
              var f := Form(b, e.modOffset, false);
              f.Some? && n == Fixed(e, opSize, adSize) + f.value
  {
    var m := e.modOffset;
    if m > 0 {
      var sib := if RbModRm(b[m]).1 then b[m + 1] else 0;
      ModRmMatchesIntel(b[m], sib);
    }
  }

  /** The opcodes that the tables do not know. */
  predicate Unknown(b: Byte) { b in {0xd6, 0xf1} }

  predicate Unknown2(b: Byte)
  {
    || b in {0x04, 0x05, 0x07, 0x0a, 0x0c, 0xa6, 0xa7, 0xb8, 0xb9, 0xd0, 0xf0, 0xff}
    || 0x19 <= b <= 0x1f || 0x24 <= b <= 0x27 || 0x36 <= b <= 0x3f || 0x78 <= b <= 0x7d
  }

  lemma Actions(b: Byte)
    ensures X86.one(b) == OneByte(b)
    ensures OneByte(b).action == (if Unknown(b) then Invalid else if b == 0x66 then Copy66 else if b == 0x67 then Copy67
                                  else if IsPrefixByte(b) then CopyBytesPrefix else if b == 0x0f then Copy0F
                                  else if b == 0xf6 then CopyF6 else if b == 0xf7 then CopyF7
                                  else if b == 0xff then CopyFF else Action.CopyBytes)
    ensures b == 0xff ==> HasModRm(b)
  {
  }

  lemma Actions2(b: Byte)
    ensures X86.two(b) == TwoByte(b)
    ensures TwoByte(b).action == if Unknown2(b) then Invalid else Action.CopyBytes
  {
  }

  // ---------------------------------------------------------------- lengths

  /** The entry for the opcode of one byte. */
  function EntryOf(b: Byte, modRm: Byte): CopyEntry
  {
    if OneByte(b).action == CopyBytes then OneByte(b) else GroupEntry(OneByte(b).action, modRm)
  }

  lemma DecodeOne(b: seq<Byte>, opSize: bool, adSize: bool)
    requires WellFormed(X86) && |b| > 0 && !IsPrefixByte(b[0]) && b[0] != 0x0f
    requires var r := Decode(X86, b, opSize, adSize); r.Some? && r.value.valid
    ensures !Unknown(b[0]) && (HasModRm(b[0]) && b[0] != 0x82 ==> |b| > 1)
    ensures var e, kind := EntryOf(b[0], if |b| > 1 then b[1] else 0),
                if b[0] == 0xff && |b| > 1 then FFTarget(b[1]) else NoTarget;
            CopiesBytes(e) && kind != Relative && (kind != NoTarget ==> e.relOffset == 0)
              && Decode(X86, b, opSize, adSize) == Body(e, b, opSize, adSize, kind)
  {
    hide GroupEntry, OneByte, TwoByte, Unknown, HasModRm, Fixed, Immediate;
    Actions(b[0]);
    if !Unknown(b[0]) {
      EntryMatches(b[0], if |b| > 1 then b[1] else 0, opSize, adSize);
    }
  }

  /** For an opcode of one byte. */
  lemma OneByteLength(b: seq<Byte>, opSize: bool, adSize: bool)
    requires WellFormed(X86) && |b| > 0 && !IsPrefixByte(b[0]) && b[0] != 0x0f
    requires var r := Decode(X86, b, opSize, adSize); r.Some? && r.value.valid
    ensures IntelLength(b, opSize, adSize) == Some(Decode(X86, b, opSize, adSize).value.len) <==>
            Agrees(b, opSize, adSize)
  {
    hide WellFormed, Body, Decode, GroupEntry, FFTarget, OneByte, TwoByte, Immediate, Fixed, Form, IsPrefixByte,
      HasModRm, Unknown, EntryOf, Reg, CopiesBytes;
    DecodeOne(b, opSize, adSize);
    var modRm := if |b| > 1 then b[1] else 0;
    Matches(b[0], modRm, opSize, adSize);
    BodyLength(EntryOf(b[0], modRm), b, opSize, adSize, if b[0] == 0xff && |b| > 1 then FFTarget(b[1]) else NoTarget);
    NarrowForm(b, 1);
  }

  /** The entry against the maps once more. */
  lemma Matches(b: Byte, modRm: Byte, opSize: bool, adSize: bool)
    requires !IsPrefixByte(b) && b != 0x0f && !Unknown(b)
    ensures var e := EntryOf(b, modRm);
            && (b != 0x82 ==>
                  && e.modOffset == (if HasModRm(b) then 1 else 0)
                  && Fixed(e, opSize, adSize) == 1 + e.modOffset + Immediate(b, Reg(modRm), opSize, adSize))
            && (b == 0x82 ==> e.modOffset == 0 && Fixed(e, opSize, adSize) == 2)
    ensures !HasModRm(b) ==> Immediate(b, Reg(modRm), opSize, adSize) == Immediate(b, 0, opSize, adSize)
    ensures HasModRm(0x82) && Immediate(0x82, Reg(modRm), opSize, adSize) == 1
  {
    hide Reg, GroupEntry, OneByte, TwoByte, Fixed, IsPrefixByte, Unknown;
    Actions(b);
    EntryMatches(b, modRm, opSize, adSize);
  }

  /** A 16-bit addressing form is known from its ModR/M byte. */
  lemma NarrowForm(b: seq<Byte>, at: nat)
    ensures Form(b, at, true).Some? <==> at < |b|
  {
  }

  /** For an opcode after 0F. */
  lemma DecodeTwo(b: seq<Byte>, opSize: bool, adSize: bool)
    requires WellFormed(X86) && |b| > 0 && b[0] == 0x0f
    requires var r := Decode(X86, b, opSize, adSize); r.Some? && r.value.valid
    ensures |b| >= 2 && !Unknown2(b[1]) && CopiesBytes(TwoByte(b[1]))
    ensures Decode(X86, b, opSize, adSize) == Shift(Body(TwoByte(b[1]), b[1..], opSize, adSize, NoTarget))
  {
    hide OneByte, TwoByte, Unknown2, Body, IsPrefixByte;
    Actions(0x0f);
    Prefixes();
    if |b| >= 2 {
      Actions2(b[1]);
    }
  }

  lemma Prefixes()
    ensures !IsPrefixByte(0x0f) && !Unknown(0x0f)
  {
  }

  lemma TwoByteLength(b: seq<Byte>, opSize: bool, adSize: bool)
    requires WellFormed(X86) && |b| > 0 && b[0] == 0x0f
    requires var r := Decode(X86, b, opSize, adSize); r.Some? && r.value.valid
    ensures IntelLength(b, opSize, adSize) == Some(Decode(X86, b, opSize, adSize).value.len) <==>
            Agrees(b, opSize, adSize)
  {
    hide WellFormed, Body, Decode, OneByte, TwoByte, Immediate2, Fixed, Form, IsPrefixByte, HasModRm2, Unknown2,
      CopiesBytes;
    DecodeTwo(b, opSize, adSize);
    Prefixes();
    Actions2(b[1]);
    EntryMatches2(b[1], opSize, adSize);
    BodyLength(TwoByte(b[1]), b[1..], opSize, adSize, NoTarget);
    FormLater(b, 2);
    FormLater(b, 3);
    Operands2(b[1], opSize);
    assert TwoByte(b[1]).modOffset > 0 ==> |b| > 2 by {
      FormThere(b, 2);
      FormThere(b, 3);
    }
  }

  lemma FormLater(b: seq<Byte>, at: nat)
    requires |b| > 0 && at > 0
    ensures Form(b[1..], at - 1, false) == Form(b, at, false)
  {
  }

  lemma FormThere(b: seq<Byte>, at: nat)
    ensures Form(b, at, false).Some? ==> at < |b|
  {
  }

  lemma Operands2(b: Byte, opSize: bool)
    ensures HasModRm2(0x0f) && HasModRm2(0xc2) && Immediate2(0x0f, opSize) == Immediate2(0xc2, opSize) == 1
    ensures !HasModRm2(b) && !(0x80 <= b <= 0x8f) ==> Immediate2(b, opSize) == 0
    ensures 0x80 <= b <= 0x8f ==> !HasModRm2(b)
    ensures 0x20 <= b <= 0x23 ==> HasModRm2(b)
  {
  }

  /** By the tables, the length of any instruction that they know, behind any prefixes, is that of the processor if and
      only if the opcode is none of those above. */
  lemma {:induction false} LengthMatches(b: seq<Byte>, opSize: bool, adSize: bool)
    requires WellFormed(X86)
    requires var r := Decode(X86, b, opSize, adSize); r.Some? && r.value.valid
    ensures IntelLength(b, opSize, adSize) == Some(Decode(X86, b, opSize, adSize).value.len) <==>
            Agrees(b, opSize, adSize)
    decreases |b|
  {
    hide WellFormed, Body, OneByte, TwoByte, IsPrefixByte, HasModRm, HasModRm2, Form, Immediate, Immediate2;
    if IsPrefixByte(b[0]) {
      DecodePrefix(b, opSize, adSize);
      LengthMatches(b[1..], opSize || b[0] == 0x66, adSize || b[0] == 0x67);
    } else if b[0] == 0x0f {
      TwoByteLength(b, opSize, adSize);
    } else {
      OneByteLength(b, opSize, adSize);
    }
  }

  lemma DecodePrefix(b: seq<Byte>, opSize: bool, adSize: bool)
    requires WellFormed(X86) && |b| > 0 && IsPrefixByte(b[0])
    ensures Decode(X86, b, opSize, adSize) ==
            Shift(Decode(X86, b[1..], opSize || b[0] == 0x66, adSize || b[0] == 0x67))
  {
    hide OneByte, TwoByte, Body;
    Actions(b[0]);
  }

  // ---------------------------------------------------------------- branches

  /** The instruction without its prefixes, and whether 66 is among them. */
  function Bare(b: seq<Byte>): (c: seq<Byte>)
    ensures |c| <= |b|
  {
    if |b| > 0 && IsPrefixByte(b[0]) then Bare(b[1..]) else b
  }

  predicate Narrow(b: seq<Byte>, opSize: bool)
  {
    if |b| > 0 && IsPrefixByte(b[0]) then Narrow(b[1..], opSize || b[0] == 0x66) else opSize
  }

  /** Branches to a place counted from the next instruction: Jcc, LOOPcc, JECXZ, JMP and CALL. */
  predicate ShortBranch(c: seq<Byte>)
  {
    |c| > 0 && (0x70 <= c[0] <= 0x7f || 0xe0 <= c[0] <= 0xe3 || c[0] == 0xeb)
  }

  predicate NearBranch(c: seq<Byte>)
  {
    |c| > 0 && (0xe8 <= c[0] <= 0xe9 || (c[0] == 0x0f && |c| > 1 && 0x80 <= c[1] <= 0x8f))
  }

  /** A near call or jump through memory, with the address in the instruction. */
  predicate ThroughMemory(c: seq<Byte>)
  {
    |c| > 1 && c[0] == 0xff && c[1] in {0x15, 0x25}
  }

  /** Far calls, jumps and returns, interrupts, and other indirect calls and jumps. */
  predicate Elsewhere(c: seq<Byte>)
  {
    && |c| > 0
    && (c[0] in {0x9a, 0xca, 0xcb, 0xcc, 0xcd, 0xce, 0xcf, 0xea}
        || (|c| > 1 && c[0] == 0xff && c[1] / 8 % 8 in {2, 3, 4, 5} && !ThroughMemory(c)))
  }

  predicate KnownCode(c: seq<Byte>)
  {
    |c| > 0 && !Unknown(c[0]) && (c[0] == 0x0f && |c| > 1 ==> !Unknown2(c[1]))
  }

  /** What the tables say of where an instruction may go: exactly the relative branches have a relative operand, which
      is its last byte, or its last four, or two after 66; LOOPcc is not to be enlarged. */
  ghost predicate KindIs(s: Shape, c: seq<Byte>, short: bool)
  {
    && (s.valid <==> KnownCode(c))
    && (s.kind == Relative <==> ShortBranch(c) || NearBranch(c))
    && (s.kind == Relative ==> s.relSize == (if ShortBranch(c) then 1 else Full(short)) && s.relAt + s.relSize == s.len)
    && (s.kind == Indirect <==> ThroughMemory(c))
    && (s.kind == DynamicTarget <==> Elsewhere(c))
    && (s.noEnlarge <==> |c| > 0 && 0xe0 <= c[0] <= 0xe2)
  }

  lemma {:induction false} KindMatches(b: seq<Byte>, opSize: bool, adSize: bool)
    requires WellFormed(X86) && Decode(X86, b, opSize, adSize).Some?
    ensures KindIs(Decode(X86, b, opSize, adSize).value, Bare(b), Narrow(b, opSize))
    decreases |b|
  {
    hide WellFormed, Body, Decode, OneByte, TwoByte, IsPrefixByte, KnownCode, ShortBranch, NearBranch, ThroughMemory,
      Elsewhere;
    NotEmpty(b, opSize, adSize);
    if IsPrefixByte(b[0]) {
      DecodePrefix(b, opSize, adSize);
      KindMatches(b[1..], opSize || b[0] == 0x66, adSize || b[0] == 0x67);
    } else if b[0] == 0x0f {
      TwoByteKind(b, opSize, adSize);
    } else {
      OneByteKind(b, opSize, adSize);
    }
  }

  lemma NotEmpty(b: seq<Byte>, opSize: bool, adSize: bool)
    requires WellFormed(X86) && Decode(X86, b, opSize, adSize).Some?
    ensures |b| > 0
  {
    hide WellFormed, Body;
  }

  /** The parts of an entry that matter for branches. */
  lemma EntryKind(b: Byte, modRm: Byte, opSize: bool, adSize: bool)
    requires !IsPrefixByte(b) && b != 0x0f && !Unknown(b)
    ensures var e := EntryOf(b, modRm);
            && (e.relOffset > 0 <==> ShortBranch([b]) || NearBranch([b]))
            && (e.relOffset > 0 ==>
                  e.relOffset == 1 && Fixed(e, opSize, adSize) == 1 + if ShortBranch([b]) then 1 else Full(opSize))
            && (e.flags == Dynamic <==> b != 0xff && Elsewhere([b]))
            && (e.flags == NoEnlarge <==> 0xe0 <= b <= 0xe2)
  {
  }

  lemma OneByteKind(b: seq<Byte>, opSize: bool, adSize: bool)
    requires WellFormed(X86) && |b| > 0 && !IsPrefixByte(b[0]) && b[0] != 0x0f
    requires Decode(X86, b, opSize, adSize).Some?
    ensures KindIs(Decode(X86, b, opSize, adSize).value, b, opSize)
  {
    hide WellFormed, Decode, OneByte, TwoByte, Fixed, IsPrefixByte, EntryOf, CopiesBytes, RbModRm, ModRmExtra;
    UnknownOne(b, opSize, adSize);
    if !Unknown(b[0]) {
      DecodeOne(b, opSize, adSize);
      EntryKind(b[0], if |b| > 1 then b[1] else 0, opSize, adSize);
    }
  }

  lemma UnknownOne(b: seq<Byte>, opSize: bool, adSize: bool)
    requires WellFormed(X86) && |b| > 0 && !IsPrefixByte(b[0]) && b[0] != 0x0f
    requires Decode(X86, b, opSize, adSize).Some?
    ensures Decode(X86, b, opSize, adSize).value.valid <==> !Unknown(b[0])
    ensures Unknown(b[0]) ==> Decode(X86, b, opSize, adSize) == Some(Shape(1, 0, 0, false, NoTarget, false))
  {
    hide OneByte, TwoByte, Fixed;
    Actions(b[0]);
  }

  lemma TwoByteKind(b: seq<Byte>, opSize: bool, adSize: bool)
    requires WellFormed(X86) && |b| > 0 && b[0] == 0x0f && Decode(X86, b, opSize, adSize).Some?
    ensures KindIs(Decode(X86, b, opSize, adSize).value, b, opSize)
  {
    hide WellFormed, Decode, OneByte, TwoByte, Fixed, IsPrefixByte, CopiesBytes, RbModRm, ModRmExtra;
    UnknownTwo(b, opSize, adSize);
    Prefixes();
    if !Unknown2(b[1]) {
      DecodeTwo(b, opSize, adSize);
      EntryKind2(b[1], opSize, adSize);
    }
  }

  lemma UnknownTwo(b: seq<Byte>, opSize: bool, adSize: bool)
    requires WellFormed(X86) && |b| > 0 && b[0] == 0x0f && Decode(X86, b, opSize, adSize).Some?
    ensures |b| > 1 && (Decode(X86, b, opSize, adSize).value.valid <==> !Unknown2(b[1]))
    ensures Unknown2(b[1]) ==> Decode(X86, b, opSize, adSize) == Some(Shape(2, 1, 0, false, NoTarget, false))
  {
    hide OneByte, TwoByte, Fixed, IsPrefixByte;
    Actions(0x0f);
    Prefixes();
    Actions2(b[1]);
  }

  lemma EntryKind2(b: Byte, opSize: bool, adSize: bool)
    requires !Unknown2(b)
    ensures var e := TwoByte(b);
            && (e.relOffset > 0 <==> 0x80 <= b <= 0x8f) && e.flags == NoFlag
            && (e.relOffset > 0 ==> e.relOffset == 1 && Fixed(e, opSize, adSize) == 1 + Full(opSize))
  {
  }

  // ---------------------------------------------------------------- inputs

  /** The length that the tables find. */
  function Counted(b: seq<Byte>): Option<nat>
    requires WellFormed(X86)
  {
    match Decode(X86, b, false, false) case None => None case Some(s) => Some(s.len)
  }

  lemma CountedOne(b: seq<Byte>, e: CopyEntry, n: nat)
    requires WellFormed(X86) && |b| > 1 && !IsPrefixByte(b[0]) && b[0] != 0x0f && b[0] != 0xff && !Unknown(b[0])
    requires e == EntryOf(b[0], b[1]) && CopiesBytes(e)
    requires var r := Body(e, b, false, false, NoTarget); r.Some? && r.value.len == n
    ensures Counted(b) == Some(n)
  {
    hide OneByte, TwoByte, Body, CopiesBytes, GroupEntry;
    Actions(b[0]);
  }

  lemma CountedTwo(b: seq<Byte>, e: CopyEntry, n: nat)
    requires WellFormed(X86) && |b| > 1 && b[0] == 0x0f && !Unknown2(b[1])
    requires e == TwoByte(b[1]) && CopiesBytes(e)
    requires var r := Body(e, b[1..], false, false, NoTarget); r.Some? && r.value.len == n
    ensures Counted(b) == Some(n + 1)
  {
    hide OneByte, TwoByte, Body, Unknown2, IsPrefixByte, CopiesBytes;
    Prefixes();
    Actions(0x0f);
    Actions2(b[1]);
  }

  /** TEST byte [ebp + 8], 1 is four bytes long, and NOT dl two, with the tables too. */
  lemma TestAndNot(b: seq<Byte>)
    requires WellFormed(X86)
    ensures b == [0xf6, 0x45, 0x08, 0x01] ==> IntelLength(b, false, false) == Counted(b) == Some(4)
    ensures b == [0xf6, 0xd2] ==> IntelLength(b, false, false) == Counted(b) == Some(2)
  {
    hide WellFormed, Decode, Counted, CopiesBytes, TwoByte;
    if b == [0xf6, 0x45, 0x08, 0x01] {
      CountedOne(b, CopyBytes2Mod1, 4);
    }
    if b == [0xf6, 0xd2] {
      CountedOne(b, CopyBytes2Mod, 2);
    }
  }

  /** Instructions that the tables take for shorter or longer than they are.  ADD al, 5 in its other encoding, and
      CMPPS, lose their last byte. */
  lemma TooShort(b: seq<Byte>)
    requires WellFormed(X86)
    ensures b == [0x82, 0xc0, 0x05] ==> Counted(b) == Some(2) && IntelLength(b, false, false) == Some(3)
    ensures b == [0x0f, 0xc2, 0xc1, 0x00] ==> Counted(b) == Some(3) && IntelLength(b, false, false) == Some(4)
  {
    hide WellFormed, Decode, Counted;
    if b == [0x82, 0xc0, 0x05] {
      CountedOne(b, OneByte(0x82), 2);
    }
    if b == [0x0f, 0xc2, 0xc1, 0x00] {
      CountedTwo(b, TwoByte(0xc2), 2);
    }
  }

  /** RDTSC takes the RET behind it, PFADD of 3DNow four bytes. */
  lemma TooLong(b: seq<Byte>)
    requires WellFormed(X86)
    ensures b == [0x0f, 0x31, 0xc3] ==> Counted(b) == Some(3) && IntelLength(b, false, false) == Some(2)
    ensures b == [0x0f, 0x0f, 0xc0, 0x9e, 0x90, 0x90, 0x90, 0x90] ==>
              Counted(b) == Some(8) && IntelLength(b, false, false) == Some(4)
  {
    hide WellFormed, Decode, Counted;
    if b == [0x0f, 0x31, 0xc3] {
      CountedTwo(b, TwoByte(0x31), 2);
    }
    if b == [0x0f, 0x0f, 0xc0, 0x9e, 0x90, 0x90, 0x90, 0x90] {
      CountedTwo(b, TwoByte(0x0f), 7);
    }
  }

  // ---------------------------------------------------------------- the end of a function

  /** Control does not go on behind the instruction: a return, an interrupt return, a jump, or the padding behind a
      function. */
  predicate EndsFlow(c: seq<Byte>)
  {
    && |c| > 0
    && (c[0] in {0xc2, 0xc3, 0xca, 0xcb, 0xcf, 0xe9, 0xea, 0xeb, 0xcc}
        || (|c| > 1 && c[0] == 0xff && Reg(c[1]) in {4, 5}))
  }

  predicate IsSegment(b: Byte) { b in {0x26, 0x2e, 0x36, 0x3e, 0x64, 0x65} }

  /** The same behind a segment prefix. */
  predicate FlowEnds(b: seq<Byte>)
    requires |b| >= 3
  {
    EndsFlow(b) || (IsSegment(b[0]) && EndsFlow(b[1..]) && b[1] == 0xff)
  }

  /** detour_does_code_end_function takes LOOPNE for a jump, and JECXZ for the prefix DS.  It misses short and far
      jumps, far returns, and all jumps through memory but one form. */
  lemma EndsWrongly(b: seq<Byte>)
    requires |b| >= 3
    ensures EndsFunction(b) && !FlowEnds(b) <==> b[0] == 0xe0 || (b[0] == 0xe3 && b[1] == 0xff && b[2] == 0x25)
    ensures FlowEnds(b) && !EndsFunction(b) <==>
              || b[0] in {0xca, 0xcb, 0xcf, 0xea, 0xeb}
              || (b[0] == 0xff && Reg(b[1]) in {4, 5} && b[1] != 0x25)
              || (IsSegment(b[0]) && b[1] == 0xff && Reg(b[2]) in {4, 5} && (b[0] == 0x3e || b[2] != 0x25))
  {
    assert b[1..][0] == b[1] && b[1..][1] == b[2];
  }

  /** Nothing behind the RET of an empty function is moved, so that an attach to it fails. */
  lemma RetStub(w: seq<Byte>, tail: seq<Byte>, delta: int)
    requires WellFormed(X86) && |tail| == 2 && w == [0xc3, 0x90, 0x90, 0x90, 0x90]
    ensures Movable(X86, w, tail, delta, 0) == 1
  {
    hide WellFormed, Movable;
    Plain(w, 0xc3);
    assert (w + tail)[0] == 0xc3;
    MovableStep(X86, w, tail, delta, 0, Shape(1, 0, 0, false, NoTarget, true));
  }

  /** Of single-byte instructions five are moved, however many follow. */
  lemma FivePushes(w: seq<Byte>, tail: seq<Byte>, delta: int)
    requires WellFormed(X86) && |tail| == 2 && |w| >= 5 && forall i | 0 <= i < 5 :: w[i] == 0x55
    ensures Movable(X86, w, tail, delta, 0) == 5
  {
    hide WellFormed, Movable, First;
    Push(w, tail, delta, 0);
    Push(w[1..], tail, delta, 1);
    assert w[1..][1..] == w[2..] && w[2..][1..] == w[3..] && w[3..][1..] == w[4..] && w[4..][1..] == w[5..];
    Push(w[2..], tail, delta, 2);
    Push(w[3..], tail, delta, 3);
    Push(w[4..], tail, delta, 4);
    MovableDone(X86, w[5..], tail, delta, 5);
  }

  lemma Push(w: seq<Byte>, tail: seq<Byte>, delta: int, before: nat)
    requires WellFormed(X86) && |tail| == 2 && |w| > 0 && w[0] == 0x55 && before < 5
    ensures Movable(X86, w, tail, delta, before) == Movable(X86, w[1..], tail, delta, before + 1)
  {
    hide WellFormed, Movable;
    Plain(w, 0x55);
    assert (w + tail)[0] == 0x55;
    MovableStep(X86, w, tail, delta, before, Shape(1, 0, 0, false, NoTarget, true));
  }

  /** Behind a far return the code of another function is moved too. */
  lemma FarReturn(w: seq<Byte>, tail: seq<Byte>, delta: int)
    requires WellFormed(X86) && |tail| == 2 && w == [0xcb, 0x68, 0, 0, 0, 0]
    ensures Movable(X86, w, tail, delta, 0) == 6
  {
    hide WellFormed, Movable, Decode, First;
    FarReturnShapes(w);
    assert (w + tail)[0] == 0xcb && (w[1..] + tail)[0] == 0x68 && w[1..][5..] == [];
    MovableStep(X86, w, tail, delta, 0, Shape(1, 0, 0, false, DynamicTarget, true));
    MovableStep(X86, w[1..], tail, delta, 1, Shape(5, 0, 0, false, NoTarget, true));
    MovableDone(X86, w[1..][5..], tail, delta, 6);
  }

  lemma FarReturnShapes(w: seq<Byte>)
    requires WellFormed(X86) && w == [0xcb, 0x68, 0, 0, 0, 0]
    ensures First(X86, w) == Some(Shape(1, 0, 0, false, DynamicTarget, true))
    ensures First(X86, w[1..]) == Some(Shape(5, 0, 0, false, NoTarget, true))
  {
    hide WellFormed;
    assert X86.one(0xcb) == OneByte(0xcb) && X86.one(0x68) == OneByte(0x68);
  }

  /** An opcode that is an instruction by itself. */
  lemma Plain(w: seq<Byte>, b: Byte)
    requires WellFormed(X86) && |w| > 0 && w[0] == b && OneByte(b) == CopyEntry(1, 1, 0, 0, NoFlag, Action.CopyBytes)
    ensures First(X86, w) == Some(Shape(1, 0, 0, false, NoTarget, true))
  {
    hide WellFormed, OneByte, TwoByte;
    assert X86.one(b) == OneByte(b);
  }
}
