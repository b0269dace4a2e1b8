/**
 The instruction copier of loader_dll/detours/disasm.cpp, as functions on code bytes: what one
 instruction looks like to the copy tables, and what its relocated copy is.
 */
module Disasm {
  import opened Bytes
  import opened Options

  // ---------------------------------------------------------------- copy tables

  datatype Action = CopyBytes | CopyBytesPrefix | Copy0F | Copy66 | Copy67 | CopyF6 | CopyF7 | CopyFF | Invalid

  /** COPYENTRY; the flags RAX and nTargetBack play no part on x86. */
  datatype CopyEntry = CopyEntry(fixed: nat, fixed16: nat, modOffset: nat, relOffset: nat, flags: Flag, action: Action)
  datatype Flag = NoFlag | Dynamic | Address | NoEnlarge

  /** The one-byte and the two-byte (0F) opcode tables. */
  datatype Tables = Tables(one: Byte -> CopyEntry, two: Byte -> CopyEntry)

  /** An entry that CopyBytes handles: an operand that is relative to the next instruction is the
      last thing in the instruction, and has 1, 2 or 4 bytes. */
  predicate CopiesBytes(e: CopyEntry)
  {
    && e.action == CopyBytes
    && 1 <= e.fixed16 <= e.fixed
    && e.modOffset < e.fixed16
    && (e.relOffset > 0 ==>
          && e.modOffset == 0 && e.relOffset == 1 && e.flags != Address && e.flags != Dynamic
          && (e.fixed == 2 || e.fixed == 3 || e.fixed == 5)
          && (e.fixed16 == 2 || e.fixed16 == 3))
    && (e.flags == NoEnlarge ==> e.relOffset > 0)
  }

  predicate IsPrefix(e: CopyEntry)
  {
    && (e.action == CopyBytesPrefix || e.action == Copy0F || e.action == Copy66 || e.action == Copy67)
    && e.fixed == e.fixed16 == 1 && e.modOffset == e.relOffset == 0 && e.flags == NoFlag
  }

  ghost predicate WellFormed(t: Tables)
  {
    && (forall b: Byte ::
          CopiesBytes(t.one(b)) || IsPrefix(t.one(b)) || t.one(b).action in {CopyF6, CopyF7, CopyFF, Invalid})
    && (forall b: Byte :: CopiesBytes(t.two(b)) || t.two(b).action == Invalid)
  }

  // The entries that CopyF6, CopyF7 and CopyFF build on the spot.
  const CopyBytes2Mod := CopyEntry(2, 2, 1, 0, NoFlag, CopyBytes)
  const CopyBytes2Mod1 := CopyEntry(3, 3, 1, 0, NoFlag, CopyBytes)
  const CopyBytes2ModOperand := CopyEntry(6, 4, 1, 0, NoFlag, CopyBytes)

  /** s_rbModRm with its RIP flag masked off: the bytes that follow the ModR/M byte, and whether a
      SIB byte may add to them. */
  function RbModRm(modRm: Byte): (nat, bool)
  {
    var rm := modRm % 8;
    if modRm < 0x40 then (if rm == 4 then (1, true) else if rm == 5 then (4, false) else (0, false))
    else if modRm < 0x80 then (if rm == 4 then (2, false) else (1, false))
    else if modRm < 0xc0 then (if rm == 4 then (5, false) else (4, false))
    else (0, false)
  }

  /** The bytes of addressing form after the ModR/M byte, from the loop-free part of CopyBytes. */
  function ModRmExtra(modRm: Byte, sib: Byte): nat
  {
    var (n, hasSib) := RbModRm(modRm);
    n + if hasSib && sib % 8 == 5 then
          (if modRm / 0x40 == 0 then 4 else if modRm / 0x40 == 1 then 1 else if modRm / 0x40 == 2 then 4 else 0)
        else 0
  }

  /** The 32-bit addressing forms of section 2.1.5 of the Intel SDM, Volume 2: a SIB byte when r/m
      is 4, then a displacement chosen by mod, and by the SIB base when mod is 0. */
  function AddressingForm(mod: nat, rm: nat, base: nat): nat
  {
    var sib := if mod != 3 && rm == 4 then 1 else 0;
    var disp := if mod == 1 then 1
                else if mod == 2 then 4
                else if mod == 0 && (rm == 5 || (rm == 4 && base == 5)) then 4
                else 0;
    sib + disp
  }

  lemma ModRmMatchesIntel(modRm: Byte, sib: Byte)
    ensures ModRmExtra(modRm, sib) == AddressingForm(modRm / 0x40, modRm % 8, sib % 8)
  {
  }

  // ---------------------------------------------------------------- one instruction

  datatype TargetKind = NoTarget | Relative | DynamicTarget | Indirect

  /** An instruction as the tables see it.  `relAt` and `relSize` locate the relative operand
      (`relSize` is 0 when there is none); `valid` fails when the tables know no such opcode. */
  datatype Shape = Shape(len: nat, relAt: nat, relSize: nat, noEnlarge: bool, kind: TargetKind, valid: bool)

  ghost predicate ShapeOk(s: Shape, n: nat)
  {
    && 1 <= s.len <= n
    && OffsetSize(s.relSize) && s.relAt + s.relSize <= s.len
    && (s.relSize > 0 ==> s.valid && s.kind == Relative && s.relAt + s.relSize == s.len && s.relAt > 0)
    && (s.kind == Relative ==> s.relSize > 0)
  }

  function Fixed(e: CopyEntry, opSize: bool, adSize: bool): nat
  {
    if e.flags == Address then (if adSize then e.fixed16 else e.fixed)
    else (if opSize then e.fixed16 else e.fixed)
  }

  /** CopyBytes: the length of an instruction whose entry is `e`, or None at the end of the bytes. */
  function Body(e: CopyEntry, b: seq<Byte>, opSize: bool, adSize: bool, kind: TargetKind): (r: Option<Shape>)
    requires CopiesBytes(e)
    requires kind != Relative && (kind != NoTarget ==> e.relOffset == 0)
    ensures r.Some? ==> ShapeOk(r.value, |b|) && r.value.valid
  {
    var fixed := Fixed(e, opSize, adSize);
    if |b| < fixed then None
    else
      var m := e.modOffset;
      if m > 0 && RbModRm(b[m]).1 && |b| < m + 2 then None
      else
        var n := fixed + if m > 0 then ModRmExtra(b[m], if RbModRm(b[m]).1 then b[m + 1] else 0) else 0;
        if |b| < n then None
        else Some(Shape(n, e.relOffset, if e.relOffset > 0 then fixed - e.relOffset else 0, e.flags == NoEnlarge,
                        if e.relOffset > 0 then Relative else if e.flags == Dynamic then DynamicTarget else kind, true))
  }

  /** The same instruction seen from one byte earlier. */
  function Shift(r: Option<Shape>): Option<Shape>
  {
    match r
    case None => None
    case Some(s) => Some(s.(len := s.len + 1, relAt := s.relAt + 1))
  }

  /** Bits 3 to 5 of a ModR/M byte. */
  function Reg(modRm: Byte): nat { modRm / 8 % 8 }

  /** The first instruction of `b`, under the operand-size and address-size overrides seen so far;
      None if it is longer than `b`. */
  function Decode(t: Tables, b: seq<Byte>, opSize: bool, adSize: bool): (r: Option<Shape>)
    requires WellFormed(t)
    ensures r.Some? ==> ShapeOk(r.value, |b|)
    decreases |b|
  {
    if |b| == 0 then None
    else
      var e := t.one(b[0]);
      if e.action == CopyBytes then Body(e, b, opSize, adSize, NoTarget)
      else if e.action in {CopyBytesPrefix, Copy66, Copy67} then
        Shift(Decode(t, b[1..], opSize || e.action == Copy66, adSize || e.action == Copy67))
      else if e.action == Invalid then Some(Shape(1, 0, 0, false, NoTarget, false))
      else if |b| < 2 then None
      else if e.action == Copy0F then Body0F(t.two(b[1]), b, opSize, adSize)
      else Body(GroupEntry(e.action, b[1]), b, opSize, adSize, if e.action == CopyFF then FFTarget(b[1]) else NoTarget)
  }

  /** Copy0F: the second opcode byte has the entry `e`. */
  function Body0F(e: CopyEntry, b: seq<Byte>, opSize: bool, adSize: bool): (r: Option<Shape>)
    requires CopiesBytes(e) || e.action == Invalid
    requires |b| >= 2
    ensures r.Some? ==> ShapeOk(r.value, |b|)
  {
    if e.action == Invalid then Some(Shape(2, 1, 0, false, NoTarget, false))
    else Shift(Body(e, b[1..], opSize, adSize, NoTarget))
  }

  /** The entry for the opcodes F6, F7 and FF, which the ModR/M byte selects. */
  function GroupEntry(a: Action, modRm: Byte): (e: CopyEntry)
    ensures CopiesBytes(e) && e.relOffset == 0
  {
    if a == CopyF6 && Reg(modRm) == 0 then CopyBytes2Mod1
    else if a == CopyF7 && Reg(modRm) == 0 then CopyBytes2ModOperand
    else CopyBytes2Mod
  }

  /** CopyFF: an indirect call or jump through memory, through a register, or neither. */
  function FFTarget(modRm: Byte): TargetKind
  {
    if modRm == 0x15 || modRm == 0x25 then Indirect
    else if 2 <= Reg(modRm) <= 5 then DynamicTarget
    else NoTarget
  }

  // ---------------------------------------------------------------- its relocated copy

  /** The signed value of the relative operand. */
  function RelValue(b: seq<Byte>, s: Shape): int
    requires ShapeOk(s, |b|)
  {
    GetOffset(b[s.relAt..s.relAt + s.relSize])
  }

  /** Where the instruction at address `at` may go: its operand counts from the next instruction. */
  function Target(at: int, b: seq<Byte>, s: Shape): Dword
    requires ShapeOk(s, |b|)
  {
    Wrap(at + s.len + RelValue(b, s))
  }

  /** nNewOffset of AdjustTarget, for a copy `delta` bytes further on, in 32-bit arithmetic. */
  function NewOffset(b: seq<Byte>, s: Shape, delta: int): int
    requires ShapeOk(s, |b|)
  {
    Signed(Wrap(RelValue(b, s) - delta))
  }

  /** *plExtra: the bytes by which the operand would have to grow; 0 when the copy is exact. */
  function Extra(b: seq<Byte>, s: Shape, delta: int): int
    requires ShapeOk(s, |b|)
  {
    var grow := if s.relSize == 0 || FitsOffset(NewOffset(b, s, delta), s.relSize) then 0 else 4 - s.relSize;
    if s.noEnlarge then -grow else grow
  }

  /** The `s.len` bytes at the destination after the copy.  An opcode without an entry is not
      copied: Invalid leaves what the destination held there. */
  function Copied(b: seq<Byte>, dst: seq<Byte>, s: Shape, delta: int): (c: seq<Byte>)
    requires ShapeOk(s, |b|) && s.len <= |dst|
    ensures |c| == s.len
  {
    if s.valid then Overwrite(b[..s.len], s.relAt, PutOffset(NewOffset(b, s, delta), s.relSize))
    else b[..s.len - 1] + [dst[s.len - 1]]
  }

  /** Two byte strings that can differ in the relative operand only. */
  ghost predicate SameButOperand(b: seq<Byte>, c: seq<Byte>, s: Shape)
  {
    && s.len <= |b| && s.len <= |c|
    && forall i | 0 <= i < s.len && !(s.relAt <= i < s.relAt + s.relSize) :: c[i] == b[i]
  }

  lemma BodyStable(e: CopyEntry, b: seq<Byte>, c: seq<Byte>, opSize: bool, adSize: bool, kind: TargetKind)
    requires CopiesBytes(e)
    requires kind != Relative && (kind != NoTarget ==> e.relOffset == 0)
    requires Body(e, b, opSize, adSize, kind).Some?
    requires SameButOperand(b, c, Body(e, b, opSize, adSize, kind).value)
    ensures Body(e, c, opSize, adSize, kind) == Body(e, b, opSize, adSize, kind)
  {
    var s := Body(e, b, opSize, adSize, kind).value;
    if e.modOffset > 0 {
      assert s.relSize == 0;
      assert c[e.modOffset] == b[e.modOffset];
    }
  }

  /** Decoding reads nothing but the bytes of the instruction outside its relative operand. */
  lemma {:induction false} DecodeStable(t: Tables, b: seq<Byte>, c: seq<Byte>, opSize: bool, adSize: bool)
    requires WellFormed(t)
    requires Decode(t, b, opSize, adSize).Some?
    requires SameButOperand(b, c, Decode(t, b, opSize, adSize).value)
    ensures Decode(t, c, opSize, adSize) == Decode(t, b, opSize, adSize)
    decreases |b|
  {
    var e := t.one(b[0]);
    var s := Decode(t, b, opSize, adSize).value;
    assert c[0] == b[0];
    if e.action == CopyBytes {
      BodyStable(e, b, c, opSize, adSize, NoTarget);
    } else if e.action in {CopyBytesPrefix, Copy66, Copy67} {
      DecodeStable(t, b[1..], c[1..], opSize || e.action == Copy66, adSize || e.action == Copy67);
    } else if e.action == Copy0F {
      Body0FStable(t.two(b[1]), b, c, opSize, adSize);
    } else if e.action != Invalid {
      assert s.relSize == 0 && c[1] == b[1];
      BodyStable(GroupEntry(e.action, b[1]), b, c, opSize, adSize, if e.action == CopyFF then FFTarget(b[1])
                 else NoTarget);
    }
  }

  lemma Body0FStable(e: CopyEntry, b: seq<Byte>, c: seq<Byte>, opSize: bool, adSize: bool)
    requires CopiesBytes(e) || e.action == Invalid
    requires |b| >= 2 && Body0F(e, b, opSize, adSize).Some?
    requires SameButOperand(b, c, Body0F(e, b, opSize, adSize).value)
    ensures c[1] == b[1] && Body0F(e, c, opSize, adSize) == Body0F(e, b, opSize, adSize)
  {
    if e.action != Invalid {
      BodyStable(e, b[1..], c[1..], opSize, adSize, NoTarget);
    }
  }

  /** The copy looks like the original to the tables, unless its opcode was not copied. */
  lemma CopyDecodes(t: Tables, b: seq<Byte>, dst: seq<Byte>, rest: seq<Byte>, opSize: bool, adSize: bool, delta: int)
    requires WellFormed(t)
    requires Decode(t, b, opSize, adSize).Some?
    requires var s := Decode(t, b, opSize, adSize).value; s.valid && s.len <= |dst|
    ensures var s := Decode(t, b, opSize, adSize).value;
            Decode(t, Copied(b, dst, s, delta) + rest, opSize, adSize) == Some(s)
  {
    var s := Decode(t, b, opSize, adSize).value;
    DecodeStable(t, b, Copied(b, dst, s, delta) + rest, opSize, adSize);
  }

  /** The branch target survives the move exactly when *plExtra stays 0. */
  lemma TargetPreserved(b: seq<Byte>, dst: seq<Byte>, s: Shape, from: int, to: int)
    requires ShapeOk(s, |b|) && s.relSize > 0 && s.len <= |dst|
    ensures Target(to, Copied(b, dst, s, to - from), s) == Target(from, b, s) <==> Extra(b, s, to - from) == 0
  {
    var v := NewOffset(b, s, to - from);
    var c := Copied(b, dst, s, to - from);
    assert c[s.relAt..s.relAt + s.relSize] == PutOffset(v, s.relSize);
    WrapSigned(Wrap(RelValue(b, s) - (to - from)));
    GetPutOffset(v, s.relSize);
    WrapInjective(to + s.len, RelValue(c, s), v);
    WrapOffset(to + s.len, RelValue(b, s) - (to - from));
  }

  /** Copying an instruction back restores it, and needs no room to grow either. */
  lemma CopyBack(b: seq<Byte>, dst: seq<Byte>, home: seq<Byte>, s: Shape, delta: int)
    requires ShapeOk(s, |b|) && s.valid && s.len <= |dst| && s.len <= |home|
    requires Extra(b, s, delta) == 0
    ensures var c := Copied(b, dst, s, delta);
            Copied(c, home, s, -delta) == b[..s.len] && Extra(c, s, -delta) == 0
  {
    var c := Copied(b, dst, s, delta);
    if s.relSize > 0 {
      var field := b[s.relAt..s.relAt + s.relSize];
      assert c[s.relAt..s.relAt + s.relSize] == PutOffset(NewOffset(b, s, delta), s.relSize);
      OffsetBack(field, delta);
      assert Copied(c, home, s, -delta) == Overwrite(b[..s.len], s.relAt, field) == b[..s.len];
    }
  }

  /** The offset of an exact copy, moved back, is the old offset. */
  lemma OffsetBack(field: seq<Byte>, delta: int)
    requires |field| > 0 && OffsetSize(|field|)
    requires FitsOffset(Signed(Wrap(GetOffset(field) - delta)), |field|)
    ensures var moved := PutOffset(Signed(Wrap(GetOffset(field) - delta)), |field|);
            var back := Signed(Wrap(GetOffset(moved) + delta));
            PutOffset(back, |field|) == field && FitsOffset(back, |field|)
  {
    var x := GetOffset(field);
    WrapSigned(Wrap(x - delta));
    GetPutOffset(Signed(Wrap(x - delta)), |field|);
    PutGetOffset(field);
    FitsWider(x, |field|);
    WrapOffset(delta, x - delta);
    SignedWrap(x);
  }

  lemma FitsWider(v: int, n: nat)
    requires OffsetSize(n) && FitsOffset(v, n)
    ensures FitsOffset(v, 4)
  {
  }
}
