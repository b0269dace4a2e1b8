/** CDetourDis: the code that copies one instruction inside the process's memory. */
module Copier {
  import opened Bytes
  import opened Options
  import opened Disasm

  datatype BranchTarget = TargetNone | TargetDynamic | TargetAddress(at: Dword)

  /** Source and destination of a copy of `n` bytes lie in memory and do not meet. */
  predicate Apart(size: nat, dst: nat, src: nat, n: nat)
  {
    dst + n <= size && src + n <= size && (dst + n <= src || src + n <= dst)
  }

  /** Memory after the instruction at `src`, of shape `s`, has been copied to `dst`. */
  function CopyAt(m: seq<Byte>, dst: nat, src: nat, s: Shape): (r: seq<Byte>)
    requires ShapeOk(s, s.len) && Apart(|m|, dst, src, s.len)
    ensures |r| == |m|
  {
    Overwrite(m, dst, Copied(m[src..src + s.len], m[dst..dst + s.len], s, dst - src))
  }

  /** The same instruction with one more prefix byte in front. */
  function Longer(s: Shape): Shape
  {
    s.(len := s.len + 1, relAt := s.relAt + 1)
  }

  lemma CopiedLonger(x: Byte, b: seq<Byte>, y: Byte, dst: seq<Byte>, s: Shape, delta: int)
    requires ShapeOk(s, |b|) && |b| == s.len == |dst|
    ensures RelValue([x] + b, Longer(s)) == RelValue(b, s)
    ensures Copied([x] + b, [y] + dst, Longer(s), delta) == [x] + Copied(b, dst, s, delta)
  {
    hide PutOffset, GetOffset, Wrap, Signed, Overwrite;
    assert ([x] + b)[s.relAt + 1..s.relAt + 1 + s.relSize] == b[s.relAt..s.relAt + s.relSize];
    assert ([x] + b)[..s.len + 1] == [x] + b[..s.len];
    if s.valid {
      OverwriteShift(x, b[..s.len], s.relAt, PutOffset(NewOffset(b, s, delta), s.relSize));
    } else {
      assert ([x] + b)[..s.len] == [x] + b[..s.len - 1];
    }
  }

  lemma OverwriteShift(x: Byte, b: seq<Byte>, at: nat, field: seq<Byte>)
    requires at + |field| <= |b|
    ensures Overwrite([x] + b, at + 1, field) == [x] + Overwrite(b, at, field)
  {
  }

  /** Copying a prefix byte and then the rest is copying the whole instruction. */
  lemma PrefixStep(m: seq<Byte>, dst: nat, src: nat, s: Shape)
    requires ShapeOk(s, s.len) && Apart(|m|, dst, src, s.len + 1)
    ensures CopyAt(Overwrite(m, dst, [m[src]]), dst + 1, src + 1, s) == CopyAt(m, dst, src, Longer(s))
  {
    hide Copied, RelValue, Overwrite;
    var first := Overwrite(m, dst, [m[src]]);
    var code, there := m[src + 1..src + 1 + s.len], m[dst + 1..dst + 1 + s.len];
    OverwriteElsewhere(m, dst, [m[src]], src + 1, src + 1 + s.len);
    OverwriteElsewhere(m, dst, [m[src]], dst + 1, dst + 1 + s.len);
    assert m[src..src + 1 + s.len] == [m[src]] + code;
    assert m[dst..dst + 1 + s.len] == [m[dst]] + there;
    CopiedLonger(m[src], code, m[dst], there, s, dst - src);
    OverwriteTwice(m, dst, [m[src]], Copied(code, there, s, dst - src));
  }

  /** A prefix changes neither the growth of the operand nor the target. */
  lemma SameOperand(code: seq<Byte>, s: Shape, at: int, delta: int)
    requires ShapeOk(s, s.len) && |code| == s.len + 1
    ensures Extra(code, Longer(s), delta) == Extra(code[1..], s, delta)
    ensures Target(at, code, Longer(s)) == Target(at + 1, code[1..], s)
  {
    assert code[s.relAt + 1..s.relAt + 1 + s.relSize] == code[1..][s.relAt..s.relAt + s.relSize];
  }

  /** What follows the first byte of an instruction that starts with a prefix. */
  lemma PrefixOf(t: Tables, code: seq<Byte>, opSize: bool, adSize: bool)
    requires WellFormed(t) && |code| > 0 && t.one(code[0]).action in {CopyBytesPrefix, Copy66, Copy67}
    requires Decode(t, code, opSize, adSize).Some? && Decode(t, code, opSize, adSize).value.len == |code|
    ensures var e := t.one(code[0]);
            var rest := Decode(t, code[1..], opSize || e.action == Copy66, adSize || e.action == Copy67);
            && rest.Some? && rest.value.len == |code| - 1 && ShapeOk(rest.value, |code| - 1)
            && Decode(t, code, opSize, adSize).value == Longer(rest.value)
            && IsPrefix(e)
  {
  }

  /** What follows the escape byte 0F. */
  lemma EscapeOf(t: Tables, code: seq<Byte>, opSize: bool, adSize: bool)
    requires WellFormed(t) && |code| > 0 && t.one(code[0]).action == Copy0F
    requires Decode(t, code, opSize, adSize).Some? && Decode(t, code, opSize, adSize).value.len == |code|
    ensures IsPrefix(t.one(code[0])) && |code| >= 2
    ensures var e2 := t.two(code[1]);
            var whole := Decode(t, code, opSize, adSize).value;
            if e2.action == Invalid then whole == Shape(2, 1, 0, false, NoTarget, false)
            else && CopiesBytes(e2)
                 && var rest := Body(e2, code[1..], opSize, adSize, NoTarget);
                    rest.Some? && ShapeOk(rest.value, |code| - 1) && rest.value.len == |code| - 1
                      && whole == Longer(rest.value)
  {
  }

  /** An instruction of the groups F6, F7 and FF. */
  lemma GroupOf(t: Tables, code: seq<Byte>, opSize: bool, adSize: bool)
    requires WellFormed(t) && |code| > 0 && t.one(code[0]).action in {CopyF6, CopyF7, CopyFF}
    requires Decode(t, code, opSize, adSize).Some?
    ensures |code| >= 2
    ensures var a := t.one(code[0]).action;
            var kind := if a == CopyFF then FFTarget(code[1]) else NoTarget;
            && Decode(t, code, opSize, adSize) == Body(GroupEntry(a, code[1]), code, opSize, adSize, kind)
            && Decode(t, code, opSize, adSize).value.kind == kind
  {
  }

  /** The address that an indirect call or jump finds where its operand points to, once the prefixes before it have been
      copied; `other` when that is not memory. */
  function Pointed(m: seq<Byte>, dst: nat, code: seq<Byte>, other: BranchTarget): BranchTarget
  {
    if |code| < 6 || dst + |code| > |m| || DwordAt(code, |code| - 4) + 4 > |m| then other
    else TargetAddress(DwordAt(Overwrite(m, dst, code[..|code| - 6]), DwordAt(code, |code| - 4)))
  }

  lemma PointedHere(m: seq<Byte>, dst: nat, code: seq<Byte>, src: nat)
    requires |code| == 6 && Apart(|m|, dst, src, 6) && m[src..src + 6] == code
    ensures DwordAt(m, src + 2) == DwordAt(code, 2)
    ensures forall other :: Pointed(m, dst, code, other) ==
              if DwordAt(code, 2) + 4 > |m| then other else TargetAddress(DwordAt(m, DwordAt(code, 2)))
  {
    assert Overwrite(m, dst, code[..0]) == m;
    assert m[src + 2..src + 6] == code[2..6];
  }

  lemma PointedLonger(m: seq<Byte>, dst: nat, src: nat, code: seq<Byte>)
    requires |code| >= 7 && Apart(|m|, dst, src, |code|) && m[src..src + |code|] == code
    ensures forall other :: Pointed(Overwrite(m, dst, [m[src]]), dst + 1, code[1..], other) ==
              Pointed(m, dst, code, other)
  {
    hide Overwrite;
    var n := |code|;
    assert DwordAt(code[1..], n - 5) == DwordAt(code, n - 4);
    assert code[1..][..n - 7] == code[1..n - 6] && [m[src]] + code[1..n - 6] == code[..n - 6];
    OverwriteTwice(m, dst, [m[src]], code[1..n - 6]);
  }

  /** An indirect call or jump has an operand of four bytes, and is six bytes long after its prefixes. */
  lemma IndirectLength(t: Tables, code: seq<Byte>, opSize: bool, adSize: bool)
    requires WellFormed(t) && |code| >= 2 && t.one(code[0]).action == CopyFF && (code[1] == 0x15 || code[1] == 0x25)
    requires Decode(t, code, opSize, adSize).Some? && Decode(t, code, opSize, adSize).value.len == |code|
    ensures |code| == 6
  {
  }

  lemma {:induction false} IndirectAtLeast(t: Tables, code: seq<Byte>, opSize: bool, adSize: bool)
    requires WellFormed(t) && Decode(t, code, opSize, adSize).Some?
    requires Decode(t, code, opSize, adSize).value.len == |code|
    requires Decode(t, code, opSize, adSize).value.kind == Indirect
    ensures |code| >= 6
    decreases |code|
  {
    var a := t.one(code[0]).action;
    if a in {CopyBytesPrefix, Copy66, Copy67} {
      IndirectAtLeast(t, code[1..], opSize || a == Copy66, adSize || a == Copy67);
    }
  }

  /** What the rest of an instruction is once its first byte, a prefix, has been copied. */
  lemma PrefixFacts(t: Tables, m: seq<Byte>, dst: nat, src: nat, code: seq<Byte>, opSize: bool, adSize: bool,
                    rest: Shape)
    requires WellFormed(t) && |code| > 0 && Decode(t, code[1..], opSize, adSize) == Some(rest)
    requires rest.len == |code| - 1 && ShapeOk(rest, |code| - 1)
    requires Apart(|m|, dst, src, |code|) && m[src..src + |code|] == code
    ensures CopyAt(Overwrite(m, dst, [m[src]]), dst + 1, src + 1, rest) == CopyAt(m, dst, src, Longer(rest))
    ensures Extra(code, Longer(rest), dst - src) == Extra(code[1..], rest, dst - src)
    ensures Target(src, code, Longer(rest)) == Target(src + 1, code[1..], rest)
    ensures Overwrite(m, dst, [m[src]])[src + 1..src + |code|] == code[1..]
    ensures rest.kind == Indirect ==>
              forall other :: Pointed(Overwrite(m, dst, [m[src]]), dst + 1, code[1..], other) ==
                Pointed(m, dst, code, other)
  {
    hide Decode, Overwrite, CopyAt, Extra, Target, WellFormed, Pointed, DwordAt;
    PrefixStep(m, dst, src, rest);
    SameOperand(code, rest, src, dst - src);
    OverwriteElsewhere(m, dst, [m[src]], src + 1, src + |code|);
    assert m[src + 1..src + |code|] == m[src..src + |code|][1..];
    if rest.kind == Indirect {
      IndirectAtLeast(t, code[1..], opSize, adSize);
      PointedLonger(m, dst, src, code);
    }
  }

  /** An unknown one-byte opcode: nothing is copied. */
  lemma InvalidCopy(m: seq<Byte>, dst: nat, src: nat)
    requires Apart(|m|, dst, src, 1)
    ensures var s := Shape(1, 0, 0, false, NoTarget, false);
            CopyAt(m, dst, src, s) == m && Extra(m[src..src + 1], s, dst - src) == 0
  {
  }

  /** An unknown two-byte opcode: only the escape byte is copied. */
  lemma EscapedInvalid(m: seq<Byte>, dst: nat, src: nat)
    requires Apart(|m|, dst, src, 2)
    ensures var s := Shape(2, 1, 0, false, NoTarget, false);
            CopyAt(m, dst, src, s) == Overwrite(m, dst, [m[src]]) && Extra(m[src..src + 2], s, dst - src) == 0
  {
  }

  /** One instruction copy in progress; the memory is shared with the code that runs it. */
  class InstructionCopier {
    const tables: Tables
    const mem: array<Byte>
    var operandOverride: bool
    var addressOverride: bool
    var target: BranchTarget
    var extra: int

    constructor (tables: Tables, mem: array<Byte>)
      ensures this.tables == tables && this.mem == mem
      ensures !operandOverride && !addressOverride && target == TargetNone && extra == 0
    {
      this.tables, this.mem := tables, mem;
      operandOverride, addressOverride, target, extra := false, false, TargetNone, 0;
    }

    /** The bytes `code` at `src` are one instruction, under the prefixes met so far. */
    ghost predicate CanCopy(dst: nat, src: nat, code: seq<Byte>)
      reads this, mem
    {
      && WellFormed(tables) && extra == 0
      && Apart(mem.Length, dst, src, |code|) && mem[src..src + |code|] == code
      && Decode(tables, code, operandOverride, addressOverride).Some?
      && Decode(tables, code, operandOverride, addressOverride).value.len == |code|
    }

    /** The instruction `code` of shape `s` has been copied. */
    twostate predicate Done(dst: nat, src: nat, code: seq<Byte>, s: Shape, next: nat)
      reads this, mem
      requires ShapeOk(s, s.len) && s.len == |code| && Apart(mem.Length, dst, src, s.len)
    {
      && next == src + s.len
      && mem[..] == CopyAt(old(mem[..]), dst, src, s)
      && extra == Extra(code, s, dst - src)
      && target == (match s.kind
                    case Relative => TargetAddress(Target(src, code, s))
                    case DynamicTarget => TargetDynamic
                    case NoTarget => old(target)
                    case Indirect => Pointed(old(mem[..]), dst, code, target))
    }

    /** CopyInstruction: dispatch on the opcode. */
    method CopyInstruction(dst: nat, src: nat, ghost code: seq<Byte>) returns (next: nat)
      requires CanCopy(dst, src, code)
      modifies this`operandOverride, this`addressOverride, this`target, this`extra, mem
      ensures Done(dst, src, code, old(Decode(tables, code, operandOverride, addressOverride).value), next)
      decreases |code|, 1
    {
      hide Overwrite, CopyAt, Extra, Target, Body;
      assert mem[src] == code[0];
      var e := tables.one(mem[src]);
      if e.action == Action.CopyBytes {
        BodyParts(e, code, operandOverride, addressOverride, NoTarget);
        next := CopyBytes(e, dst, src, code, NoTarget);
      } else if e.action in {CopyBytesPrefix, Copy66, Copy67} {
        next := CopyPrefixed(e, dst, src, code);
      } else if e.action == Invalid {
        next := CopyInvalid(dst, src);
        InvalidCopy(mem[..], dst, src);
      } else if e.action == Copy0F {
        next := CopyEscaped(e, dst, src, code);
      } else {
        next := CopyGroup(e.action, dst, src, code);
      }
    }

    /** CopyBytesPrefix, Copy66 and Copy67: a prefix, then the rest of the instruction. */
    method CopyPrefixed(e: CopyEntry, dst: nat, src: nat, ghost code: seq<Byte>) returns (next: nat)
      requires CanCopy(dst, src, code) && e == tables.one(code[0]) && e.action in {CopyBytesPrefix, Copy66, Copy67}
      modifies this`operandOverride, this`addressOverride, this`target, this`extra, mem
      ensures Done(dst, src, code, old(Decode(tables, code, operandOverride, addressOverride).value), next)
      decreases |code|, 0
    {
      hide Decode, Overwrite, CopyAt, Extra, Target, WellFormed, Pointed;
      ghost var m := mem[..];
      PrefixOf(tables, code, operandOverride, addressOverride);
      if e.action == Copy66 {
        operandOverride := true;
      } else if e.action == Copy67 {
        addressOverride := true;
      }
      ghost var rest := Decode(tables, code[1..], operandOverride, addressOverride).value;
      PrefixFacts(tables, m, dst, src, code, operandOverride, addressOverride, rest);
      CopyFirstByte(e, dst, src);
      next := CopyInstruction(dst + 1, src + 1, code[1..]);
    }

    /** CopyBytes on the entry of a prefix or of the escape byte. */
    method CopyFirstByte(e: CopyEntry, dst: nat, src: nat)
      requires IsPrefix(e) && Apart(mem.Length, dst, src, 1) && extra == 0
      modifies this`target, this`extra, mem
      ensures mem[..] == Overwrite(old(mem[..]), dst, [old(mem[src])])
      ensures extra == 0 && target == old(target)
    {
      hide Body, CopyAt, Extra, Overwrite, Target;
      ghost var code := mem[src..src + 1];
      assert code == [mem[src]];
      OneByteBody(e, code, operandOverride, addressOverride);
      VerbatimCopy(mem[..], dst, src, Shape(1, 0, 0, false, NoTarget, true));
      assert mem[..][src..src + 1] == code;
      var _ := CopyBytes(e.(action := Action.CopyBytes), dst, src, code, NoTarget);
    }

    /** Invalid: nothing is copied. */
    method CopyInvalid(dst: nat, src: nat) returns (next: nat)
      ensures next == src + 1
    {
      next := src + 1;
    }

    /** Copy0F: the escape byte, then by the second table. */
    method CopyEscaped(e: CopyEntry, dst: nat, src: nat, ghost code: seq<Byte>) returns (next: nat)
      requires CanCopy(dst, src, code) && e == tables.one(code[0]) && e.action == Copy0F
      modifies this`target, this`extra, mem
      ensures Done(dst, src, code, Decode(tables, code, operandOverride, addressOverride).value, next)
    {
      hide Decode, Overwrite, CopyAt, Extra, Target, WellFormed, Body, IsPrefix, Pointed;
      ghost var m := mem[..];
      EscapeOf(tables, code, operandOverride, addressOverride);
      assert code[1] == mem[src + 1];
      var e2 := tables.two(mem[src + 1]);
      CopyFirstByte(e, dst, src);
      OverwriteElsewhere(m, dst, [m[src]], src + 1, src + |code|);
      assert mem[src + 1..src + |code|] == m[src..src + |code|][1..] == code[1..];
      if e2.action == Invalid {
        next := CopyInvalid(dst + 1, src + 1);
        EscapedInvalid(m, dst, src);
      } else {
        ghost var rest := Body(e2, code[1..], operandOverride, addressOverride, NoTarget).value;
        PrefixStep(m, dst, src, rest);
        SameOperand(code, rest, src, dst - src);
        BodyParts(e2, code[1..], operandOverride, addressOverride, NoTarget);
        next := CopyBytes(e2, dst + 1, src + 1, code[1..], NoTarget);
      }
    }

    /** CopyF6, CopyF7 and CopyFF: the ModR/M byte selects the entry, and for FF the kind of target. */
    method CopyGroup(a: Action, dst: nat, src: nat, ghost code: seq<Byte>) returns (next: nat)
      requires CanCopy(dst, src, code) && a == tables.one(code[0]).action && a in {CopyF6, CopyF7, CopyFF}
      modifies this`target, this`extra, mem
      ensures Done(dst, src, code, Decode(tables, code, operandOverride, addressOverride).value, next)
    {
      hide Decode, Overwrite, CopyAt, Extra, Target, WellFormed, Body, Pointed;
      GroupOf(tables, code, operandOverride, addressOverride);
      var modRm := mem[src + 1];
      assert modRm == code[1];
      if a == CopyFF {
        FindTarget(modRm, dst, src, code);
      }
      next := CopyBytes(GroupEntry(a, modRm), dst, src, code, if a == CopyFF then FFTarget(modRm) else NoTarget);
    }

    /** The first part of CopyFF: where the call or jump goes. */
    method FindTarget(modRm: Byte, dst: nat, src: nat, ghost code: seq<Byte>)
      requires CanCopy(dst, src, code) && |code| >= 2 && code[1] == modRm && tables.one(code[0]).action == CopyFF
      modifies this`target
      ensures target == match FFTarget(modRm)
                        case DynamicTarget => TargetDynamic
                        case Indirect => Pointed(mem[..], dst, code, target)
                        case _ => old(target)
    {
      hide Decode, Overwrite, WellFormed, Pointed;
      if modRm == 0x15 || modRm == 0x25 {
        IndirectLength(tables, code, operandOverride, addressOverride);
        PointedHere(mem[..], dst, code, src);
        var p := LoadDword(src + 2);
        if p + 4 <= mem.Length {
          var at := LoadDword(p);
          target := TargetAddress(at);
        } else {
          var at: Dword := *;
          target := TargetAddress(at);
        }
      } else if 2 <= Reg(modRm) <= 5 {
        target := TargetDynamic;
      }
    }

    method LoadDword(at: nat) returns (v: Dword)
      requires at + 4 <= mem.Length
      ensures v == DwordAt(mem[..], at)
    {
      v := DwordAt(mem[at..at + 4], 0);
    }

    /** CopyBytes: copy by the entry alone, and re-aim the relative operand if there is one.  A
        target of `kind` is the caller's to report. */
    method CopyBytes(e: CopyEntry, dst: nat, src: nat, ghost code: seq<Byte>, ghost kind: TargetKind)
      returns (next: nat)
      requires CopiesBytes(e) && extra == 0 && kind != Relative
      requires kind != NoTarget ==> e.relOffset == 0 && e.flags == NoFlag
      requires Apart(mem.Length, dst, src, |code|) && mem[src..src + |code|] == code
      requires Body(e, code, operandOverride, addressOverride, kind).Some?
      requires Body(e, code, operandOverride, addressOverride, kind).value.len == |code|
      modifies this`target, this`extra, mem
      ensures var s := Body(e, code, operandOverride, addressOverride, kind).value;
              && next == src + s.len
              && mem[..] == CopyAt(old(mem[..]), dst, src, s)
              && extra == Extra(code, s, dst - src)
              && target == (if s.kind == Relative then TargetAddress(Target(src, code, s))
                            else if e.flags == Dynamic then TargetDynamic else old(target))
    {
      hide PutOffset, GetOffset, Wrap, Signed, FitsOffset, CopyAt, Overwrite, Extra, Target, RelValue, Body, Fixed;
      ghost var s := Body(e, code, operandOverride, addressOverride, kind).value;
      BodyParts(e, code, operandOverride, addressOverride, kind);
      var n := Measure(e, src, code, kind);
      next := src + n;
      CopyMemory(dst, src, n);

      if e.relOffset > 0 {
        AdjustedCopy(old(mem[..]), dst, src, s);
        var at := AdjustTarget(dst, src, n, e.relOffset, n - e.relOffset);
        target := TargetAddress(at);
      } else {
        VerbatimCopy(old(mem[..]), dst, src, s);
      }
      if e.flags == NoEnlarge {
        extra := -extra;
      }
      if e.flags == Dynamic {
        target := TargetDynamic;
      }
    }

    /** The part of CopyBytes that finds nBytes. */
    method Measure(e: CopyEntry, src: nat, ghost code: seq<Byte>, ghost kind: TargetKind) returns (n: nat)
      requires CopiesBytes(e) && kind != Relative && (kind != NoTarget ==> e.relOffset == 0)
      requires src + |code| <= mem.Length && mem[src..src + |code|] == code
      requires Body(e, code, operandOverride, addressOverride, kind).Some?
      ensures n == Body(e, code, operandOverride, addressOverride, kind).value.len
    {
      n := Fixed(e, operandOverride, addressOverride);
      if e.modOffset > 0 {
        var modRm := mem[src + e.modOffset];
        assert modRm == code[e.modOffset];
        var (more, hasSib) := RbModRm(modRm);
        n := n + more;
        if hasSib {
          var sib := mem[src + e.modOffset + 1];
          assert sib == code[e.modOffset + 1];
          if sib % 8 == 5 {
            if modRm / 0x40 == 0 {
              n := n + 4;
            } else if modRm / 0x40 == 1 {
              n := n + 1;
            } else if modRm / 0x40 == 2 {
              n := n + 4;
            }
          }
        }
      }
    }

    method CopyMemory(dst: nat, src: nat, n: nat)
      requires Apart(mem.Length, dst, src, n)
      modifies mem
      ensures mem[..] == Overwrite(old(mem[..]), dst, old(mem[src..src + n]))
    {
      forall i | 0 <= i < n { mem[dst + i] := mem[src + i]; }
    }

    /** AdjustTarget: re-aim the operand of `size` bytes at `offset`; `op` is the instruction's length. */
    method AdjustTarget(dst: nat, src: nat, op: nat, offset: nat, size: nat) returns (at: Dword)
      requires offset + size <= op && Apart(mem.Length, dst, src, op)
      requires (size == 1 || size == 2 || size == 4) && extra == 0
      modifies this`extra, mem
      ensures var value := GetOffset(old(mem[dst + offset..dst + offset + size]));
              var moved := Signed(Wrap(value - (dst - src)));
              && at == Wrap(src + op + value)
              && mem[..] == Overwrite(old(mem[..]), dst + offset, PutOffset(moved, size))
              && extra == (if FitsOffset(moved, size) then 0 else 4 - size)
    {
      hide Signed, Wrap, FitsOffset, PutOffset, GetOffset;
      var p := dst + offset;
      var value := GetOffset(mem[p..p + size]);
      at := Wrap(src + op + value);
      var moved := Signed(Wrap(value - (dst - src)));
      var bytes := PutOffset(moved, size);
      forall i | 0 <= i < size { mem[p + i] := bytes[i]; }
      assert mem[..] == Overwrite(old(mem[..]), p, bytes);
      if !FitsOffset(moved, size) {
        extra := 4 - size;
      }
    }
  }

  /** How the shape of an instruction follows from its entry. */
  lemma BodyParts(e: CopyEntry, b: seq<Byte>, opSize: bool, adSize: bool, kind: TargetKind)
    requires CopiesBytes(e) && kind != Relative && (kind != NoTarget ==> e.relOffset == 0)
    requires Body(e, b, opSize, adSize, kind).Some?
    ensures var s := Body(e, b, opSize, adSize, kind).value;
            && ShapeOk(s, s.len) && s.valid && s.relAt == e.relOffset && s.noEnlarge == (e.flags == NoEnlarge)
            && (e.relOffset > 0 ==>
                  s.kind == Relative && s.len == Fixed(e, opSize, adSize) && s.relSize == s.len - e.relOffset)
            && (e.relOffset == 0 ==> s.relSize == 0 && s.kind == if e.flags == Dynamic then DynamicTarget else kind)
  {
  }

  lemma OneByteBody(e: CopyEntry, b: seq<Byte>, opSize: bool, adSize: bool)
    requires IsPrefix(e) && |b| == 1
    ensures Body(e.(action := Action.CopyBytes), b, opSize, adSize, NoTarget) ==
              Some(Shape(1, 0, 0, false, NoTarget, true))
  {
  }

  lemma VerbatimCopy(m: seq<Byte>, dst: nat, src: nat, s: Shape)
    requires ShapeOk(s, s.len) && Apart(|m|, dst, src, s.len) && s.valid && s.relSize == 0
    ensures CopyAt(m, dst, src, s) == Overwrite(m, dst, m[src..src + s.len])
    ensures Extra(m[src..src + s.len], s, dst - src) == 0
  {
  }

  /** Re-aiming the operand of a verbatim copy gives the relocated instruction. */
  lemma AdjustedCopy(m: seq<Byte>, dst: nat, src: nat, s: Shape)
    requires ShapeOk(s, s.len) && Apart(|m|, dst, src, s.len) && s.relSize > 0
    ensures var code := m[src..src + s.len];
            var verbatim := Overwrite(m, dst, code);
            && GetOffset(verbatim[dst + s.relAt..dst + s.relAt + s.relSize]) == RelValue(code, s)
            && var moved := Signed(Wrap(RelValue(code, s) - (dst - src)));
            && Overwrite(verbatim, dst + s.relAt, PutOffset(moved, s.relSize)) == CopyAt(m, dst, src, s)
            && Target(src, code, s) == Wrap(src + s.len + RelValue(code, s))
            && var grow := if FitsOffset(moved, s.relSize) then 0 else 4 - s.relSize;
               Extra(code, s, dst - src) == if s.noEnlarge then -grow else grow
  {
    hide PutOffset, GetOffset, Overwrite, Wrap, Signed, FitsOffset;
    var code := m[src..src + s.len];
    OverwriteSlice(m, dst, code, s.relAt, s.relAt + s.relSize);
    assert code[..s.len] == code;
    OverwriteInside(m, dst, code, s.relAt, PutOffset(NewOffset(code, s, dst - src), s.relSize));
  }

  lemma OverwriteSlice(m: seq<Byte>, at: nat, bytes: seq<Byte>, i: nat, j: nat)
    requires at + |bytes| <= |m| && i <= j <= |bytes|
    ensures Overwrite(m, at, bytes)[at + i..at + j] == bytes[i..j]
  {
  }

  lemma OverwriteInside(m: seq<Byte>, at: nat, code: seq<Byte>, k: nat, field: seq<Byte>)
    requires at + |code| <= |m| && k + |field| <= |code|
    ensures Overwrite(Overwrite(m, at, code), at + k, field) == Overwrite(m, at, Overwrite(code, k, field))
  {
  }
}
