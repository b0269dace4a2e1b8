/** s_rceCopyTable and s_rceCopyTable0F of loader_dll/detours/disasm.cpp. */
module CopyTables {
  import opened Bytes
  import opened Disasm

  /** The one-byte opcodes. */
  function OneByte(b: Byte): CopyEntry
  {
    if 0x00 <= b <= 0x03 || 0x08 <= b <= 0x0b || 0x10 <= b <= 0x13 || 0x18 <= b <= 0x1b
       || 0x20 <= b <= 0x23 || 0x28 <= b <= 0x2b || 0x30 <= b <= 0x33 || 0x38 <= b <= 0x3b
       || 0x62 <= b <= 0x63 || 0x84 <= b <= 0x8f || 0xc4 <= b <= 0xc5 || 0xd0 <= b <= 0xd3
       || 0xd8 <= b <= 0xdf || b == 0xfe then
      CopyEntry(2, 2, 1, 0, NoFlag, Action.CopyBytes)
    else if b == 0x04 || b == 0x0c || b == 0x14 || b == 0x1c || b == 0x24 || b == 0x2c || b == 0x34 || b == 0x3c
       || b == 0x6a || b == 0x82 || b == 0xa8 || 0xb0 <= b <= 0xb7 || 0xd4 <= b <= 0xd5
       || 0xe4 <= b <= 0xe7 then
      CopyEntry(2, 2, 0, 0, NoFlag, Action.CopyBytes)
    else if b == 0x05 || b == 0x0d || b == 0x15 || b == 0x1d || b == 0x25 || b == 0x2d || b == 0x35 || b == 0x3d
       || b == 0x68 || b == 0xa9 || 0xb8 <= b <= 0xbf then
      CopyEntry(5, 3, 0, 0, NoFlag, Action.CopyBytes)
    else if 0x70 <= b <= 0x7f || b == 0xe3 || b == 0xeb then
      CopyEntry(2, 2, 0, 1, NoFlag, Action.CopyBytes)
    else if b == 0x26 || b == 0x2e || b == 0x36 || b == 0x3e || 0x64 <= b <= 0x65 || b == 0xf0
       || 0xf2 <= b <= 0xf3 then
      CopyEntry(1, 1, 0, 0, NoFlag, CopyBytesPrefix)
    else if b == 0x6b || b == 0x80 || b == 0x83 || 0xc0 <= b <= 0xc1 || b == 0xc6 then
      CopyEntry(3, 3, 1, 0, NoFlag, Action.CopyBytes)
    else if 0xa0 <= b <= 0xa3 then
      CopyEntry(5, 3, 0, 0, Address, Action.CopyBytes)
    else if 0xcb <= b <= 0xcc || 0xce <= b <= 0xcf then
      CopyEntry(1, 1, 0, 0, Dynamic, Action.CopyBytes)
    else if b == 0x69 || b == 0x81 || b == 0xc7 then
      CopyEntry(6, 4, 1, 0, NoFlag, Action.CopyBytes)
    else if 0xe0 <= b <= 0xe2 then
      CopyEntry(2, 2, 0, 1, NoEnlarge, Action.CopyBytes)
    else if b == 0x9a || b == 0xea then
      CopyEntry(7, 5, 0, 0, Dynamic, Action.CopyBytes)
    else if b == 0xd6 || b == 0xf1 then
      CopyEntry(1, 1, 0, 0, NoFlag, Invalid)
    else if 0xe8 <= b <= 0xe9 then
      CopyEntry(5, 3, 0, 1, NoFlag, Action.CopyBytes)
    else if b == 0x0f then
      CopyEntry(1, 1, 0, 0, NoFlag, Copy0F)
    else if b == 0x66 then
      CopyEntry(1, 1, 0, 0, NoFlag, Copy66)
    else if b == 0x67 then
      CopyEntry(1, 1, 0, 0, NoFlag, Copy67)
    else if b == 0xc2 then
      CopyEntry(3, 3, 0, 0, NoFlag, Action.CopyBytes)
    else if b == 0xc8 then
      CopyEntry(4, 4, 0, 0, NoFlag, Action.CopyBytes)
    else if b == 0xca then
      CopyEntry(3, 3, 0, 0, Dynamic, Action.CopyBytes)
    else if b == 0xcd then
      CopyEntry(2, 2, 0, 0, Dynamic, Action.CopyBytes)
    else if b == 0xf6 then
      CopyEntry(0, 0, 0, 0, NoFlag, CopyF6)
    else if b == 0xf7 then
      CopyEntry(0, 0, 0, 0, NoFlag, CopyF7)
    else if b == 0xff then
      CopyEntry(0, 0, 0, 0, NoFlag, CopyFF)
    else
      CopyEntry(1, 1, 0, 0, NoFlag, Action.CopyBytes)
  }

  /** The opcodes after 0F. */
  function TwoByte(b: Byte): CopyEntry
  {
    if 0x04 <= b <= 0x05 || b == 0x07 || b == 0x0a || b == 0x0c || 0x19 <= b <= 0x1f || 0x24 <= b <= 0x27
       || 0x36 <= b <= 0x3f || 0x78 <= b <= 0x7d || 0xa6 <= b <= 0xa7 || 0xb8 <= b <= 0xb9 || b == 0xd0
       || b == 0xf0 || b == 0xff then
      CopyEntry(1, 1, 0, 0, NoFlag, Invalid)
    else if b == 0x06 || 0x08 <= b <= 0x09 || b == 0x0b || b == 0x0e || 0x30 <= b <= 0x35 || b == 0x77
       || 0xa0 <= b <= 0xa2 || 0xa8 <= b <= 0xaa || 0xc8 <= b <= 0xcf then
      CopyEntry(2, 2, 0, 0, NoFlag, Action.CopyBytes)
    else if 0x80 <= b <= 0x8f then
      CopyEntry(5, 3, 0, 1, NoFlag, Action.CopyBytes)
    else if 0x70 <= b <= 0x73 || b == 0xa4 || b == 0xac || b == 0xba || 0xc4 <= b <= 0xc6 then
      CopyEntry(3, 3, 1, 0, NoFlag, Action.CopyBytes)
    else if b == 0x0f then
      CopyEntry(3, 3, 2, 0, NoFlag, Action.CopyBytes)
    else
      CopyEntry(2, 2, 1, 0, NoFlag, Action.CopyBytes)
  }

  const X86: Tables := Tables(OneByte, TwoByte)

  /** The tables meet everything the copier relies on. */
  lemma X86WellFormed()
    ensures WellFormed(X86)
  {
    forall b: Byte
      ensures CopiesBytes(X86.one(b)) || IsPrefix(X86.one(b)) || X86.one(b).action in {CopyF6, CopyF7, CopyFF, Invalid}
    {
      assert X86.one(b) == OneByte(b);
    }
    forall b: Byte
      ensures CopiesBytes(X86.two(b)) || X86.two(b).action == Invalid
    {
      assert X86.two(b) == TwoByte(b);
    }
  }
}
