/** CImageData of loader_dll/detours/image.cpp: payloads by GUID in one buffer of packed records. */
module ImageData {
  import opened Bytes
  import opened Options
  import opened Alignment

  type Guid = g: seq<Byte> | |g| == 16 witness Fill(0, 16)

  /** DETOUR_SECTION_RECORD and the bytes behind it. */
  datatype Record = Record(guid: Guid, data: seq<Byte>)

  const HEADER: nat := 24

  function Size(r: Record): nat { HEADER + |r.data| }

  function Encoded(r: Record): (b: seq<Byte>)
    requires Size(r) < 0x1_0000_0000
    ensures |b| == Size(r)
  {
    DwordBytes(Size(r)) + DwordBytes(0) + r.guid + r.data
  }

  predicate Small(rs: seq<Record>)
  {
    |rs| > 0 ==> Size(rs[0]) < 0x1_0000_0000 && Small(rs[1..])
  }

  function Encode(rs: seq<Record>): seq<Byte>
    requires Small(rs)
  {
    if |rs| == 0 then [] else Encoded(rs[0]) + Encode(rs[1..])
  }

  function Lookup(rs: seq<Record>, g: Guid): Option<seq<Byte>>
  {
    if |rs| == 0 then None else if rs[0].guid == g then Some(rs[0].data) else Lookup(rs[1..], g)
  }

  predicate DistinctGuids(rs: seq<Record>)
  {
    |rs| > 0 ==> Lookup(rs[1..], rs[0].guid).None? && DistinctGuids(rs[1..])
  }

  function Without(rs: seq<Record>, g: Guid): seq<Record>
  {
    if |rs| == 0 then [] else if rs[0].guid == g then rs[1..] else [rs[0]] + Without(rs[1..], g)
  }

  /** The map that the records stand for. */
  function Contents(rs: seq<Record>): map<Guid, seq<Byte>>
  {
    if |rs| == 0 then map[] else Contents(rs[1..])[rs[0].guid := rs[0].data]
  }

  /** A payload as it is stored: a null pointer stands for zeros, and zeros fill it up to a multiple of 8. */
  function Padded(data: Option<seq<Byte>>, n: nat): (r: seq<Byte>)
    requires data.Some? ==> |data.value| == n
    ensures |r| == QuadAlign(n) && (data.Some? ==> r[..n] == data.value)
    ensures forall i | (if data.Some? then n else 0) <= i < |r| :: r[i] == 0
  {
    match data
    case Some(d) => d + Fill(0, QuadAlign(n) - n)
    case None => Fill(0, QuadAlign(n))
  }

  // ---------------------------------------------------------------- records and the map

  lemma {:induction false} ContentsLookup(rs: seq<Record>, g: Guid)
    ensures Lookup(rs, g) == if g in Contents(rs) then Some(Contents(rs)[g]) else None
    decreases |rs|
  {
    if |rs| > 0 {
      ContentsLookup(rs[1..], g);
    }
  }

  lemma {:induction false} ContentsWithout(rs: seq<Record>, g: Guid)
    requires DistinctGuids(rs)
    ensures Contents(Without(rs, g)) == Contents(rs) - {g}
    ensures DistinctGuids(Without(rs, g)) && Lookup(Without(rs, g), g).None?
    decreases |rs|
  {
    if |rs| > 0 {
      ContentsLookup(rs[1..], rs[0].guid);
      if rs[0].guid != g {
        ContentsWithout(rs[1..], g);
        LookupWithout(rs[1..], g, rs[0].guid);
        assert Without(rs, g)[1..] == Without(rs[1..], g);
      }
    }
  }

  lemma {:induction false} LookupWithout(rs: seq<Record>, g: Guid, x: Guid)
    requires x != g
    ensures Lookup(Without(rs, g), x) == Lookup(rs, x)
    decreases |rs|
  {
    if |rs| > 0 && rs[0].guid != g {
      LookupWithout(rs[1..], g, x);
      assert Without(rs, g)[1..] == Without(rs[1..], g);
    }
  }

  lemma {:induction false} ContentsAppend(rs: seq<Record>, r: Record)
    requires DistinctGuids(rs) && Lookup(rs, r.guid).None?
    ensures Contents(rs + [r]) == Contents(rs)[r.guid := r.data] && DistinctGuids(rs + [r])
    decreases |rs|
  {
    if |rs| > 0 {
      assert (rs + [r])[1..] == rs[1..] + [r];
      ContentsAppend(rs[1..], r);
      LookupAppend(rs[1..], r, rs[0].guid);
    } else {
      assert rs + [r] == [r];
    }
  }

  lemma {:induction false} LookupAppend(rs: seq<Record>, r: Record, g: Guid)
    ensures Lookup(rs + [r], g) == if Lookup(rs, g).Some? then Lookup(rs, g) else if r.guid == g then Some(r.data)
              else None
    decreases |rs|
  {
    if |rs| > 0 {
      assert (rs + [r])[1..] == rs[1..] + [r];
      LookupAppend(rs[1..], r, g);
    }
  }

  // ---------------------------------------------------------------- records and the buffer

  lemma {:induction false} EncodeConcat(xs: seq<Record>, ys: seq<Record>)
    requires Small(xs) && Small(ys)
    ensures Small(xs + ys) && Encode(xs + ys) == Encode(xs) + Encode(ys)
    decreases |xs|
  {
    hide Encoded;
    if |xs| > 0 {
      assert (xs + ys)[1..] == xs[1..] + ys;
      EncodeConcat(xs[1..], ys);
    } else {
      assert xs + ys == ys;
    }
  }

  lemma {:induction false} SmallParts(xs: seq<Record>, ys: seq<Record>)
    requires Small(xs + ys)
    ensures Small(xs) && Small(ys)
    decreases |xs|
  {
    if |xs| > 0 {
      assert (xs + ys)[1..] == xs[1..] + ys;
      SmallParts(xs[1..], ys);
    } else {
      assert xs + ys == ys;
    }
  }

  lemma Parts(x: seq<Byte>, y: seq<Byte>, z: seq<Byte>, w: seq<Byte>, rest: seq<Byte>)
    requires |x| == 4 && |y| == 4 && |z| == 16
    ensures var b := x + y + z + w + rest;
            && b[0..4] == x && b[4..8] == y && b[8..24] == z && b[24..24 + |w|] == w && b[24 + |w|..] == rest
  {
  }

  lemma DwordIs(b: seq<Byte>, at: nat, v: Dword)
    requires at + 4 <= |b| && b[at..at + 4] == DwordBytes(v)
    ensures DwordAt(b, at) == v
  {
    hide DwordBytes;
    DwordRoundTrip(v);
    var x := b[at..at + 4];
    assert x[0] == b[at] && x[1] == b[at + 1] && x[2] == b[at + 2] && x[3] == b[at + 3];
  }

  /** What the first record looks like in the buffer. */
  lemma HeadFields(b: seq<Byte>, rs: seq<Record>)
    requires |rs| > 0 && Small(rs) && b == Encode(rs)
    ensures |b| >= Size(rs[0]) && DwordAt(b, 0) == Size(rs[0]) && DwordAt(b, 4) == 0
    ensures b[8..24] == rs[0].guid && b[24..Size(rs[0])] == rs[0].data && b[Size(rs[0])..] == Encode(rs[1..])
  {
    hide DwordBytes, DwordAt;
    var r := rs[0];
    Parts(DwordBytes(Size(r)), DwordBytes(0), r.guid, r.data, Encode(rs[1..]));
    DwordIs(b, 0, Size(r));
    DwordIs(b, 4, 0);
  }

  lemma SmallHead(rs: seq<Record>)
    requires |rs| > 0 && Small(rs)
    ensures Size(rs[0]) < 0x1_0000_0000 && Small(rs[1..])
  {
  }

  /** The records read back from a buffer. */
  function Decode(b: seq<Byte>): Option<seq<Record>>
    decreases |b|
  {
    if |b| == 0 then Some([])
    else if |b| < HEADER then None
    else
      var n := DwordAt(b, 0);
      if n < HEADER || n as int > |b| || DwordAt(b, 4) != 0 then None
      else match Decode(b[n..])
        case None => None
        case Some(rest) => Some([Record(b[8..24], b[24..n])] + rest)
  }

  lemma DecodeStep(b: seq<Byte>, r: Record, rest: seq<Record>)
    requires |b| >= Size(r) && DwordAt(b, 0) == Size(r) && DwordAt(b, 4) == 0
    requires b[8..24] == r.guid && b[24..Size(r)] == r.data && Decode(b[Size(r)..]) == Some(rest)
    ensures Decode(b) == Some([r] + rest)
  {
    hide DwordAt;
  }

  lemma DecodeNone(rs: seq<Record>)
    requires |rs| == 0
    ensures Decode(Encode(rs)) == Some(rs)
  {
  }

  /** A buffer stands for one list of records only. */
  lemma {:induction false} DecodeEncode(rs: seq<Record>)
    requires Small(rs)
    ensures Decode(Encode(rs)) == Some(rs)
    decreases |rs|
  {
    hide DwordAt, Encode, Decode;
    if |rs| > 0 {
      SmallHead(rs);
      HeadFields(Encode(rs), rs);
      DecodeEncode(rs[1..]);
      DecodeStep(Encode(rs), rs[0], rs[1..]);
      assert [rs[0]] + rs[1..] == rs;
    } else {
      DecodeNone(rs);
    }
  }

  // ---------------------------------------------------------------- the code

  class CImageData {
    var buffer: array<Byte>   // m_pbData
    var size: nat             // m_cbData
    var alloc: nat            // m_cbAlloc, 0 while the buffer is the caller's
    ghost var records: seq<Record>

    /** A buffer of the caller's that holds well-formed records with different GUIDs. */
    constructor (buffer: array<Byte>, size: nat, ghost records: seq<Record>)
      requires size <= buffer.Length && size < 0x1_0000_0000
      requires Small(records) && DistinctGuids(records) && buffer[..size] == Encode(records)
      ensures Valid() && this.buffer == buffer && this.records == records && alloc == 0
    {
      this.buffer, this.size, this.alloc, this.records := buffer, size, 0, records;
    }

    ghost predicate Valid()
      reads this, buffer
    {
      && size <= buffer.Length && size < 0x1_0000_0000 && (alloc == 0 || alloc == buffer.Length)
      && Small(records) && DistinctGuids(records) && buffer[..size] == Encode(records)
    }

    ghost function Map(): map<Guid, seq<Byte>>
      reads this
    {
      Contents(records)
    }

    /** Purge. */
    method Purge()
      requires Valid()
      modifies this`size, this`records
      ensures Valid() && Map() == map[]
    {
      size, records := 0, [];
    }

    /** Find: the place and size of a payload.  `done` are the records before it. */
    method Find(g: Guid) returns (found: bool, at: nat, n: nat, ghost done: seq<Record>, ghost rest: seq<Record>)
      requires Valid()
      ensures (found <==> g in Map()) && (!found ==> n == 0)
      ensures found ==>
                && at + n <= size && buffer[at..at + n] == Map()[g] && n == |Map()[g]|
                && records == done + rest && Small(done) && Small(rest) && Lookup(done, g).None?
                && |rest| > 0 && rest[0].guid == g && at == |Encode(done)| + HEADER && n == |rest[0].data|
    {
      hide Encode, Lookup, Contents, DistinctGuids, Small, DwordAt;
      found, at, n := false, 0, 0;
      done, rest := [], records;
      var offset := 0;
      Start(records, g);
      while offset < size
        invariant records == done + rest && Small(done) && Small(rest) && Lookup(done, g).None?
        invariant offset == |Encode(done)| && offset <= size && buffer[offset..size] == Encode(rest)
        decreases |rest|
      {
        NotEmpty(rest);
        HeadFields(buffer[offset..size], rest);
        InBuffer(buffer[..], offset, size, rest[0]);
        var cb := DwordAt(buffer[offset..offset + 4], 0);
        if buffer[offset + 8..offset + 24] == g {
          found, at, n := true, offset + HEADER, cb - HEADER;
          FoundHere(records, done, rest, g);
          return;
        }
        NextRecord(done, rest, g);
        done, rest := done + [rest[0]], rest[1..];
        offset := offset + cb;
        assert records == done + rest;
      }
      AtEnd(rest);
      assert done == records;
      ContentsLookup(records, g);
    }

    /** Delete. */
    method Delete(g: Guid) returns (ok: bool)
      requires Valid()
      modifies this`size, this`records, buffer
      ensures Valid() && ok == (g in old(Map())) && Map() == old(Map()) - {g}
      ensures records == Without(old(records), g) && size <= old(size)
      ensures old(size) - size == if ok then HEADER + |old(Map())[g]| else 0
    {
      hide Encode, Lookup, Contents, DistinctGuids, Small, Encoded;
      ContentsWithout(records, g);
      var at, n;
      ghost var done, rest;
      ok, at, n, done, rest := Find(g);
      if !ok {
        ContentsLookup(records, g);
        WithoutAbsent(records, g);
        return;
      }
      FoundHere(records, done, rest, g);
      CloseGap(at, n, done, rest);
    }

    /** The records behind the one whose payload is at `at` move down over it. */
    method CloseGap(at: nat, n: nat, ghost done: seq<Record>, ghost rest: seq<Record>)
      requires Valid() && records == done + rest && Small(done) && Small(rest) && |rest| > 0
      requires at == |Encode(done)| + HEADER && n == |rest[0].data| && at + n <= size
      requires DistinctGuids(done + rest[1..])
      modifies this`size, this`records, buffer
      ensures Valid() && records == done + rest[1..] && size == old(size) - HEADER - n
    {
      hide Encode, DistinctGuids, Small;
      ghost var m := buffer[..];
      Closed(m[..size], done, rest);
      var end := at + n;
      MoveMemory(at - HEADER, end, size - end);
      MovedDown(m, buffer[..], at - HEADER, end, size);
      size := size - HEADER - n;
      records := done + rest[1..];
      assert buffer[..size] == buffer[..][..size];
    }

    method MoveMemory(to: nat, from: nat, n: nat)
      requires to <= from && from + n <= buffer.Length
      modifies buffer
      ensures buffer[..] == old(buffer[..to] + buffer[from..from + n] + buffer[to + n..])
    {
      ghost var b := buffer[..];
      forall i | 0 <= i < n { buffer[to + i] := buffer[from + i]; }
      assert buffer[to..to + n] == b[from..from + n];
      assert buffer[..to] == b[..to] && buffer[to + n..] == b[to + n..];
      ThreeParts(buffer[..], to, n);
    }

    /** SizeTo: make room for `n` bytes; `newOk` tells whether there is memory. */
    method SizeTo(n: nat, newOk: bool) returns (ok: bool)
      requires Valid() && size <= n
      modifies this`buffer, this`alloc
      ensures Valid() && ok == (n <= old(alloc) || newOk)
      ensures ok ==> n <= buffer.Length
      ensures buffer[..size] == old(buffer[..size]) && (buffer == old(buffer) || fresh(buffer))
      ensures !ok || n <= old(alloc) ==> buffer == old(buffer) && alloc == old(alloc)
    {
      hide Encode, DistinctGuids, Small;
      if n <= alloc {
        return true;
      }
      if !newOk {
        return false;
      }
      var larger := new Byte[n];
      forall i | 0 <= i < size { larger[i] := buffer[i]; }
      assert larger[..size] == buffer[..size];
      buffer, alloc := larger, n;
      return true;
    }

    /** What is left of the buffer once a payload for `g` has been taken out. */
    ghost function SizeWithout(g: Guid): (n: int)
      reads this
    {
      size - if g in Map() then HEADER + |Map()[g]| else 0
    }

    /** Set: the payload replaces any other for `g`.  When memory runs out the old payload is lost. */
    method Set(g: Guid, data: Option<seq<Byte>>, n: nat, newOk: bool) returns (at: Option<nat>)
      requires Valid() && (data.Some? ==> |data.value| == n)
      requires size + QuadAlign(n) + HEADER < 0x1_0000_0000
      modifies this, buffer
      ensures Valid() && (buffer == old(buffer) || fresh(buffer))
      ensures at.None? <==> !newOk && old(SizeWithout(g)) + QuadAlign(n) + HEADER > old(alloc)
      ensures at.None? ==> Map() == old(Map()) - {g} && (Map() == old(Map()) <==> g !in old(Map()))
      ensures at.Some? ==>
                && Map() == old(Map())[g := Padded(data, n)]
                && at.value + QuadAlign(n) == size && buffer[at.value..size] == Padded(data, n)
    {
      hide Encode, Lookup, Contents, DistinctGuids, Small, Encoded;
      var _ := Delete(g);
      WithoutGone(old(records), g);
      var cb := QuadAlign(n);
      var ok := SizeTo(size + cb + HEADER, newOk);
      if !ok {
        return None;
      }
      var place := AppendRecord(g, data, n, cb);
      return Some(place);
    }

    /** The last part of Set: the record goes behind the others. */
    method AppendRecord(g: Guid, data: Option<seq<Byte>>, n: nat, cb: nat) returns (at: nat)
      requires Valid() && cb == QuadAlign(n) && (data.Some? ==> |data.value| == n) && Lookup(records, g).None?
      requires size + cb + HEADER <= buffer.Length && size + cb + HEADER < 0x1_0000_0000
      modifies this`size, this`records, buffer
      ensures Valid() && Map() == old(Map())[g := Padded(data, n)]
      ensures at + QuadAlign(n) == size && buffer[at..size] == Padded(data, n)
    {
      hide Encode, Lookup, Contents, DistinctGuids, Small, Encoded;
      ghost var r := Record(g, Padded(data, n));
      ghost var b, k := buffer[..size], size;
      RecordFits(records, r);
      ContentsAppend(records, r);
      WriteRecord(g, data, n, cb);
      at := size + HEADER;
      size := size + cb + HEADER;
      records := records + [r];
      RecordTail(b, buffer[..size], r);
      assert buffer[at..size] == buffer[..size][k + HEADER..];
    }

    /** The fields and the payload of a record at the end of the buffer. */
    method WriteRecord(g: Guid, data: Option<seq<Byte>>, n: nat, cb: nat)
      requires Valid() && cb == QuadAlign(n) && (data.Some? ==> |data.value| == n)
      requires size + cb + HEADER <= buffer.Length
      requires cb + HEADER < 0x1_0000_0000
      modifies buffer
      ensures buffer[..size + cb + HEADER] == old(buffer[..size]) + Encoded(Record(g, Padded(data, n)))
    {
      hide DwordBytes, Encode, Small, DistinctGuids, Fill, Encoded, Padded;
      ghost var b := buffer[..size];
      WriteHeader(DwordBytes(cb + HEADER), DwordBytes(0), g);
      WritePayload(size + HEADER, data, n, cb);
      RecordParts(b, Record(g, Padded(data, n)));
    }

    /** The payload of a record, cleared when the caller gives no data, and zeros up to a multiple of 8. */
    method WritePayload(dest: nat, data: Option<seq<Byte>>, n: nat, cb: nat)
      requires cb == QuadAlign(n) && (data.Some? ==> |data.value| == n) && dest + cb <= buffer.Length
      modifies buffer
      ensures buffer[..dest + cb] == old(buffer[..dest]) + Padded(data, n)
    {
      match data {
        case Some(d) =>
          forall i | 0 <= i < n { buffer[dest + i] := d[i]; }
          forall i | n <= i < cb { buffer[dest + i] := 0; }
        case None =>
          forall i | 0 <= i < cb { buffer[dest + i] := 0; }
      }
      assert buffer[dest..dest + cb] == Padded(data, n);
      assert buffer[..dest] == old(buffer[..dest]);
      TwoParts(buffer[..], dest, cb);
    }

    /** The fields of a record at the end of the buffer. */
    method WriteHeader(count: seq<Byte>, zero: seq<Byte>, g: Guid)
      requires |count| == |zero| == 4 && size + HEADER <= buffer.Length
      modifies buffer
      ensures buffer[..size + HEADER] == old(buffer[..size]) + (count + zero + g)
    {
      forall i | 0 <= i < 4 { buffer[size + i] := count[i]; }
      forall i | 0 <= i < 4 { buffer[size + 4 + i] := zero[i]; }
      forall i | 0 <= i < 16 { buffer[size + 8 + i] := g[i]; }
      assert buffer[..size] == old(buffer[..size]);
      assert buffer[size..size + HEADER] == count + zero + g;
      TwoParts(buffer[..], size, HEADER);
    }

    /** Enumerate: `i` is *pnIterator.  Started at 0 and called with what it returns, it meets the records one
        by one, and then ends. */
    method Enumerate(i: nat, ghost done: seq<Record>, ghost rest: seq<Record>)
      returns (found: bool, g: Guid, at: nat, n: nat, next: nat)
      requires Valid() && size + HEADER < 0x1_0000_0000
      requires records == done + rest && Small(done) && i == |Encode(done)|
      ensures found <==> rest != []
      ensures found ==>
                && g == rest[0].guid && n == |rest[0].data| && at == i + HEADER && at + n <= size
                && buffer[at..at + n] == rest[0].data
                && Small(done + [rest[0]]) && next == |Encode(done + [rest[0]])|
      ensures !found ==> next == i && n == 0 && forall k | 0 <= k < 16 :: g[k] == 0
    {
      hide Encode, Lookup, DistinctGuids, Small, DwordAt, Fill;
      SmallParts(done, rest);
      EncodeConcat(done, rest);
      ghost var b := buffer[..size];
      assert buffer[i..size] == b[i..] == Encode(rest);
      if size < i + HEADER {
        found, g, at, n, next := false, Fill(0, 16), 0, 0, i;
        if rest != [] {
          HeadFields(buffer[i..size], rest);
          assert false;
        }
      } else {
        if rest == [] {
          Start(rest, Fill(0, 16));
          assert false;
        }
        HeadFields(buffer[i..size], rest);
        InBuffer(buffer[..], i, size, rest[0]);
        NextSize(done, rest);
        var cb := DwordAt(buffer[i..i + 4], 0);
        found, g, at, n, next := true, buffer[i + 8..i + 24], i + HEADER, cb - HEADER, i + cb;
      }
    }

    /** The loop that a client of Enumerate runs. */
    method All() returns (seen: seq<Record>)
      requires Valid() && size + HEADER < 0x1_0000_0000
      ensures seen == records
    {
      hide Encode, DistinctGuids, Small, Fill, Contents;
      seen := [];
      Start(records, Fill(0, 16));
      var found, i := true, 0;
      while found
        invariant |seen| <= |records| && seen == records[..|seen|] && Small(seen) && i == |Encode(seen)|
        invariant !found ==> seen == records
        decreases |records| - |seen|, found
      {
        var g, at, n;
        ghost var k := |seen|;
        found, g, at, n, i := Enumerate(i, seen, records[k..]);
        if found {
          seen := seen + [Record(g, buffer[at..at + n])];
          assert seen == records[..k + 1];
        }
      }
    }
  }

  lemma Start(rs: seq<Record>, g: Guid)
    ensures Small([]) && Lookup([], g).None? && Encode([]) == [] && rs == [] + rs
  {
  }

  lemma NotEmpty(rest: seq<Record>)
    requires Small(rest) && |Encode(rest)| > 0
    ensures |rest| > 0
  {
  }

  lemma AtEnd(rest: seq<Record>)
    requires Small(rest) && |Encode(rest)| == 0
    ensures rest == []
  {
  }

  lemma InBuffer(m: seq<Byte>, offset: nat, size: nat, r: Record)
    requires offset <= size <= |m| && size - offset >= Size(r)
    ensures m[offset..size][8..24] == m[offset + 8..offset + 24]
    ensures m[offset..size][24..Size(r)] == m[offset + 24..offset + Size(r)]
    ensures DwordAt(m[offset..size], 0) == DwordAt(m[offset..offset + 4], 0)
    ensures m[offset..size][Size(r)..] == m[offset + Size(r)..size]
  {
    SliceOfSlice(m, offset, size, 8, 24);
    SliceOfSlice(m, offset, size, 24, Size(r));
    SliceOfSlice(m, offset, size, Size(r), size - offset);
    assert m[offset..size][Size(r)..] == m[offset..size][Size(r)..size - offset];
  }

  lemma NextRecord(done: seq<Record>, rest: seq<Record>, g: Guid)
    requires |rest| > 0 && Small(done) && Small(rest) && Lookup(done, g).None? && rest[0].guid != g
    ensures Small(done + [rest[0]]) && Small(rest[1..]) && Lookup(done + [rest[0]], g).None?
    ensures |Encode(done + [rest[0]])| == |Encode(done)| + Size(rest[0])
  {
    hide Encoded;
    EncodeConcat(done, [rest[0]]);
    LookupAppend(done, rest[0], g);
  }

  lemma {:induction false} FoundHere(rs: seq<Record>, done: seq<Record>, rest: seq<Record>, g: Guid)
    requires rs == done + rest && Lookup(done, g).None? && |rest| > 0 && rest[0].guid == g
    ensures Lookup(rs, g) == Some(rest[0].data) && g in Contents(rs) && Contents(rs)[g] == rest[0].data
    ensures Without(rs, g) == done + rest[1..]
    decreases |done|
  {
    if |done| > 0 {
      assert rs[1..] == done[1..] + rest;
      FoundHere(rs[1..], done[1..], rest, g);
    }
    ContentsLookup(rs, g);
  }

  lemma {:induction false} WithoutAbsent(rs: seq<Record>, g: Guid)
    requires Lookup(rs, g).None?
    ensures Without(rs, g) == rs
    decreases |rs|
  {
    if |rs| > 0 {
      WithoutAbsent(rs[1..], g);
    }
  }

  lemma WithoutGone(rs: seq<Record>, g: Guid)
    requires DistinctGuids(rs)
    ensures Lookup(Without(rs, g), g).None?
  {
    ContentsWithout(rs, g);
  }

  /** The buffer around a record that is taken out. */
  lemma Closed(b: seq<Byte>, done: seq<Record>, rest: seq<Record>)
    requires Small(done) && Small(rest) && |rest| > 0 && Small(done + rest) && b == Encode(done + rest)
    ensures Small(rest[1..]) && Small(done + rest[1..])
    ensures var at := |Encode(done)|;
            at + Size(rest[0]) <= |b| && Encode(done + rest[1..]) == b[..at] + b[at + Size(rest[0])..]
  {
    hide Encode, DwordAt;
    SmallHead(rest);
    EncodeConcat(done, rest);
    EncodeConcat(done, rest[1..]);
    HeadFields(Encode(rest), rest);
    CutOut(Encode(done), Encode(rest), Size(rest[0]));
  }

  lemma CutOut(x: seq<Byte>, y: seq<Byte>, n: nat)
    requires n <= |y|
    ensures (x + y)[..|x|] == x && (x + y)[|x| + n..] == y[n..]
  {
  }

  lemma MovedDown(m: seq<Byte>, n: seq<Byte>, to: nat, from: nat, size: nat)
    requires to <= from <= size <= |m|
    requires n == m[..to] + m[from..size] + m[to + size - from..]
    ensures |n| == |m| && n[..to + size - from] == m[..size][..to] + m[..size][from..]
  {
  }

  lemma RecordFits(rs: seq<Record>, r: Record)
    requires Small(rs) && Size(r) < 0x1_0000_0000
    ensures Small(rs + [r]) && Encode(rs + [r]) == Encode(rs) + Encoded(r)
  {
    hide Encoded;
    EncodeConcat(rs, [r]);
    assert Encode([r]) == Encoded(r) + [];
  }

  lemma RecordTail(b: seq<Byte>, n: seq<Byte>, r: Record)
    requires Size(r) < 0x1_0000_0000 && n == b + Encoded(r)
    ensures n[|b| + HEADER..] == r.data
  {
    hide DwordBytes;
    assert Encoded(r)[HEADER..] == r.data;
  }

  lemma TwoParts(m: seq<Byte>, at: nat, n: nat)
    requires at + n <= |m|
    ensures m[..at + n] == m[..at] + m[at..at + n]
  {
  }

  lemma ThreeParts(m: seq<Byte>, at: nat, n: nat)
    requires at + n <= |m|
    ensures m == m[..at] + m[at..at + n] + m[at + n..]
  {
  }

  lemma RecordParts(b: seq<Byte>, r: Record)
    requires Size(r) < 0x1_0000_0000
    ensures b + (DwordBytes(Size(r)) + DwordBytes(0) + r.guid) + r.data == b + Encoded(r)
  {
    hide DwordBytes;
  }

  lemma NextSize(done: seq<Record>, rest: seq<Record>)
    requires |rest| > 0 && Small(done) && Small(rest)
    ensures Small(done + [rest[0]]) && |Encode(done + [rest[0]])| == |Encode(done)| + Size(rest[0])
  {
    hide Encoded;
    EncodeConcat(done, [rest[0]]);
  }

  /** An image is read with one payload of eight bytes.  Without memory for a larger buffer, setting it again loses
      it. */
  method PayloadLost(g: Guid, payload: seq<Byte>) returns (before: bool, at: Option<nat>, after: bool)
    requires |payload| == 8
    ensures before && at.None? && !after
  {
    hide Encoded, QuadAlign;
    var r := Record(g, payload);
    var bytes := Encoded(r);
    var buffer := new Byte[|bytes|](i requires 0 <= i < |bytes| => bytes[i]);
    assert buffer[..|bytes|] == bytes && [r][1..] == [];
    assert Encode([r]) == bytes + [] == bytes;
    assert Contents([r]) == map[g := payload];
    var image := new CImageData(buffer, |bytes|, [r]);
    var place, n;
    ghost var done, rest;
    before, place, n, done, rest := image.Find(g);
    at := image.Set(g, Some(payload), 8, false);
    after, place, n, done, rest := image.Find(g);
  }
}
