/** MIG's types and their sizes (mig/type.c), and the type descriptors in messages
    (include/mach/message.h). */
module MigLayout {

  import opened Arithmetic
  import opened MessageLayout
  import opened Options
  import opened Words

  /** sizeof_mach_msg_type_t, sizeof_mach_msg_type_long_t, sizeof_pointer. */
  const SHORT := 4
  const LONG := 12
  const PTR_BYTES := 4

  // ---------------------------------------------------------------- types

  /** An ipc_type_t; `elem` is the itNumber of its itElement. */
  datatype Ty = Ty(name: nat, bits: nat, number: nat, inLine: bool, varArray: bool, indefinite: bool, elem: nat,
    port: bool)

  function Bytes(number: nat, bits: nat): nat { (number * bits + 7) / 8 }

  function RoundUp(n: nat): nat { (n + 3) / 4 * 4 }

  /** itCalculateSizeInfo. */
  function TypeSize(t: Ty): nat { if t.inLine then Bytes(t.number, t.bits) else PTR_BYTES }

  function PadSize(t: Ty): nat { if t.inLine then (4 - Bytes(t.number, t.bits) % 4) % 4 else 0 }

  function MinTypeSize(t: Ty): nat { if t.inLine && t.varArray then 0 else TypeSize(t) + PadSize(t) }

  /** The size of an element of a variable-sized array, and how many fit in line. */
  function ElemSize(t: Ty): nat { Bytes(t.elem, t.bits) }

  function MaxCount(t: Ty): nat
    requires t.elem > 0
  {
    t.number / t.elem
  }

  /** itLongDecl, itArrayDecl and itStructDecl, itVarArrayDecl, itPtrDecl. */
  function Base(name: nat, bits: nat, port: bool): Ty { Ty(name, bits, 1, true, false, false, 1, port) }

  function ArrayOf(n: nat, t: Ty): Option<Ty> {
    if !t.inLine || t.varArray then None else Some(t.(number := t.number * n, elem := t.number))
  }

  function VarArrayOf(n: nat, t: Ty): Option<Ty>
    requires Bytes(t.number, t.bits) > 0
  {
    if !t.inLine || t.varArray then None
    else if n != 0 then Some(t.(number := t.number * n, varArray := true, elem := t.number))
    else
      var bytes := Bytes(t.number, t.bits);
      Some(t.(number := 2048 / bytes * t.number, varArray := true, indefinite := true, elem := t.number))
  }

  function PtrTo(t: Ty): Option<Ty> {
    if !t.inLine || (t.varArray && !t.indefinite && t.number > 0) then None
    else Some(t.(number := 0, indefinite := false, inLine := false))
  }

  /** What the generated code relies on: elements of whole bytes, a whole number of them in the type. */
  predicate Sound(t: Ty) {
    && t.bits > 0 && t.bits % 8 == 0 && t.elem > 0 && t.number % t.elem == 0
    && (t.indefinite ==> t.varArray && t.inLine && TypeSize(t) >= PTR_BYTES)
  }

  lemma WholeBytes(n: nat, bits: nat)
    requires bits % 8 == 0
    ensures Bytes(n, bits) == n * (bits / 8)
  {
    assert n * bits == n * (bits / 8) * 8;
  }

  lemma BaseSound(name: nat, bits: nat, port: bool)
    requires bits > 0 && bits % 8 == 0
    ensures Sound(Base(name, bits, port)) && Base(name, bits, port).number > 0
  {
  }

  lemma ArraySound(n: nat, t: Ty)
    requires Sound(t) && t.number > 0 && ArrayOf(n, t).Some?
    ensures Sound(ArrayOf(n, t).value)
  {
    MultipleDiv(t.number, n);
  }

  /** Every variable-sized array of elements of at most 2048 whole bytes is sound. */
  lemma VarArraySound(n: nat, t: Ty)
    requires Sound(t) && t.number > 0
    ensures Bytes(t.number, t.bits) > 0
    ensures VarArrayOf(n, t).Some? && Bytes(t.number, t.bits) <= 2048 ==> Sound(VarArrayOf(n, t).value)
  {
    WholeBytes(t.number, t.bits);
    MulAtLeast(t.number, t.bits / 8);
    var bytes := Bytes(t.number, t.bits);
    if VarArrayOf(n, t).Some? && bytes <= 2048 {
      if n != 0 {
        MultipleDiv(t.number, n);
      } else {
        var k := 2048 / bytes;
        MultipleDiv(t.number, k);
        assert t.number * k == k * t.number;
        WholeBytes(k * t.number, t.bits);
        HalfFull(bytes);
        assert k * t.number * (t.bits / 8) == k * bytes;
      }
    }
  }

  /** At least half of the 2048 bytes allowed in line are used. */
  lemma HalfFull(bytes: nat)
    requires 0 < bytes <= 2048
    ensures 2048 / bytes * bytes >= 1024
  {
    assert 2048 == 2048 / bytes * bytes + 2048 % bytes;
    if bytes > 1024 { DivUnique(2048, bytes, 1, 2048 - bytes); }
  }

  lemma PtrSound(t: Ty)
    requires Sound(t) && PtrTo(t).Some?
    ensures Sound(PtrTo(t).value)
  {
  }

  // ---------------------------------------------------------------- descriptors

  /** mach_msg_type_t and mach_msg_type_long_t. */
  datatype Desc = Desc(name: nat, bits: nat, number: nat, inline: bool, dealloc: bool)

  /** msgt_inline, msgt_longform and msgt_deallocate, from the lowest bit. */
  function Flags(inline: bool, long: bool, dealloc: bool): (r: nat)
    ensures r < 8 && (r % 2 == 1 <==> inline) && (r / 2 % 2 == 1 <==> long) && (r / 4 % 2 == 1 <==> dealloc)
  {
    (if inline then 1 else 0) + (if long then 2 else 0) + (if dealloc then 4 else 0)
  }

  /** The 32-bit word of the short form: name 8 bits, size 8, number 12, inline, longform, deallocate. */
  function ShortWord(d: Desc, long: bool): nat {
    d.name + 0x100 * d.bits + 0x1_0000 * d.number + 0x1000_0000 * Flags(d.inline, long, d.dealloc)
  }

  predicate ShortOk(d: Desc) { d.name < 0x100 && d.bits < 0x100 && d.number < 0x1000 }

  predicate LongOk(d: Desc) { d.name < 0x1_0000 && d.bits < 0x1_0000 && d.number < WORD }

  function Word(n: nat): seq<byte>
    requires n < 0x1_0000_0000
  {
    [n % 0x100, n / 0x100 % 0x100, n / 0x1_0000 % 0x100, n / 0x100_0000]
  }

  function Value(b: seq<byte>): nat
    requires |b| == 4
  {
    b[0] as int + 0x100 * (b[1] as int) + 0x1_0000 * (b[2] as int) + 0x100_0000 * (b[3] as int)
  }

  lemma Digits(n: nat)
    ensures n == n % 0x100 + 0x100 * (n / 0x100) && n / 0x1_0000 == n / 0x100 / 0x100
            && n / 0x100_0000 == n / 0x1_0000 / 0x100
  {
  }

  lemma ValueOfWord(n: nat)
    requires n < 0x1_0000_0000
    ensures Value(Word(n)) == n
  {
    Digits(n);
    Digits(n / 0x100);
    Digits(n / 0x1_0000);
  }

  function DescSize(long: bool): nat { if long then LONG else SHORT }

  predicate DescOk(d: Desc, long: bool) { if long then LongOk(d) else ShortOk(d) }

  /** A descriptor in memory; in the long form the first word carries only the flags. */
  function Encode(d: Desc, long: bool): (r: seq<byte>)
    requires DescOk(d, long)
    ensures |r| == DescSize(long)
  {
    if long then
      Word(ShortWord(Desc(0, 0, 0, d.inline, d.dealloc), true)) + Word(d.name + 0x1_0000 * d.bits) + Word(d.number)
    else Word(ShortWord(d, false))
  }

  function FlagOf(w: nat, weight: nat): bool
    requires weight > 0
  {
    w / weight % 2 == 1
  }

  function DecodeShort(w: nat): Desc {
    Desc(w % 0x100, w / 0x100 % 0x100, w / 0x1_0000 % 0x1000, FlagOf(w, 0x1000_0000), FlagOf(w, 0x4000_0000))
  }

  /** The fields of a descriptor as generated code reads them. */
  function Decode(b: seq<byte>, long: bool): Desc
    requires |b| == DescSize(long)
  {
    var head := Value(b[..4]);
    if long then
      var h := DecodeShort(head);
      var w := Value(b[4..8]);
      Desc(w % 0x1_0000, w / 0x1_0000, Value(b[8..12]), h.inline, h.dealloc)
    else DecodeShort(head)
  }

  /** The msgt_longform bit. */
  function IsLong(b: seq<byte>): bool
    requires |b| >= 4
  {
    FlagOf(Value(b[..4]), 0x2000_0000)
  }

  /** The fields of a word made of parts of 8, 8 and 12 bits and three flags. */
  lemma Parts(a: nat, b: nat, c: nat, f: nat)
    requires a < 0x100 && b < 0x100 && c < 0x1000 && f < 8
    ensures var w := a + 0x100 * b + 0x1_0000 * c + 0x1000_0000 * f;
            && w < 0x8000_0000 && w % 0x100 == a && w / 0x100 % 0x100 == b && w / 0x1_0000 % 0x1000 == c
            && w / 0x1000_0000 == f && w / 0x2000_0000 == f / 2 && w / 0x4000_0000 == f / 4
  {
    var w3 := c + 0x1000 * f;
    var w2 := b + 0x100 * w3;
    var w := a + 0x100 * w2;
    assert w / 0x100 == w2 && w2 / 0x100 == w3 && w / 0x1_0000 == w3;
  }

  lemma DecodeShortWord(d: Desc, long: bool)
    requires ShortOk(d)
    ensures DecodeShort(ShortWord(d, long)) == d && FlagOf(ShortWord(d, long), 0x2000_0000) == long
    ensures ShortWord(d, long) < 0x8000_0000
  {
    var f := Flags(d.inline, long, d.dealloc);
    Parts(d.name, d.bits, d.number, f);
    var w := ShortWord(d, long);
    assert FlagOf(w, 0x1000_0000) == d.inline && FlagOf(w, 0x2000_0000) == long && FlagOf(w, 0x4000_0000) == d.dealloc;
  }

  lemma ShortRoundTrip(d: Desc)
    requires ShortOk(d)
    ensures Decode(Encode(d, false), false) == d && !IsLong(Encode(d, false))
  {
    DecodeShortWord(d, false);
    ValueOfWord(ShortWord(d, false));
    assert Encode(d, false)[..4] == Encode(d, false);
  }

  lemma Slices(a: seq<byte>, b: seq<byte>, c: seq<byte>)
    requires |a| == |b| == |c| == 4
    ensures (a + b + c)[..4] == a && (a + b + c)[4..8] == b && (a + b + c)[8..12] == c
  {
  }

  lemma DecodeLong(a: seq<byte>, b: seq<byte>, c: seq<byte>)
    requires |a| == |b| == |c| == 4
    ensures var h := DecodeShort(Value(a));
            Decode(a + b + c, true) == Desc(Value(b) % 0x1_0000, Value(b) / 0x1_0000, Value(c), h.inline, h.dealloc)
    ensures IsLong(a + b + c) == FlagOf(Value(a), 0x2000_0000)
  {
    Slices(a, b, c);
  }

  lemma NameAndSize(name: nat, bits: nat)
    requires name < 0x1_0000 && bits < 0x1_0000
    ensures var w := name + 0x1_0000 * bits; w < 0x1_0000_0000 && w % 0x1_0000 == name && w / 0x1_0000 == bits
  {
  }

  lemma LongRoundTrip(d: Desc)
    requires LongOk(d)
    ensures Decode(Encode(d, true), true) == d && IsLong(Encode(d, true))
  {
    var flags := Desc(0, 0, 0, d.inline, d.dealloc);
    DecodeShortWord(flags, true);
    NameAndSize(d.name, d.bits);
    var w0, w1 := ShortWord(flags, true), d.name + 0x1_0000 * d.bits;
    DecodeLong(Word(w0), Word(w1), Word(d.number));
    ValueOfWord(w0);
    ValueOfWord(w1);
    ValueOfWord(d.number);
  }

  /** Generated code reads back the descriptor that was packed. */
  lemma DescriptorRoundTrip(d: Desc, long: bool)
    requires DescOk(d, long)
    ensures Decode(Encode(d, long), long) == d && IsLong(Encode(d, long)) == long
  {
    if long { LongRoundTrip(d); } else { ShortRoundTrip(d); }
  }
}
