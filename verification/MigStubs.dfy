/** The stubs MIG generates, in the direction of the request: the client's packing code (mig/user.c) and the
    server's checking and extracting code (mig/server.c), for any list of arguments.  Descriptors are taken
    as they are delivered: the kernel has normalised the deallocate bit and the names of port rights. */
module MigStubs {

  import opened Arithmetic
  import opened MessageLayout
  import opened MigLayout
  import opened Options
  import opened Words

  datatype Arg = Arg(ty: Ty, long: bool)

  /** A value: for a variable-sized array its count; the bytes that go in the body of the message, which
      for data sent out of line are those of the pointer; and whether it is sent in line. */
  datatype Val = Val(count: nat, data: seq<byte>, inline: bool)

  /** akbVariable. */
  predicate IsVar(a: Arg) { a.ty.varArray && a.ty.inLine }

  /** A short descriptor whose items are wider than itself. */
  predicate Wide(a: Arg) { !a.long && a.ty.bits / 8 > SHORT }

  predicate ArgOk(a: Arg) { Sound(a.ty) }

  predicate ArgsOk(args: seq<Arg>) { forall i :: 0 <= i < |args| ==> ArgOk(args[i]) }

  predicate NoneWide(args: seq<Arg>) { forall i :: 0 <= i < |args| ==> !Wide(args[i]) }

  /** The room a field has in the declared message structure. */
  function FieldSize(a: Arg): nat { TypeSize(a.ty) + PadSize(a.ty) }

  lemma Padded(b: nat)
    ensures b + (4 - b % 4) % 4 == RoundUp(b) && RoundUp(b) % 4 == 0
  {
  }

  lemma FieldRounded(a: Arg)
    ensures FieldSize(a) == RoundUp(TypeSize(a.ty)) && FieldSize(a) % 4 == 0
  {
    Padded(TypeSize(a.ty));
  }

  // ---------------------------------------------------------------- sizes of variable fields

  /** A factor as the generator prints it: only if it is greater than 1. */
  function Factor(n: nat): nat { if n > 1 then n else 1 }

  /** WriteArgSize: the sender's size of a variable field, from the count. */
  function SendSize(t: Ty, inline: bool, count: nat): nat {
    if t.indefinite && !inline then PTR_BYTES
    else if ElemSize(t) % 4 != 0 then RoundUp(Factor(ElemSize(t)) * count)
    else Factor(ElemSize(t)) * count
  }

  /** The bytes of `number` items as the receiver computes them. */
  function ItemBytes(t: Ty, number: nat): nat
    requires t.elem > 0
  {
    Factor(ElemSize(t) / t.elem) * number
  }

  /** WriteCheckArgSize: the receiver's size of it, from the number in the descriptor. */
  function ReceiveSize(t: Ty, inline: bool, number: nat): nat
    requires t.elem > 0
  {
    if t.indefinite && !inline then PTR_BYTES
    else if ElemSize(t) % 4 != 0 then RoundUp(ItemBytes(t, number))
    else ItemBytes(t, number)
  }

  /** Rounding up in unsigned arithmetic, as the generated code does, is rounding up and then wrapping. */
  lemma UnsignedRounding(x: nat)
    ensures Unsigned(x + 3) / 4 * 4 == Unsigned(RoundUp(x))
  {
    var q, r := (x + 3) / WORD, (x + 3) % WORD;
    DivUnique(RoundUp(x), WORD, q, r / 4 * 4);
  }

  lemma SoundDivides(t: Ty)
    requires Sound(t)
    ensures ElemSize(t) > 0 && ElemSize(t) % t.elem == 0 && ElemSize(t) == t.elem * (t.bits / 8)
    ensures ElemSize(t) / t.elem == t.bits / 8 == Factor(t.bits / 8) && Factor(ElemSize(t)) == ElemSize(t)
  {
    WholeBytes(t.elem, t.bits);
    MultipleDiv(t.elem, t.bits / 8);
    MulAtLeast(t.elem, t.bits / 8);
  }

  lemma Regroup(m: nat, elem: nat, count: nat)
    ensures m * (elem * count) == (m * elem) * count
  {
  }

  /** Sender and receiver agree on the size of a variable field. */
  lemma SizesAgree(t: Ty, inline: bool, count: nat)
    requires Sound(t)
    ensures SendSize(t, inline, count) == ReceiveSize(t, inline, t.elem * count)
  {
    SoundDivides(t);
    Regroup(t.bits / 8, t.elem, count);
  }

  lemma FactorsAgree(e: nat, elem: nat)
    requires elem > 0
    ensures Factor(e) == Factor(e / elem) * elem <==> (e > 0 && e % elem == 0) || (e == 0 && elem == 1)
  {
    assert e == e / elem * elem + e % elem;
    if e / elem == 1 { assert e / elem * elem == elem; }
  }

  lemma AgreeAtFour(t: Ty)
    requires t.elem > 0 && SendSize(t, true, 4) == ReceiveSize(t, true, t.elem * 4)
    ensures Factor(ElemSize(t)) == Factor(ElemSize(t) / t.elem) * t.elem
  {
    var f, g := Factor(ElemSize(t)), Factor(ElemSize(t) / t.elem);
    Regroup(g, t.elem, 4);
    assert RoundUp(f * 4) == f * 4 && RoundUp(g * t.elem * 4) == g * t.elem * 4;
  }

  /** They agree for every count exactly when the items of an element divide its size in bytes, as they do when
      items have whole bytes, or there is one item of no size. */
  lemma SizesAgreeExactly(t: Ty)
    requires t.elem > 0
    ensures (forall count: nat :: SendSize(t, true, count) == ReceiveSize(t, true, t.elem * count)) <==>
            (ElemSize(t) > 0 && ElemSize(t) % t.elem == 0) || (ElemSize(t) == 0 && t.elem == 1)
  {
    FactorsAgree(ElemSize(t), t.elem);
    var g := Factor(ElemSize(t) / t.elem);
    if Factor(ElemSize(t)) == g * t.elem {
      forall count: nat ensures SendSize(t, true, count) == ReceiveSize(t, true, t.elem * count) {
        Regroup(g, t.elem, count);
      }
    } else if SendSize(t, true, 4) == ReceiveSize(t, true, t.elem * 4) {
      AgreeAtFour(t);
    }
  }

  /** Items of four bits: eight elements of two items each are eight bytes, but the receiver, whose multiplier
      is rounded down to nothing and not printed, counts one for each of the sixteen items. */
  lemma HalfBytesDisagree()
    ensures var t := Ty(9, 4, 16, true, true, false, 2, false);
            SendSize(t, true, 8) == 8 && ReceiveSize(t, true, 2 * 8) == 16
  {
  }

  // ---------------------------------------------------------------- values and fields

  /** The client sends an array of no declared maximum in line as long as it fits. */
  predicate SentInline(a: Arg, count: nat)
    requires a.ty.elem > 0
  {
    a.ty.inLine && !(a.ty.indefinite && count > MaxCount(a.ty))
  }

  function DescOf(a: Arg, v: Val): Desc
    requires a.ty.elem > 0
  {
    Desc(a.ty.name, a.ty.bits, if a.ty.varArray then a.ty.elem * v.count else a.ty.number, v.inline, !v.inline)
  }

  /** The bytes of a value in the message body, without padding. */
  function DataSize(a: Arg, v: Val): nat
    requires a.ty.elem > 0
  {
    if !IsVar(a) then TypeSize(a.ty) else if v.inline then ElemSize(a.ty) * v.count else PTR_BYTES
  }

  /** Too many elements for the field declared for them. */
  predicate TooLarge(a: Arg, v: Val)
    requires a.ty.elem > 0
  {
    IsVar(a) && v.inline && v.count > MaxCount(a.ty)
  }

  /** A value of the argument's type whose descriptor fits its form; only an array of no declared maximum can
      go either way. */
  predicate ValOk(a: Arg, v: Val)
    requires a.ty.elem > 0
  {
    && |v.data| == DataSize(a, v) && (!TooLarge(a, v) ==> DescOk(DescOf(a, v), a.long))
    && (!a.ty.varArray ==> v.count == 0) && (!a.ty.indefinite ==> v.inline == a.ty.inLine)
  }

  predicate Matches(args: seq<Arg>, vals: seq<Val>) {
    |vals| == |args| && forall i :: 0 <= i < |args| ==> ArgOk(args[i]) && ValOk(args[i], vals[i])
  }

  function FieldOf(a: Arg): Field { Field(DescSize(a.long), FieldSize(a), IsVar(a)) }

  function Fields(args: seq<Arg>): (r: seq<Field>)
    ensures |r| == |args| && forall i :: 0 <= i < |args| ==> r[i] == FieldOf(args[i])
  {
    seq(|args|, i requires 0 <= i < |args| => FieldOf(args[i]))
  }

  /** One round of rtFindSize. */
  function SizeWith(size: nat, a: Arg): nat {
    (if a.long then RoundUp(size) + LONG else size + if a.ty.bits / 8 > SHORT then a.ty.bits / 8 else SHORT)
      + MinTypeSize(a.ty)
  }

  /** rtFindSize of the first `i` arguments. */
  function FindSize(args: seq<Arg>, i: nat): nat
    requires i <= |args|
  {
    if i == 0 then HEADER else SizeWith(FindSize(args, i - 1), args[i - 1])
  }

  lemma FoursAdd(a: nat, b: nat)
    requires a % 4 == 0 && b % 4 == 0
    ensures (a + b) % 4 == 0
  {
  }

  lemma MinIsField(a: Arg)
    ensures MinTypeSize(a.ty) == (if IsVar(a) then 0 else FieldSize(a)) && MinTypeSize(a.ty) % 4 == 0
  {
    FieldRounded(a);
  }

  lemma {:induction false} MinRounded(args: seq<Arg>, i: nat)
    requires i <= |args|
    ensures MinSize(Fields(args), i) % 4 == 0
  {
    if i > 0 {
      MinRounded(args, i - 1);
      MinIsField(args[i - 1]);
      FoursAdd(MinSize(Fields(args), i - 1), DescSize(args[i - 1].long));
      FoursAdd(MinSize(Fields(args), i - 1) + DescSize(args[i - 1].long), MinTypeSize(args[i - 1].ty));
    }
  }

  lemma SizeStep(size: nat, min: nat, a: Arg)
    requires min % 4 == 0 && size >= min
    ensures var next := min + DescSize(a.long) + MinTypeSize(a.ty);
            SizeWith(size, a) >= next && (SizeWith(size, a) == next <==> size == min && !Wide(a))
  {
    assert RoundUp(size) >= size && RoundUp(min) == min;
  }

  /** rtFindSize counts exactly the descriptors and the fixed fields of the declared structure if and only if no
      short descriptor is narrower than its items, and never less. */
  lemma {:induction false} FindSizeExactly(args: seq<Arg>, i: nat)
    requires i <= |args|
    ensures FindSize(args, i) >= MinSize(Fields(args), i)
    ensures FindSize(args, i) == MinSize(Fields(args), i) <==> forall j :: 0 <= j < i ==> !Wide(args[j])
  {
    if i > 0 {
      FindSizeExactly(args, i - 1);
      MinRounded(args, i - 1);
      MinIsField(args[i - 1]);
      SizeStep(FindSize(args, i - 1), MinSize(Fields(args), i - 1), args[i - 1]);
    }
  }

  lemma FindSizeIsMin(args: seq<Arg>)
    requires NoneWide(args)
    ensures FindSize(args, |args|) == MinSize(Fields(args), |args|)
  {
    FindSizeExactly(args, |args|);
  }

  /** The room a value takes, as the sender computes it. */
  function Sent(a: Arg, v: Val): nat
    requires a.ty.elem > 0
  {
    if IsVar(a) then SendSize(a.ty, v.inline, v.count) else FieldSize(a)
  }

  function Piece(a: Arg, v: Val): (r: seq<byte>)
    requires a.ty.elem > 0 && DescOk(DescOf(a, v), a.long)
    ensures |r| == DescSize(a.long) + |v.data|
  {
    Encode(DescOf(a, v), a.long) + v.data
  }

  /** The declared maximum fills the field. */
  lemma WholeArray(t: Ty)
    requires Sound(t)
    ensures Bytes(t.number, t.bits) == ElemSize(t) * MaxCount(t)
  {
    WholeBytes(t.number, t.bits);
    SoundDivides(t);
    var k, w := MaxCount(t), t.bits / 8;
    assert t.number == t.elem * k;
    assert t.number * w == (t.elem * w) * k;
  }

  lemma CountFits(t: Ty, count: nat)
    requires Sound(t)
    ensures ElemSize(t) * count <= Bytes(t.number, t.bits) <==> count <= MaxCount(t)
  {
    WholeArray(t);
    SoundDivides(t);
    MulLess(ElemSize(t), count, MaxCount(t));
  }

  lemma MulLess(e: nat, m: nat, n: nat)
    requires e > 0
    ensures e * m <= e * n <==> m <= n
  {
    if m <= n { MulMono(e, m, n); } else { MulMono(e, n + 1, m); }
  }

  lemma RoundedFits(n: nat, m: nat)
    requires n <= m
    ensures n <= RoundUp(n) <= RoundUp(m) && (n % 4 == 0 ==> RoundUp(n) == n)
  {
  }

  lemma MultipleOfFour(e: nat, count: nat)
    requires e % 4 == 0
    ensures (e * count) % 4 == 0
  {
    assert e * count == 4 * (e / 4 * count);
  }

  /** A value fits its field, and the data fit the room counted for them. */
  lemma SentFits(a: Arg, v: Val)
    requires ArgOk(a) && ValOk(a, v) && !TooLarge(a, v)
    ensures |v.data| <= Sent(a, v) <= FieldSize(a)
  {
    FieldRounded(a);
    SoundDivides(a.ty);
    if IsVar(a) && v.inline {
      CountFits(a.ty, v.count);
      RoundedFits(ElemSize(a.ty) * v.count, TypeSize(a.ty));
      if ElemSize(a.ty) % 4 == 0 { MultipleOfFour(ElemSize(a.ty), v.count); }
    }
  }

  // ---------------------------------------------------------------- the receiver's view of one argument

  /** akbRequestQC: the whole descriptor word is compared at once. */
  predicate QuickCheck(a: Arg) { !a.long && !a.ty.varArray }

  /** WriteCheckDecl. */
  function CheckDesc(a: Arg): Desc { Desc(a.ty.name, a.ty.bits, a.ty.number, a.ty.inLine, !a.ty.inLine) }

  /** WriteTypeCheck. */
  predicate TypeOk(a: Arg, b: seq<byte>)
    requires |b| == DescSize(a.long)
  {
    if QuickCheck(a) then Value(b) == ShortWord(CheckDesc(a), false)
    else
      var d := Decode(b, a.long);
      && (a.ty.indefinite || d.inline == a.ty.inLine) && IsLong(b) == a.long && d.name == a.ty.name
      && (a.ty.varArray || d.number == a.ty.number) && d.bits == a.ty.bits
  }

  /** The size of a variable field as the receiver computes it from its descriptor. */
  function Received(a: Arg, b: seq<byte>): nat
    requires |b| == DescSize(a.long) && a.ty.elem > 0
  {
    ReceiveSize(a.ty, Decode(b, a.long).inline, Decode(b, a.long).number)
  }

  predicate Readable(args: seq<Arg>, i: nat,
                     b: seq<byte>) { i < |args| && |b| == DescSize(args[i].long) && args[i].ty.elem > 0 }

  function ReaderOf(args: seq<Arg>): Reader {
    Reader((i: nat, b: seq<byte>) => Readable(args, i, b) && TypeOk(args[i], b),
           (i: nat, b: seq<byte>) => if Readable(args, i, b) then Received(args[i], b) else 0)
  }

  /** A packed descriptor passes the type check. */
  lemma PackedTypeOk(a: Arg, v: Val)
    requires ArgOk(a) && ValOk(a, v) && !TooLarge(a, v)
    ensures TypeOk(a, Encode(DescOf(a, v), a.long))
  {
    var d := DescOf(a, v);
    if QuickCheck(a) {
      DecodeShortWord(d, false);
      ValueOfWord(ShortWord(d, false));
    } else {
      DescriptorRoundTrip(d, a.long);
    }
  }

  lemma PackedSize(a: Arg, v: Val)
    requires ArgOk(a) && ValOk(a, v) && !TooLarge(a, v) && IsVar(a)
    ensures Received(a, Encode(DescOf(a, v), a.long)) == Sent(a, v)
  {
    DescriptorRoundTrip(DescOf(a, v), a.long);
    SizesAgree(a.ty, v.inline, v.count);
  }

  /** The length of the data the receiver takes. */
  function TakenSize(a: Arg, d: Desc): nat
    requires a.ty.elem > 0
  {
    if !IsVar(a) then TypeSize(a.ty) else if a.ty.indefinite && !d.inline then PTR_BYTES else ItemBytes(a.ty, d.number)
  }

  lemma ReceivesAll(t: Ty, inline: bool, number: nat)
    requires t.elem > 0
    ensures ReceiveSize(t, inline, number) >= if t.indefinite && !inline then PTR_BYTES else ItemBytes(t, number)
  {
    var x := ItemBytes(t, number);
    RoundedFits(x, x);
  }

  function Quotient(a: nat, b: nat): nat
    requires b > 0
  {
    a / b
  }

  function Slice(msg: seq<byte>, off: nat,
                 size: nat): seq<byte> { if off + size <= |msg| then msg[off..off + size] else [] }

  /** WriteExtractArgValue: the count, and the bytes in the message. */
  function Take(a: Arg, msg: seq<byte>, off: nat): Val
    requires a.ty.elem > 0
  {
    var d := Decode(DescBytes(msg, off, DescSize(a.long)), a.long);
    Val(if a.ty.varArray then Quotient(d.number, a.ty.elem) else 0, Slice(msg, off + DescSize(a.long), TakenSize(a, d)),
        d.inline)
  }

  /** The data the receiver takes are as long as those that were sent, and so is the count. */
  lemma TakenAsSent(a: Arg, v: Val)
    requires ArgOk(a) && ValOk(a, v) && !TooLarge(a, v)
    ensures TakenSize(a, DescOf(a, v)) == |v.data|
            && (a.ty.varArray ==> Quotient(DescOf(a, v).number, a.ty.elem) == v.count)
  {
    SoundDivides(a.ty);
    Regroup(a.ty.bits / 8, a.ty.elem, v.count);
    MultipleDiv(a.ty.elem, v.count);
  }

  lemma TakeAsSent(a: Arg, v: Val, msg: seq<byte>, off: nat)
    requires ArgOk(a) && ValOk(a, v) && !TooLarge(a, v) && At(msg, off, Piece(a, v))
    ensures Take(a, msg, off) == v
  {
    var desc := Encode(DescOf(a, v), a.long);
    DescOfPiece(msg, off, Piece(a, v), |desc|);
    assert Piece(a, v)[..|desc|] == desc && Piece(a, v)[|desc|..] == v.data;
    DescriptorRoundTrip(DescOf(a, v), a.long);
    TakenAsSent(a, v);
  }

  // ---------------------------------------------------------------- whole messages

  predicate NoneTooLarge(args: seq<Arg>, vals: seq<Val>, n: nat)
    requires Matches(args, vals) && n <= |args|
  {
    forall i :: 0 <= i < n ==> !TooLarge(args[i], vals[i])
  }

  /** The sizes of the values as the sender computes them. */
  function Sizes(args: seq<Arg>, vals: seq<Val>): (r: seq<nat>)
    requires ArgsOk(args) && |vals| == |args|
    ensures |r| == |args| && forall i :: 0 <= i < |args| ==> args[i].ty.elem > 0 && r[i] == Sent(args[i], vals[i])
  {
    seq(|args|, i requires 0 <= i < |args| => assert ArgOk(args[i]); Sent(args[i], vals[i]))
  }

  /** The pieces of the first `n` arguments. */
  function Pieces(args: seq<Arg>, vals: seq<Val>, n: nat): (r: seq<seq<byte>>)
    requires Matches(args, vals) && n <= |args| && NoneTooLarge(args, vals, n)
    ensures |r| == n && forall i :: 0 <= i < n ==> r[i] == Piece(args[i], vals[i])
  {
    if n == 0 then [] else Pieces(args, vals, n - 1) + [Piece(args[n - 1], vals[n - 1])]
  }

  lemma SizesFit(args: seq<Arg>, vals: seq<Val>, n: nat)
    requires Matches(args, vals) && ArgsOk(args) && n <= |args| && NoneTooLarge(args, vals, n)
    ensures Fit(Fields(args), Sizes(args, vals), n)
    ensures forall i :: 0 <= i < n ==> PieceFits(Fields(args), Sizes(args, vals), i, Piece(args[i], vals[i]))
  {
    forall i | 0 <= i < n
      ensures Sizes(args, vals)[i] <= FieldSize(args[i])
              && PieceFits(Fields(args), Sizes(args, vals), i, Piece(args[i], vals[i]))
    {
      SentFits(args[i], vals[i]);
    }
  }

  /** Every argument is at its place in the message, whose size is rtRequestSize plus the rounded sizes of
      the variable arguments. */
  predicate IsPacked(args: seq<Arg>, vals: seq<Val>, msg: seq<byte>)
    requires Matches(args, vals) && ArgsOk(args) && NoneTooLarge(args, vals, |args|)
  {
    && |msg| == FindSize(args, |args|) + Deltas(Fields(args), Sizes(args, vals), |args|)
    && Carries(Fields(args), Sizes(args, vals), Pieces(args, vals, |args|), msg)
  }

  /** The client's choice for every argument. */
  predicate AsClient(args: seq<Arg>, vals: seq<Val>)
    requires Matches(args, vals)
  {
    forall i :: 0 <= i < |args| ==> vals[i].inline == SentInline(args[i], vals[i].count)
  }

  /** MIG_ARRAY_TOO_LARGE: only a declared maximum can be exceeded. */
  lemma TooLargeExactly(args: seq<Arg>, vals: seq<Val>, i: nat)
    requires Matches(args, vals) && AsClient(args, vals) && i < |args|
    ensures TooLarge(args[i], vals[i]) <==>
            IsVar(args[i]) && !args[i].ty.indefinite && vals[i].count > MaxCount(args[i].ty)
  {
  }

  /** The generated packing code, into room for the largest message.  It fails exactly when an array is
      too large; otherwise every argument is at its place and the size is the minimum size plus the
      rounded sizes of the variable arguments. */
  method Pack(args: seq<Arg>, vals: seq<Val>, room: seq<byte>) returns (r: Option<seq<byte>>)
    requires Matches(args, vals) && AsClient(args, vals) && ArgsOk(args) && NoneWide(args)
    requires |room| == StructOff(Fields(args), |args|)
    ensures r.Some? <==> NoneTooLarge(args, vals, |args|)
    ensures r.Some? ==> IsPacked(args, vals, r.value)
  {
    FindSizeIsMin(args);
    var packed := PackFrom(args, vals, 0, Sender(room, HEADER, 0, FindSize(args, |args|), None));
    if packed.None? {
      return None;
    }
    var msg := PackEnd(args, vals, packed.value);
    r := Some(msg);
  }

  /** The packing code from argument `i` on. */
  method PackFrom(args: seq<Arg>, vals: seq<Val>, i: nat, s: Sender) returns (r: Option<Sender>)
    requires Matches(args, vals) && ArgsOk(args) && i <= |args| && NoneTooLarge(args, vals, i)
    requires Packed(Fields(args), Sizes(args, vals), Pieces(args, vals, i), s)
    ensures r.Some? <==> NoneTooLarge(args, vals, |args|)
    ensures r.Some? ==> Packed(Fields(args), Sizes(args, vals), Pieces(args, vals, |args|), r.value)
    decreases |args| - i
  {
    if i == |args| {
      r := Some(s);
    } else if TooLarge(args[i], vals[i]) {
      r := None;
    } else {
      var next := PackNext(args, vals, i, s);
      r := PackFrom(args, vals, i + 1, next);
    }
  }

  /** One argument of the packing code. */
  method PackNext(args: seq<Arg>, vals: seq<Val>, i: nat, s: Sender) returns (r: Sender)
    requires Matches(args, vals) && ArgsOk(args) && i < |args| && NoneTooLarge(args, vals, i)
             && !TooLarge(args[i], vals[i])
    requires Packed(Fields(args), Sizes(args, vals), Pieces(args, vals, i), s)
    ensures NoneTooLarge(args, vals, i + 1) && Packed(Fields(args), Sizes(args, vals), Pieces(args, vals, i + 1), r)
  {
    assert NoneTooLarge(args, vals, i + 1);
    SizesFit(args, vals, i + 1);
    r := PackOne(Fields(args), Sizes(args, vals), Pieces(args, vals, i), i, s, Piece(args[i], vals[i]));
  }

  method PackEnd(args: seq<Arg>, vals: seq<Val>, s: Sender) returns (msg: seq<byte>)
    requires Matches(args, vals) && ArgsOk(args) && NoneWide(args) && NoneTooLarge(args, vals, |args|)
    requires Packed(Fields(args), Sizes(args, vals), Pieces(args, vals, |args|), s)
    ensures IsPacked(args, vals, msg)
  {
    SizesFit(args, vals, |args|);
    FindSizeIsMin(args);
    msg := Finish(Fields(args), Sizes(args, vals), Pieces(args, vals, |args|), s);
  }

  /** The server's checks in unsigned arithmetic.  Unless a size wraps they accept a request of any content
      exactly when its size is rtRequestSize plus the rounded sizes of its variable fields and its descriptors
      are the expected ones; and its fields are inside an accepted request if and only if none wraps. */
  method CheckRequest(args: seq<Arg>, msg: seq<byte>, mem: nat -> byte) returns (ok: bool)
    requires ArgsOk(args) && NoneWide(args) && |msg| < WORD
    ensures ok == Passes(Fields(args), ReaderOf(args), msg, mem)
    ensures NoWrap(Fields(args), ReaderOf(args), msg) ==> (ok <==> Accepts(Fields(args), ReaderOf(args), msg))
    ensures ok ==> (AllInside(Fields(args), ReaderOf(args), msg) <==> NoWrap(Fields(args), ReaderOf(args), msg))
    ensures ok && NoWrap(Fields(args), ReaderOf(args), msg) ==>
      |msg| == FindSize(args, |args|) + SeenDeltas(Fields(args), ReaderOf(args), msg, |args|)
  {
    FindSizeIsMin(args);
    ok := Check(Fields(args), ReaderOf(args), msg, mem);
  }

  lemma ShortIsSmall(a: Arg, b: seq<byte>)
    requires ArgOk(a) && !a.long && |b| == DescSize(a.long)
    ensures !Wide(a) ==> Received(a, b) < 0x1_0000
  {
    SoundDivides(a.ty);
    var number := Decode(b, a.long).number;
    if !Wide(a) { MulMono(number, Factor(a.ty.bits / 8), 4); }
    assert !Wide(a) ==> ItemBytes(a.ty, number) <= 4 * number;
  }

  /** Short descriptors never make a size wrap. */
  lemma ShortNeverWraps(args: seq<Arg>, msg: seq<byte>)
    requires ArgsOk(args) && NoneWide(args) && FindSize(args, |args|) + 0x1_0000 <= WORD
    requires forall i :: 0 <= i < |args| && IsVar(args[i]) ==> !args[i].long
    ensures NoWrap(Fields(args), ReaderOf(args), msg)
  {
    FindSizeIsMin(args);
    forall i | 0 <= i < |args| ensures SmallAt(Fields(args), ReaderOf(args), msg, i) {
      if IsVar(args[i]) { ShortIsSmall(args[i], SeenDesc(Fields(args), ReaderOf(args), msg, i)); }
    }
  }

  function Extract(args: seq<Arg>, msg: seq<byte>, i: nat): Val
    requires ArgsOk(args) && i < |args|
  {
    assert ArgOk(args[i]);
    Take(args[i], msg, SeenOff(Fields(args), ReaderOf(args), msg, i))
  }

  /** What is extracted from an accepted request, whoever sent it, is inside the message unless a size wrapped. */
  lemma ExtractInside(args: seq<Arg>, msg: seq<byte>, mem: nat -> byte, i: nat)
    requires ArgsOk(args) && i < |args| && |msg| < WORD
    requires Passes(Fields(args), ReaderOf(args), msg, mem) && NoWrap(Fields(args), ReaderOf(args), msg)
    ensures var off := SeenOff(Fields(args), ReaderOf(args), msg, i);
            var d := Decode(DescBytes(msg, off, DescSize(args[i].long)), args[i].long);
            off + DescSize(args[i].long) + TakenSize(args[i], d) <= |msg|
  {
    InsideExactly(Fields(args), ReaderOf(args), msg, mem);
    FieldInside(Fields(args), ReaderOf(args), msg, i);
    var b := SeenDesc(Fields(args), ReaderOf(args), msg, i);
    assert ArgOk(args[i]) && Readable(args, i, b);
    if IsVar(args[i]) { ReceivesAll(args[i].ty, Decode(b, args[i].long).inline, Decode(b, args[i].long).number); }
  }

  /** A long descriptor of the argument's type with any number of items. */
  predicate Claims(a: Arg, d: Desc) {
    a.long && LongOk(d) && d.name == a.ty.name && d.bits == a.ty.bits && d.inline
  }

  lemma ClaimRead(a: Arg, d: Desc)
    requires ArgOk(a) && IsVar(a) && Claims(a, d)
    ensures var b := Encode(d, true);
            Decode(b, true) == d && TypeOk(a, b) && Received(a, b) == ReceiveSize(a.ty, true, d.number)
  {
    DescriptorRoundTrip(d, true);
  }

  /** Whenever the size that a descriptor claims wraps, a message as long as what is left of it passes the
      checks, although the data claimed are not inside it. */
  lemma WrappedSizePasses(a: Arg, d: Desc, msg: seq<byte>, mem: nat -> byte)
    requires ArgOk(a) && IsVar(a) && Claims(a, d) && HEADER + LONG <= |msg| < WORD
    requires msg[HEADER..HEADER + LONG] == Encode(d, true)
    requires var size := ReceiveSize(a.ty, true, d.number);
             HEADER + LONG + size >= WORD && |msg| == Unsigned(HEADER + LONG + Unsigned(size))
    ensures Passes(Fields([a]), ReaderOf([a]), msg, mem)
    ensures !NoWrap(Fields([a]), ReaderOf([a]), msg) && !AllInside(Fields([a]), ReaderOf([a]), msg)
    ensures Extract([a], msg, 0).count == Quotient(d.number, a.ty.elem)
  {
    var fields, reader := Fields([a]), ReaderOf([a]);
    ClaimRead(a, d);
    assert fields == [FieldOf(a)] && Readable([a], 0, Encode(d, true));
    OneFieldPasses(FieldOf(a), reader, msg, mem);
    assert !SmallAt(fields, reader, msg, 0);
    InsideExactly(fields, reader, msg, mem);
  }

  /** Such a message: four bytes of data, and a descriptor that counts 2^30 + 1 items of four bytes. */
  lemma WrappedCount(a: Arg, mem: nat -> byte) returns (msg: seq<byte>)
    requires ArgOk(a) && IsVar(a) && a.long && a.ty.bits == 32 && a.ty.elem == 1 && a.ty.name < 0x1_0000
    ensures |msg| == HEADER + LONG + 4 && Passes(Fields([a]), ReaderOf([a]), msg, mem)
    ensures !AllInside(Fields([a]), ReaderOf([a]), msg) && Extract([a], msg, 0).count == 0x4000_0001
  {
    var d := Desc(a.ty.name, a.ty.bits, 0x4000_0001, true, false);
    msg := seq(HEADER, _ => 0) + Encode(d, true) + seq(4, _ => 0);
    assert msg[HEADER..HEADER + LONG] == Encode(d, true);
    SoundDivides(a.ty);
    assert ReceiveSize(a.ty, true, d.number) == WORD + 4 && Unsigned(WORD + 4) == 4;
    WrappedSizePasses(a, d, msg, mem);
  }

  lemma PieceUnderstood(args: seq<Arg>, vals: seq<Val>, i: nat)
    requires Matches(args, vals) && i < |args| && !TooLarge(args[i], vals[i])
    ensures var desc := Piece(args[i], vals[i])[..DescSize(args[i].long)]; var reader := ReaderOf(args);
            reader.ok(i, desc) && (IsVar(args[i]) ==> reader.size(i, desc) == Sent(args[i], vals[i]))
  {
    assert Piece(args[i], vals[i])[..DescSize(args[i].long)] == Encode(DescOf(args[i], vals[i]), args[i].long);
    PackedTypeOk(args[i], vals[i]);
    if IsVar(args[i]) { PackedSize(args[i], vals[i]); }
  }

  lemma AllUnderstood(args: seq<Arg>, vals: seq<Val>)
    requires Matches(args, vals) && ArgsOk(args) && NoneTooLarge(args, vals, |args|)
    ensures Understands(Fields(args), Sizes(args, vals), Pieces(args, vals, |args|), ReaderOf(args))
  {
    var fields, sizes, pieces, reader := Fields(args), Sizes(args, vals), Pieces(args, vals, |args|), ReaderOf(args);
    forall i | 0 <= i < |args|
      ensures reader.ok(i, pieces[i][..fields[i].desc])
              && (fields[i].variable ==> reader.size(i, pieces[i][..fields[i].desc]) == sizes[i])
    {
      PieceUnderstood(args, vals, i);
    }
  }

  lemma PackedArrivesWhole(args: seq<Arg>, vals: seq<Val>, msg: seq<byte>)
    requires Matches(args, vals) && ArgsOk(args) && NoneWide(args) && NoneTooLarge(args, vals, |args|)
    requires IsPacked(args, vals, msg)
    ensures Accepts(Fields(args), ReaderOf(args), msg)
    ensures forall i :: 0 <= i < |args| ==>
              At(msg, SeenOff(Fields(args), ReaderOf(args), msg, i), Pieces(args, vals, |args|)[i])
  {
    FindSizeIsMin(args);
    AllUnderstood(args, vals);
    PackedIsAccepted(Fields(args), Sizes(args, vals), Pieces(args, vals, |args|), ReaderOf(args), msg);
  }

  /** For every list of arguments and values, a packed request passes all the server's checks without a size
      wrapping, and the values and counts extracted are those that were sent. */
  lemma RoundTrip(args: seq<Arg>, vals: seq<Val>, msg: seq<byte>, mem: nat -> byte, i: nat)
    requires Matches(args, vals) && ArgsOk(args) && NoneWide(args) && NoneTooLarge(args, vals, |args|) && i < |args|
    requires IsPacked(args, vals, msg) && |msg| < WORD
    ensures Passes(Fields(args), ReaderOf(args), msg, mem) && NoWrap(Fields(args), ReaderOf(args), msg)
    ensures Extract(args, msg, i) == vals[i]
  {
    PackedArrivesWhole(args, vals, msg);
    InsideIsSmall(Fields(args), ReaderOf(args), msg);
    PassesExactly(Fields(args), ReaderOf(args), msg, mem);
    TakeAsSent(args[i], vals[i], msg, SeenOff(Fields(args), ReaderOf(args), msg, i));
  }
}
