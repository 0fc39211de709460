/** The stubs MIG generates, in the direction of the reply: the server's packing code (mig/server.c), which has
    no test of its own for arrays that are too large, and the client's code (mig/user.c), which checks and
    extracts one argument after the other, up to the maximum of its caller. */
module MigReplies {

  import opened Arithmetic
  import opened MessageLayout
  import opened MigLayout
  import opened MigStubs
  import opened Options
  import opened Words

  /** sizeof(mig_reply_header_t). */
  const REPLY_HEADER := HEADER + SHORT + 4

  /** The return code is the first argument of every reply. */
  const RET_CODE := Arg(Ty(2, 32, 1, true, false, false, 1, false), false)

  /** Elements have items, so that counts can be divided by them. */
  predicate Countable(args: seq<Arg>) { forall i :: 0 <= i < |args| ==> args[i].ty.elem > 0 }

  predicate ReplyArgs(args: seq<Arg>) {
    ArgsOk(args) && NoneWide(args) && Countable(args) && args != [] && args[0] == RET_CODE
  }

  // ---------------------------------------------------------------- the server's packing code

  /** An array in line fits the field declared for it exactly if its count is within the maximum that the server
      function was given. */
  lemma FitsExactly(a: Arg, v: Val)
    requires ArgOk(a) && ValOk(a, v) && IsVar(a) && v.inline
    ensures |v.data| <= TypeSize(a.ty) <==> !TooLarge(a, v)
  {
    CountFits(a.ty, v.count);
  }

  /** WritePackReplyArgs.  Whether an array of no declared maximum goes out of line is the choice of the server
      function, which also keeps every count within the maximum it was given. */
  method PackReply(args: seq<Arg>, vals: seq<Val>, room: seq<byte>) returns (msg: seq<byte>)
    requires Matches(args, vals) && ReplyArgs(args) && NoneTooLarge(args, vals, |args|)
    requires |room| == StructOff(Fields(args), |args|)
    ensures IsPacked(args, vals, msg)
  {
    FindSizeIsMin(args);
    var s := Sender(room, HEADER, 0, FindSize(args, |args|), None);
    for i := 0 to |args|
      invariant NoneTooLarge(args, vals, i) && Packed(Fields(args), Sizes(args, vals), Pieces(args, vals, i), s)
    {
      s := PackNext(args, vals, i, s);
    }
    msg := PackEnd(args, vals, s);
  }

  // ---------------------------------------------------------------- the client's code

  datatype Return = Success | TypeError | ArrayTooLarge | Error(code: nat)

  /** What the stub returns, and what it has stored for the first arguments by then. */
  datatype Outcome = Outcome(rc: Return, stored: seq<Val>)

  /** More elements than the caller has room for, where there is a declared maximum. */
  predicate TooMany(a: Arg, count: nat, max: nat) { IsVar(a) && !a.ty.indefinite && count > max }

  function CountOf(a: Arg, d: Desc): nat
    requires a.ty.elem > 0
  {
    if a.ty.varArray then Quotient(d.number, a.ty.elem) else 0
  }

  /** The bytes of `number` items, and of `count` elements. */
  function CopyItems(t: Ty, number: nat): nat
    requires t.elem > 0
  {
    Quotient(ElemSize(t), t.elem) * number
  }

  function CopyElements(t: Ty, count: nat): nat { Factor(ElemSize(t)) * count }

  /** The argument has its data in line, and as many of them as its descriptor says. */
  predicate InBody(a: Arg, d: Desc) { IsVar(a) && !(a.ty.indefinite && !d.inline) }

  /** How many bytes WriteExtractArgValue copies: the lengths are computed in unsigned int. */
  function CopySize(a: Arg, d: Desc, max: nat): nat
    requires a.ty.elem > 0
  {
    if !IsVar(a) then TypeSize(a.ty)
    else if a.ty.indefinite && !d.inline then PTR_BYTES
    else if TooMany(a, CountOf(a, d), max) then Unsigned(CopyElements(a.ty, max))
    else Unsigned(CopyItems(a.ty, d.number))
  }

  /** WriteExtractArgValue for the argument whose descriptor is at `at`. */
  function Stored(a: Arg, max: nat, msg: seq<byte>, mem: nat -> byte, at: int): Val
    requires a.ty.elem > 0
  {
    var d := Decode(Fetch(msg, mem, at, DescSize(a.long)), a.long);
    Val(CountOf(a, d), Fetch(msg, mem, at + DescSize(a.long), CopySize(a, d, max)), d.inline)
  }

  function RetValue(v: Val): nat { if |v.data| == 4 then Value(v.data) else 0 }

  /** WriteExtractArg: a return code other than KERN_SUCCESS, and an array that is too large, end the stub. */
  function TakerOf(args: seq<Arg>, maxima: seq<nat>, msg: seq<byte>, mem: nat -> byte): Taker<Val>
    requires |maxima| == |args|
  {
    Taker((i: nat, at: int) =>
            if i < |args| && args[i].ty.elem > 0 then Stored(args[i], maxima[i], msg, mem, at) else Val(0, [], false),
          (i: nat, v: Val) => i < |args| && ((i == 0 && RetValue(v) != 0) || TooMany(args[i], v.count, maxima[i])))
  }

  /** WriteCheckIdentity: a message of the wrong size is let through only as an error reply. */
  predicate IsError(msg: seq<byte>, mem: nat -> byte) {
    |msg| == REPLY_HEADER && Value(Fetch(msg, mem, HEADER + SHORT, 4)) != 0
  }

  function OutcomeOf(r: Taking<Val>): Outcome {
    match r
    case Done(vals) => Outcome(Success, vals)
    case Stopped(vals) => if |vals| == 1 then Outcome(Error(RetValue(vals[0])), []) else Outcome(ArrayTooLarge, vals)
    case Refused(vals) => Outcome(TypeError, vals)
  }

  function Reply(args: seq<Arg>, maxima: seq<nat>, msg: seq<byte>, mem: nat -> byte): Outcome
    requires ReplyArgs(args) && |maxima| == |args|
  {
    if !HeadOk(Fields(args), |msg|) && !IsError(msg, mem) then Outcome(TypeError, [])
    else
      OutcomeOf(TakeFrom(Fields(args), ReaderOf(args), TakerOf(args, maxima, msg, mem), msg, mem, 0, AtStart(msg), []))
  }

  // ---------------------------------------------------------------- whoever sent the reply

  lemma ClampedBytes(w: nat, elem: nat, number: nat, max: nat)
    requires elem > 0 && Quotient(number, elem) > max
    ensures (elem * w) * max <= w * number
  {
    var n := Quotient(number, elem);
    Recombine(number, elem);
    MulMono(elem * w, max, n);
    MulMono(w, elem * n, number);
    assert (elem * w) * n == w * (elem * n);
  }

  lemma CopyInside(a: Arg, d: Desc, max: nat)
    requires ArgOk(a)
    ensures CopySize(a, d, max) <= if IsVar(a) then ReceiveSize(a.ty, d.inline, d.number) else FieldSize(a)
  {
    if !IsVar(a) {
      FieldRounded(a);
    } else {
      SoundDivides(a.ty);
      ReceivesAll(a.ty, d.inline, d.number);
      UnsignedLess(CopyElements(a.ty, max));
      UnsignedLess(CopyItems(a.ty, d.number));
      if TooMany(a, CountOf(a, d), max) { ClampedBytes(a.ty.bits / 8, a.ty.elem, d.number, max); }
    }
  }

  lemma UnsignedLess(x: nat)
    ensures Unsigned(x) <= x
  {
    Recombine(x, WORD);
  }

  /** The value stored for argument `j` is that of its field, every byte of it from inside the message. */
  predicate StoredWell(args: seq<Arg>, maxima: seq<nat>, msg: seq<byte>, mem: nat -> byte, j: nat, v: Val)
    requires Countable(args) && |maxima| == |args| && j < |args|
  {
    var at := SeenOff(Fields(args), ReaderOf(args), msg, j);
    v == Stored(args[j], maxima[j], msg, mem, at) && at + DescSize(args[j].long) + |v.data| <= |msg|
  }

  lemma TakerValue(args: seq<Arg>, maxima: seq<nat>, msg: seq<byte>, mem: nat -> byte, j: nat, at: int)
    requires |maxima| == |args| && j < |args| && args[j].ty.elem > 0
    ensures TakerOf(args, maxima, msg, mem).value(j, at) == Stored(args[j], maxima[j], msg, mem, at)
  {
  }

  /** What is stored of an argument whose descriptor is inside the message. */
  lemma StoredParts(a: Arg, max: nat, msg: seq<byte>, mem: nat -> byte, at: nat)
    requires a.ty.elem > 0 && at + DescSize(a.long) <= |msg| < WORD
    ensures var d, v := Decode(msg[at..at + DescSize(a.long)], a.long), Stored(a, max, msg, mem, at);
            v.count == CountOf(a, d) && |v.data| == CopySize(a, d, max) && v.inline == d.inline
  {
    FetchInside(msg, mem, at, DescSize(a.long));
  }

  lemma StoredInside(a: Arg, max: nat, msg: seq<byte>, mem: nat -> byte, at: nat)
    requires ArgOk(a) && at + DescSize(a.long) <= |msg| < WORD
    requires var d := Decode(msg[at..at + DescSize(a.long)], a.long);
             at + DescSize(a.long) + (if IsVar(a) then ReceiveSize(a.ty, d.inline, d.number) else FieldSize(a)) <= |msg|
    ensures at + DescSize(a.long) + |Stored(a, max, msg, mem, at).data| <= |msg|
  {
    StoredParts(a, max, msg, mem, at);
    CopyInside(a, Decode(msg[at..at + DescSize(a.long)], a.long), max);
  }

  lemma FieldHolds(args: seq<Arg>, msg: seq<byte>, j: nat)
    requires Countable(args) && j < |args|
    ensures SizeAt(Fields(args), ReaderOf(args), msg, j)
         == if IsVar(args[j]) then Received(args[j], SeenDesc(Fields(args), ReaderOf(args), msg, j))
            else FieldSize(args[j])
  {
    assert Readable(args, j, SeenDesc(Fields(args), ReaderOf(args), msg, j));
  }

  lemma TakenIsStored(args: seq<Arg>, maxima: seq<nat>, msg: seq<byte>, mem: nat -> byte, j: nat, v: Val)
    requires Countable(args) && |maxima| == |args| && j < |args| && |msg| < WORD && ArgOk(args[j])
    requires v == TakerOf(args, maxima, msg, mem).value(j, SeenOff(Fields(args), ReaderOf(args), msg, j))
    requires SeenOff(Fields(args), ReaderOf(args), msg, j) + DescSize(args[j].long)
             + SizeAt(Fields(args), ReaderOf(args), msg, j) <= |msg|
    ensures StoredWell(args, maxima, msg, mem, j, v)
  {
    var at := SeenOff(Fields(args), ReaderOf(args), msg, j);
    FieldHolds(args, msg, j);
    TakerValue(args, maxima, msg, mem, j, at);
    StoredInside(args[j], maxima[j], msg, mem, at);
  }

  /** As long as no size wraps: what has been stored was inside the message; success means an acceptable message; and
      when a check fails, exactly the arguments before it have been stored. */
  lemma UnwrappedReply(args: seq<Arg>, maxima: seq<nat>, msg: seq<byte>, mem: nat -> byte)
    requires ReplyArgs(args) && |maxima| == |args| && HeadOk(Fields(args), |msg|) && |msg| < WORD
    requires NoWrap(Fields(args), ReaderOf(args), msg)
    ensures var r := Reply(args, maxima, msg, mem);
            && |r.stored| <= |args|
            && (forall j :: 0 <= j < |r.stored| ==> StoredWell(args, maxima, msg, mem, j, r.stored[j]))
            && (r.rc.Success? ==> |r.stored| == |args| && Accepts(Fields(args), ReaderOf(args), msg))
            && (r.rc.TypeError? ==>
                  && |r.stored| < |args| && !FieldFine(Fields(args), ReaderOf(args), msg, |r.stored|)
                  && !Accepts(Fields(args), ReaderOf(args), msg))
  {
    var taker := TakerOf(args, maxima, msg, mem);
    TakesExactly(Fields(args), ReaderOf(args), taker, msg, mem);
    var t := TakeFrom(Fields(args), ReaderOf(args), taker, msg, mem, 0, AtStart(msg), []);
    forall j | 0 <= j < |t.vals| ensures StoredWell(args, maxima, msg, mem, j, t.vals[j]) {
      assert ArgOk(args[j]) && TakenAt(Fields(args), ReaderOf(args), taker, msg, j, t.vals[j]);
      TakenIsStored(args, maxima, msg, mem, j, t.vals[j]);
    }
  }

  // ---------------------------------------------------------------- whatever wraps

  const HALF := 0x8000_0000

  /** The receiver with the sizes as the code has them. */
  function Client(args: seq<Arg>): Reader { Wrapped(ReaderOf(args)) }

  function PlaceOf(args: seq<Arg>, msg: seq<byte>, j: nat): nat
    requires j < |args|
  {
    SeenOff(Fields(args), Client(args), msg, j)
  }

  function DescAt(args: seq<Arg>, msg: seq<byte>, j: nat): Desc
    requires j < |args|
  {
    Decode(SeenDesc(Fields(args), Client(args), msg, j), args[j].long)
  }

  /** The value stored for argument `j` is that of its field. */
  predicate StoredAt(args: seq<Arg>, maxima: seq<nat>, msg: seq<byte>, mem: nat -> byte, j: nat, v: Val)
    requires Countable(args) && |maxima| == |args| && j < |args|
  {
    && v == Stored(args[j], maxima[j], msg, mem, PlaceOf(args, msg, j))
    && v.count == CountOf(args[j], DescAt(args, msg, j))
    && |v.data| == CopySize(args[j], DescAt(args, msg, j), maxima[j])
  }

  /** Every byte of it is from inside the message. */
  predicate InsideAt(args: seq<Arg>, msg: seq<byte>, j: nat, v: Val)
    requires j < |args|
  {
    PlaceOf(args, msg, j) + DescSize(args[j].long) + |v.data| <= |msg|
  }

  /** What descriptor and maximum must satisfy: the length to be copied, as an unsigned int, is below 2^31; or, if the
      array is cut down to the caller's maximum, the maximum is no more than the rest of the message holds. */
  predicate Good(args: seq<Arg>, maxima: seq<nat>, msg: seq<byte>, j: nat)
    requires Countable(args) && |maxima| == |args| && j < |args|
  {
    var a, d := args[j], DescAt(args, msg, j);
    if !InBody(a, d) then true
    else if TooMany(a, CountOf(a, d), maxima[j]) then
      PlaceOf(args, msg, j) + DescSize(a.long) + Unsigned(CopyElements(a.ty, maxima[j])) <= |msg|
    else Unsigned(CopyItems(a.ty, d.number)) < HALF
  }

  /** The count in the descriptor is that of the bytes to be copied: whole elements, and a length that does not wrap. */
  predicate Honest(a: Arg, d: Desc, max: nat)
    requires a.ty.elem > 0
  {
    !TooMany(a, CountOf(a, d), max) && d.number % a.ty.elem == 0 && CopyItems(a.ty, d.number) < WORD
  }

  lemma RoundsUp(x: nat)
    ensures x <= RoundUp(x) <= x + 3 && (x % 4 == 0 ==> RoundUp(x) == x)
    ensures Unsigned(x) < HALF ==> Unsigned(x) <= Unsigned(RoundUp(x)) <= Unsigned(x) + 3
  {
    var q, r := x / WORD, x % WORD;
    Recombine(x, WORD);
    DivUnique(x + 3, 4, q * 0x4000_0000 + (r + 3) / 4, (r + 3) % 4);
    assert RoundUp(x) == q * WORD + RoundUp(r);
    if r < HALF { DivUnique(RoundUp(x), WORD, q, RoundUp(r)); }
  }

  /** The size that has been checked, against the length that is copied. */
  lemma CheckedSize(a: Arg, d: Desc)
    requires ArgOk(a) && InBody(a, d)
    ensures var x, size := CopyItems(a.ty, d.number), ReceiveSize(a.ty, d.inline, d.number);
            Unsigned(x) < HALF ==> Unsigned(x) <= Unsigned(size) <= Unsigned(x) + 3
  {
    SoundDivides(a.ty);
    RoundsUp(CopyItems(a.ty, d.number));
  }

  lemma PointerSize(a: Arg, d: Desc, max: nat)
    requires ArgOk(a) && IsVar(a) && !InBody(a, d)
    ensures ReceiveSize(a.ty, d.inline, d.number) == Unsigned(PTR_BYTES) == PTR_BYTES == CopySize(a, d, max)
  {
  }

  lemma StoredThere(args: seq<Arg>, maxima: seq<nat>, msg: seq<byte>, mem: nat -> byte, j: nat, v: Val)
    requires Countable(args) && |maxima| == |args| && j < |args| && |msg| < WORD
    requires SmallTo(Fields(args), Client(args), msg, j)
    requires Located(Fields(args), Client(args), TakerOf(args, maxima, msg, mem), msg, j, v)
    ensures StoredAt(args, maxima, msg, mem, j, v)
  {
    TakerValue(args, maxima, msg, mem, j, PlaceOf(args, msg, j));
    StoredParts(args[j], maxima[j], msg, mem, PlaceOf(args, msg, j));
  }

  /** The size the code has for the field. */
  function CheckedAt(args: seq<Arg>, msg: seq<byte>, j: nat): nat
    requires Countable(args) && j < |args| && IsVar(args[j])
  {
    var d := DescAt(args, msg, j); Unsigned(ReceiveSize(args[j].ty, d.inline, d.number))
  }

  lemma SmallIfBelow(args: seq<Arg>, msg: seq<byte>, j: nat)
    requires Countable(args) && j < |args| && IsVar(args[j]) && HeadOk(Fields(args), |msg|)
    requires |msg| + CheckedAt(args, msg, j) < WORD
    ensures SmallAt(Fields(args), Client(args), msg, j)
  {
    assert Readable(args, j, SeenDesc(Fields(args), Client(args), msg, j));
    MinWithin(args, msg);
  }

  lemma FieldWithin(args: seq<Arg>, maxima: seq<nat>, msg: seq<byte>, mem: nat -> byte, j: nat, v: Val)
    requires Countable(args) && |maxima| == |args| && j < |args|
    requires TakenAt(Fields(args), Client(args), TakerOf(args, maxima, msg, mem), msg, j, v)
    ensures PlaceOf(args, msg, j) + DescSize(args[j].long)
            + (if IsVar(args[j]) then CheckedAt(args, msg, j) else FieldSize(args[j])) <= |msg|
  {
    assert Readable(args, j, SeenDesc(Fields(args), Client(args), msg, j));
  }

  /** For an argument found where its field is: what is copied is inside the message exactly if descriptor and maximum
      are good, and the pointer is then where the next field is. */
  lemma GoodExactly(args: seq<Arg>, maxima: seq<nat>, msg: seq<byte>, mem: nat -> byte, j: nat, v: Val)
    requires Countable(args) && |maxima| == |args| && j < |args| && ArgOk(args[j])
    requires HeadOk(Fields(args), |msg|) && |msg| + 3 <= HALF && SmallTo(Fields(args), Client(args), msg, j)
    requires Located(Fields(args), Client(args), TakerOf(args, maxima, msg, mem), msg, j, v)
    requires StoredAt(args, maxima, msg, mem, j, v)
    ensures InsideAt(args, msg, j, v) <==> Good(args, maxima, msg, j)
    ensures Good(args, maxima, msg, j) && !TooMany(args[j], v.count, maxima[j])
            ==> SmallAt(Fields(args), Client(args), msg, j)
  {
    var a, d := args[j], DescAt(args, msg, j);
    if !IsVar(a) {
      FieldWithin(args, maxima, msg, mem, j, v);
      CopyInside(a, d, maxima[j]);
    } else if !InBody(a, d) {
      PointerSize(a, d, maxima[j]);
      SmallIfBelow(args, msg, j);
      FieldWithin(args, maxima, msg, mem, j, v);
    } else if !TooMany(a, CountOf(a, d), maxima[j]) && Unsigned(CopyItems(a.ty, d.number)) < HALF {
      CheckedSize(a, d);
      SmallIfBelow(args, msg, j);
      FieldWithin(args, maxima, msg, mem, j, v);
    }
  }

  lemma MinWithin(args: seq<Arg>, msg: seq<byte>)
    requires HeadOk(Fields(args), |msg|)
    ensures MinSize(Fields(args), |args|) <= |msg|
  {
  }

  /** The count stored is that of the bytes stored exactly if the descriptor is honest. */
  lemma CountExactly(a: Arg, d: Desc, max: nat)
    requires ArgOk(a) && InBody(a, d) && ElemSize(a.ty) <= WORD
    ensures CopySize(a, d, max) == ElemSize(a.ty) * CountOf(a, d) <==> Honest(a, d, max)
  {
    var e, w, n, c := a.ty.elem, a.ty.bits / 8, d.number, CountOf(a, d);
    SoundDivides(a.ty);
    if TooMany(a, c, max) {
      UnsignedLess(CopyElements(a.ty, max));
      MoreElements(ElemSize(a.ty), max, c);
    } else {
      WholeElements(w, e, n, c);
      Leftover(w, e, n % e, w * n);
    }
  }

  lemma MoreElements(size: nat, max: nat, count: nat)
    requires size > 0 && count > max
    ensures size * count > size * max
  {
    MulMono(size, max + 1, count);
    assert size * (max + 1) == size * max + size;
  }

  /** The items of the whole elements, and the rest. */
  lemma WholeElements(w: nat, e: nat, n: nat, c: nat)
    requires e > 0 && c == Quotient(n, e)
    ensures w * n == (e * w) * c + w * (n % e)
  {
    Recombine(n, e);
    assert w * n == w * (c * e + n % e) == w * (c * e) + w * (n % e);
    assert w * (c * e) == (e * w) * c;
  }

  lemma Leftover(w: nat, e: nat, rest: nat, x: nat)
    requires w > 0 && rest < e && e * w <= WORD && w * rest <= x
    ensures x - w * rest == Unsigned(x) <==> rest == 0 && x < WORD
  {
    Recombine(x, WORD);
    assert w * (rest + 1) == w * rest + w && w * e == e * w;
    MulMono(w, rest + 1, e);
    if rest > 0 { MulAtLeast(rest, w); }
  }

  /** What is known of every argument stored, as long as all before it were good: it is that of its field; its bytes
      are from inside the message if and only if it is good itself; and its count is theirs if and only if its
      descriptor is honest. */
  predicate Exact(args: seq<Arg>, maxima: seq<nat>, msg: seq<byte>, mem: nat -> byte, stored: seq<Val>, j: nat)
    requires Countable(args) && |maxima| == |args| && j < |stored| <= |args|
  {
    var a, d, v := args[j], DescAt(args, msg, j), stored[j];
    GoodTo(args, maxima, msg, j) ==>
      && StoredAt(args, maxima, msg, mem, j, v) && (InsideAt(args, msg, j, v) <==> Good(args, maxima, msg, j))
      && (InBody(a, d) && ElemSize(a.ty) <= WORD ==>
            (|v.data| == ElemSize(a.ty) * v.count <==> Honest(a, d, maxima[j])))
  }

  predicate GoodTo(args: seq<Arg>, maxima: seq<nat>, msg: seq<byte>, n: nat)
    requires Countable(args) && |maxima| == |args| && n <= |args|
  {
    forall j :: 0 <= j < n ==> Good(args, maxima, msg, j)
  }

  predicate InsideTo(args: seq<Arg>, msg: seq<byte>, stored: seq<Val>, n: nat)
    requires n <= |stored| <= |args|
  {
    forall j :: 0 <= j < n ==> InsideAt(args, msg, j, stored[j])
  }

  lemma ExactOne(args: seq<Arg>, maxima: seq<nat>, msg: seq<byte>, mem: nat -> byte, vals: seq<Val>, j: nat)
    requires Countable(args) && |maxima| == |args| && HeadOk(Fields(args), |msg|) && |msg| + 3 <= HALF
    requires AllLocated(Fields(args), Client(args), TakerOf(args, maxima, msg, mem), msg, vals) && j < |vals|
    requires ArgOk(args[j])
    requires SmallTo(Fields(args), Client(args), msg, j)
    ensures Exact(args, maxima, msg, mem, vals, j)
    ensures Good(args, maxima, msg, j) && !TooMany(args[j], vals[j].count, maxima[j])
            ==> SmallAt(Fields(args), Client(args), msg, j)
  {
    assert Located(Fields(args), Client(args), TakerOf(args, maxima, msg, mem), msg, j, vals[j]);
    StoredThere(args, maxima, msg, mem, j, vals[j]);
    GoodExactly(args, maxima, msg, mem, j, vals[j]);
    var d := DescAt(args, msg, j);
    if InBody(args[j], d) && ElemSize(args[j].ty) <= WORD { CountExactly(args[j], d, maxima[j]); }
  }

  /** Good arguments do not make the pointer stray. */
  lemma GoodIsSmall(args: seq<Arg>, maxima: seq<nat>, msg: seq<byte>, mem: nat -> byte, vals: seq<Val>, n: nat)
    requires ReplyArgs(args) && |maxima| == |args| && HeadOk(Fields(args), |msg|) && |msg| + 3 <= HALF
    requires AllLocated(Fields(args), Client(args), TakerOf(args, maxima, msg, mem), msg, vals) && n <= |vals|
    requires NoneStops(TakerOf(args, maxima, msg, mem), vals, n) && GoodTo(args, maxima, msg, n)
    ensures SmallTo(Fields(args), Client(args), msg, n)
  {
    forall j | 0 <= j < n && SmallTo(Fields(args), Client(args), msg, j)
      ensures SmallAt(Fields(args), Client(args), msg, j)
    {
      assert ArgOk(args[j]);
      ExactOne(args, maxima, msg, mem, vals, j);
      assert Good(args, maxima, msg, j) && !TakerOf(args, maxima, msg, mem).stop(j, vals[j]);
    }
    SmallChain(Fields(args), Client(args), msg, n);
  }

  lemma {:induction false} SmallChain(fields: seq<Field>, reader: Reader, msg: seq<byte>, n: nat)
    requires n <= |fields|
    requires forall j :: 0 <= j < n && SmallTo(fields, reader, msg, j) ==> SmallAt(fields, reader, msg, j)
    ensures SmallTo(fields, reader, msg, n)
  {
    if n > 0 { SmallChain(fields, reader, msg, n - 1); }
  }

  /** The answers for argument `j` agree as long as all before it are good. */
  predicate Agrees(args: seq<Arg>, maxima: seq<nat>, msg: seq<byte>, stored: seq<Val>, j: nat)
    requires Countable(args) && |maxima| == |args| && j < |stored| <= |args|
  {
    GoodTo(args, maxima, msg, j) ==> (InsideAt(args, msg, j, stored[j]) <==> Good(args, maxima, msg, j))
  }

  /** Two tests that agree up to and including the first no. */
  lemma {:induction false} AgreeOnAll(p: nat -> bool, q: nat -> bool, n: nat)
    requires forall j: nat :: j < n && (forall k: nat :: k < j ==> q(k)) ==> (p(j) <==> q(j))
    ensures (forall j: nat :: j < n ==> p(j)) <==> forall j: nat :: j < n ==> q(j)
  {
    if n > 0 { AgreeOnAll(p, q, n - 1); }
  }

  lemma AllGood(args: seq<Arg>, maxima: seq<nat>, msg: seq<byte>, q: nat -> bool, n: nat, j: nat)
    requires Countable(args) && |maxima| == |args| && j <= n <= |args|
    requires forall k: nat :: k < n ==> (q(k) <==> Good(args, maxima, msg, k))
    ensures GoodTo(args, maxima, msg, j) <==> forall k: nat :: k < j ==> q(k)
  {
  }

  lemma AllInside(args: seq<Arg>, msg: seq<byte>, stored: seq<Val>, p: nat -> bool)
    requires |stored| <= |args|
    requires forall k: nat :: k < |stored| ==> (p(k) <==> InsideAt(args, msg, k, stored[k]))
    ensures InsideTo(args, msg, stored, |stored|) <==> forall k: nat :: k < |stored| ==> p(k)
  {
  }

  lemma AllInsideExactly(args: seq<Arg>, maxima: seq<nat>, msg: seq<byte>, stored: seq<Val>)
    requires Countable(args) && |maxima| == |args| && |stored| <= |args|
    requires forall j :: 0 <= j < |stored| ==> Agrees(args, maxima, msg, stored, j)
    ensures InsideTo(args, msg, stored, |stored|) <==> GoodTo(args, maxima, msg, |stored|)
  {
    var n := |stored|;
    var p := (j: nat) => j < n && InsideAt(args, msg, j, stored[j]);
    var q := (j: nat) => j < n && Good(args, maxima, msg, j);
    forall j: nat | j < n && forall k: nat :: k < j ==> q(k) ensures p(j) <==> q(j) {
      AllGood(args, maxima, msg, q, n, j);
      assert Agrees(args, maxima, msg, stored, j);
    }
    AgreeOnAll(p, q, n);
    AllGood(args, maxima, msg, q, n, n);
    AllInside(args, msg, stored, p);
  }

  /** What the client has done with a reply, whoever sent it and whatever wraps. */
  predicate Accounted(args: seq<Arg>, maxima: seq<nat>, msg: seq<byte>, mem: nat -> byte, r: Outcome)
    requires ReplyArgs(args) && |maxima| == |args|
  {
    && |r.stored| <= |args| && (forall j :: 0 <= j < |r.stored| ==> Exact(args, maxima, msg, mem, r.stored, j))
    && (InsideTo(args, msg, r.stored, |r.stored|) <==> GoodTo(args, maxima, msg, |r.stored|))
    && (r.rc.Success? ==> |r.stored| == |args|)
    && (GoodTo(args, maxima, msg, |r.stored|) && HeadOk(Fields(args), |msg|) ==>
          && (r.rc.Success? ==> Accepts(Fields(args), Client(args), msg))
          && (r.rc.TypeError? ==> |r.stored| < |args| && !Accepts(Fields(args), Client(args), msg)))
  }

  lemma TakenAccounted(args: seq<Arg>, maxima: seq<nat>, msg: seq<byte>, mem: nat -> byte, t: Taking<Val>)
    requires ReplyArgs(args) && |maxima| == |args| && HeadOk(Fields(args), |msg|) && |msg| + 3 <= HALF
    requires AllLocated(Fields(args), Client(args), TakerOf(args, maxima, msg, mem), msg, t.vals)
    requires EndsWell(Fields(args), Client(args), TakerOf(args, maxima, msg, mem), msg, t)
    ensures forall j :: 0 <= j < |t.vals| ==> Exact(args, maxima, msg, mem, t.vals, j)
    ensures !t.Stopped? && GoodTo(args, maxima, msg, |t.vals|) ==> SmallTo(Fields(args), Client(args), msg, |t.vals|)
  {
    var taker := TakerOf(args, maxima, msg, mem);
    forall j | 0 <= j < |t.vals| ensures Exact(args, maxima, msg, mem, t.vals, j) {
      if GoodTo(args, maxima, msg, j) {
        assert NoneStops(taker, t.vals, j);
        GoodIsSmall(args, maxima, msg, mem, t.vals, j);
        assert ArgOk(args[j]);
        ExactOne(args, maxima, msg, mem, t.vals, j);
      }
    }
    if !t.Stopped? && GoodTo(args, maxima, msg, |t.vals|) { GoodIsSmall(args, maxima, msg, mem, t.vals, |t.vals|); }
  }

  /** For every reply that the receiver's structure can hold and all maxima of the caller, whatever sizes wrap: the
      bytes stored were inside the message if and only if every argument stored is good. */
  lemma AnyReply(args: seq<Arg>, maxima: seq<nat>, msg: seq<byte>, mem: nat -> byte)
    requires ReplyArgs(args) && |maxima| == |args| && |msg| + 3 <= HALF
    ensures Accounted(args, maxima, msg, mem, Reply(args, maxima, msg, mem))
  {
    var r := Reply(args, maxima, msg, mem);
    if HeadOk(Fields(args), |msg|) {
      var taker := TakerOf(args, maxima, msg, mem);
      TakesLocated(Fields(args), ReaderOf(args), taker, msg, mem);
      var t := TakeFrom(Fields(args), ReaderOf(args), taker, msg, mem, 0, AtStart(msg), []);
      TakenAccounted(args, maxima, msg, mem, t);
      forall j | 0 <= j < |r.stored| ensures Agrees(args, maxima, msg, r.stored, j) {
        assert Exact(args, maxima, msg, mem, r.stored, j);
      }
      AllInsideExactly(args, maxima, msg, r.stored);
    } else {
      TruncatedReply(args, maxima, msg, mem);
    }
  }

  /** A reply of the wrong size, let through only as an error reply, leaves nothing stored. */
  lemma TruncatedReply(args: seq<Arg>, maxima: seq<nat>, msg: seq<byte>, mem: nat -> byte)
    requires ReplyArgs(args) && |maxima| == |args| && !HeadOk(Fields(args), |msg|)
    ensures var r := Reply(args, maxima, msg, mem); r.stored == [] && !r.rc.Success?
  {
    if IsError(msg, mem) {
      var taker := TakerOf(args, maxima, msg, mem);
      var next := CheckOne(Fields(args), ReaderOf(args), msg, mem, 0, AtStart(msg));
      if next.Some? {
        var v := taker.value(0, next.value.inP + HEADER);
        assert next.value.inP == 0 && v.data == Fetch(msg, mem, HEADER + SHORT, 4);
        assert taker.stop(0, v);
      }
    }
  }

  /** The client's code for a reply, argument by argument. */
  method TakeReply(args: seq<Arg>, maxima: seq<nat>, msg: seq<byte>, mem: nat -> byte) returns (r: Outcome)
    requires ReplyArgs(args) && |maxima| == |args| && |msg| + 3 <= HALF
    ensures r == Reply(args, maxima, msg, mem) && Accounted(args, maxima, msg, mem, r)
  {
    AnyReply(args, maxima, msg, mem);
    if !HeadOk(Fields(args), |msg|) && !IsError(msg, mem) {
      return Outcome(TypeError, []);
    }
    var t := TakeFields(Fields(args), ReaderOf(args), TakerOf(args, maxima, msg, mem), msg, mem);
    r := OutcomeOf(t);
  }

  // ---------------------------------------------------------------- replies in which a size wraps

  /** A reply of a return code of success and one array, with a long descriptor. */
  predicate IsPair(a: Arg, d: Desc, msg: seq<byte>) {
    && ArgOk(a) && IsVar(a) && Claims(a, d) && REPLY_HEADER + LONG <= |msg| && |msg| + 3 <= HALF
    && msg[HEADER..REPLY_HEADER] == Piece(RET_CODE, Val(0, Word(0), true))
    && msg[REPLY_HEADER..REPLY_HEADER + LONG] == Encode(d, true)
  }

  const ZERO := Val(0, Word(0), true)

  lemma FirstStored(a: Arg, d: Desc, msg: seq<byte>, mem: nat -> byte)
    requires IsPair(a, d, msg)
    ensures Stored(RET_CODE, 0, msg, mem, HEADER) == ZERO && RetValue(ZERO) == 0
    ensures Fetch(msg, mem, HEADER, SHORT) == Encode(DescOf(RET_CODE, ZERO), false)
  {
    var piece := Piece(RET_CODE, ZERO);
    assert At(msg, HEADER, piece);
    DescOfPiece(msg, HEADER, piece, SHORT);
    assert piece[..SHORT] == Encode(DescOf(RET_CODE, ZERO), false);
    FetchInside(msg, mem, HEADER, SHORT);
    StoredAsSent(RET_CODE, ZERO, 0, msg, mem, HEADER);
    ValueOfWord(0);
  }

  lemma FirstOfPair(a: Arg, d: Desc, msg: seq<byte>, mem: nat -> byte)
    requires IsPair(a, d, msg)
    ensures CheckOne(Fields([RET_CODE, a]), ReaderOf([RET_CODE, a]), msg, mem, 0, AtStart(msg))
         == Some(Receiver(0, |msg|, REPLY_HEADER, 0, false))
    ensures Stored(RET_CODE, 0, msg, mem, HEADER) == ZERO && RetValue(ZERO) == 0
  {
    FirstStored(a, d, msg, mem);
    PackedTypeOk(RET_CODE, ZERO);
    assert Readable([RET_CODE, a], 0, Encode(DescOf(RET_CODE, ZERO), false)) && FieldSize(RET_CODE) == 4;
  }

  lemma PairSizes(a: Arg)
    requires ArgOk(a) && IsVar(a) && a.long
    ensures var fields := Fields([RET_CODE, a]);
            && MinSize(fields, 2) == REPLY_HEADER + LONG && NumVar(fields) == 1 && LastVar(fields, 1)
            && StructOff(fields, 1) == REPLY_HEADER && Pos(fields, 0) == Pos(fields, 1) == 0
  {
    var fields := Fields([RET_CODE, a]);
    assert fields[0] == Field(SHORT, 4, false) && fields[1].variable && fields[1].desc == LONG;
    assert MinSize(fields, 1) == REPLY_HEADER && StructOff(fields, 1) == REPLY_HEADER;
    assert Pos(fields, 1) == 0 && Pos(fields, 2) == 1;
  }

  lemma PairRead(a: Arg, d: Desc, msg: seq<byte>, mem: nat -> byte)
    requires IsPair(a, d, msg)
    ensures var reader, b := ReaderOf([RET_CODE, a]), Fetch(msg, mem, REPLY_HEADER, LONG);
            reader.ok(1, b) && reader.size(1, b) == ReceiveSize(a.ty, true, d.number)
  {
    ClaimRead(a, d);
    FetchInside(msg, mem, REPLY_HEADER, LONG);
    assert Readable([RET_CODE, a], 1, Encode(d, true));
  }

  lemma SecondOfPair(a: Arg, d: Desc, msg: seq<byte>, mem: nat -> byte)
    requires IsPair(a, d, msg)
    requires |msg| == Unsigned(REPLY_HEADER + LONG + Unsigned(ReceiveSize(a.ty, true, d.number)))
    ensures var args, s := [RET_CODE, a], Receiver(0, |msg|, REPLY_HEADER, 0, false);
            var next := CheckOne(Fields(args), ReaderOf(args), msg, mem, 1, s);
            next.Some? && next.value.inP == 0
  {
    var args, s := [RET_CODE, a], Receiver(0, |msg|, REPLY_HEADER, 0, false);
    PairSizes(a);
    PairRead(a, d, msg, mem);
    assert Advance(Fields(args), 1, s) == 0;
  }

  /** What the client makes of such a reply if its size is what is left of the size claimed: the count claimed, and as
      many bytes as are left of it, or as its caller has room for. */
  lemma WrappedReply(a: Arg, d: Desc, max: nat, msg: seq<byte>, mem: nat -> byte)
    requires IsPair(a, d, msg)
    requires |msg| == Unsigned(REPLY_HEADER + LONG + Unsigned(ReceiveSize(a.ty, true, d.number)))
    ensures var r := Reply([RET_CODE, a], [0, max], msg, mem);
            && r.rc == (if TooMany(a, CountOf(a, d), max) then ArrayTooLarge else Success)
            && |r.stored| == 2 && r.stored[1].count == CountOf(a, d) && |r.stored[1].data| == CopySize(a, d, max)
  {
    PairTaken(a, d, max, msg, mem);
    PairSizes(a);
    StoredParts(a, max, msg, mem, REPLY_HEADER);
    DescriptorRoundTrip(d, true);
  }

  /** Two fields, both of which pass. */
  lemma TakeTwo<T>(fields: seq<Field>, reader: Reader, taker: Taker<T>, msg: seq<byte>, mem: nat -> byte, s: Receiver,
                   x: T, y: T)
    requires |fields| == 2 && CheckOne(fields, reader, msg, mem, 0, AtStart(msg)) == Some(s)
    requires x == taker.value(0, s.inP + HEADER) && !taker.stop(0, x)
    requires CheckOne(fields, reader, msg, mem, 1, s).Some?
    requires y == taker.value(1, CheckOne(fields, reader, msg, mem, 1, s).value.inP + s.off)
    ensures TakeFrom(fields, reader, taker, msg, mem, 0, AtStart(msg), [])
         == if taker.stop(1, y) then Stopped([x, y]) else Done([x, y])
  {
    assert [] + [x] == [x] && [x] + [y] == [x, y];
    var next := CheckOne(fields, reader, msg, mem, 1, s).value;
    assert TakeFrom(fields, reader, taker, msg, mem, 0, AtStart(msg), [])
        == TakeFrom(fields, reader, taker, msg, mem, 1, s, [x]);
    assert TakeFrom(fields, reader, taker, msg, mem, 1, s, [x])
        == if taker.stop(1, y) then Stopped([x, y]) else TakeFrom(fields, reader, taker, msg, mem, 2, next, [x, y]);
  }

  lemma PairTaker(a: Arg, max: nat, msg: seq<byte>, mem: nat -> byte)
    requires a.ty.elem > 0
    ensures var taker, v := TakerOf([RET_CODE, a], [0, max], msg, mem), Stored(a, max, msg, mem, REPLY_HEADER);
            && taker.value(0, HEADER) == Stored(RET_CODE, 0, msg, mem, HEADER) && taker.value(1, REPLY_HEADER) == v
            && (taker.stop(0, ZERO) <==> RetValue(ZERO) != 0) && (taker.stop(1, v) <==> TooMany(a, v.count, max))
  {
    TakerValue([RET_CODE, a], [0, max], msg, mem, 0, HEADER);
    TakerValue([RET_CODE, a], [0, max], msg, mem, 1, REPLY_HEADER);
  }

  lemma PairTaken(a: Arg, d: Desc, max: nat, msg: seq<byte>, mem: nat -> byte)
    requires IsPair(a, d, msg)
    requires |msg| == Unsigned(REPLY_HEADER + LONG + Unsigned(ReceiveSize(a.ty, true, d.number)))
    ensures var args, v := [RET_CODE, a], Stored(a, max, msg, mem, REPLY_HEADER);
            TakeFrom(Fields(args), ReaderOf(args), TakerOf(args, [0, max], msg, mem), msg, mem, 0, AtStart(msg), [])
            == if TooMany(a, v.count, max) then Stopped([ZERO, v]) else Done([ZERO, v])
  {
    var args, v := [RET_CODE, a], Stored(a, max, msg, mem, REPLY_HEADER);
    FirstOfPair(a, d, msg, mem);
    SecondOfPair(a, d, msg, mem);
    PairTaker(a, max, msg, mem);
    TakeTwo(Fields(args), ReaderOf(args), TakerOf(args, [0, max], msg, mem), msg, mem,
            Receiver(0, |msg|, REPLY_HEADER, 0, false), ZERO, v);
  }

  function PairMessage(d: Desc, data: seq<byte>): seq<byte>
    requires DescOk(d, true)
  {
    seq(HEADER, _ => 0) + Piece(RET_CODE, ZERO) + Encode(d, true) + data
  }

  lemma PairParts(a: Arg, d: Desc, data: seq<byte>)
    requires ArgOk(a) && IsVar(a) && Claims(a, d) && |data| <= 4
    ensures DescOk(d, true) && |PairMessage(d, data)| == REPLY_HEADER + LONG + |data|
    ensures IsPair(a, d, PairMessage(d, data))
  {
    var msg := PairMessage(d, data);
    assert msg[HEADER..REPLY_HEADER] == Piece(RET_CODE, ZERO);
    assert msg[REPLY_HEADER..REPLY_HEADER + LONG] == Encode(d, true);
  }

  /** A reply of 48 bytes that claims 2^30 + 1 items of four bytes: without a declared maximum, or with enough room, the
      client succeeds, copies the four bytes that are there, and returns the count claimed; a caller with room for fewer
      has its room filled from beyond the message. */
  lemma WrappedWords(a: Arg, max: nat, mem: nat -> byte) returns (msg: seq<byte>)
    requires ArgOk(a) && IsVar(a) && a.long && a.ty.bits == 32 && a.ty.elem == 1 && a.ty.name < 0x1_0000
    ensures |msg| == 48
    ensures var r := Reply([RET_CODE, a], [0, max], msg, mem);
            && |r.stored| == 2 && r.stored[1].count == 0x4000_0001
            && (a.ty.indefinite || max > 0x4000_0000 ==> r.rc.Success? && |r.stored[1].data| == 4)
            && (!a.ty.indefinite && 1 < max < 0x4000_0000 ==>
                  r.rc.ArrayTooLarge? && |r.stored[1].data| == 4 * max && REPLY_HEADER + LONG + 4 * max > |msg|)
  {
    var d := Desc(a.ty.name, a.ty.bits, 0x4000_0001, true, false);
    PairParts(a, d, seq(4, _ => 0));
    msg := PairMessage(d, seq(4, _ => 0));
    SoundDivides(a.ty);
    assert ReceiveSize(a.ty, true, d.number) == WORD + 4 && Unsigned(WORD + 4) == 4;
    WrappedReply(a, d, max, msg, mem);
  }

  /** A reply of 44 bytes that claims 2^32 - 1 items of one byte: rounding up wraps to nothing, and the client, without
      a declared maximum, copies them all from beyond the message. */
  lemma WrappedBytes(a: Arg, max: nat, mem: nat -> byte) returns (msg: seq<byte>)
    requires ArgOk(a) && IsVar(a) && a.long && a.ty.indefinite && a.ty.bits == 8 && a.ty.elem == 1
    requires a.ty.name < 0x1_0000
    ensures |msg| == REPLY_HEADER + LONG
    ensures var r := Reply([RET_CODE, a], [0, max], msg, mem);
            r.rc.Success? && |r.stored| == 2 && r.stored[1].count == |r.stored[1].data| == 0xFFFF_FFFF
  {
    var d := Desc(a.ty.name, a.ty.bits, 0xFFFF_FFFF, true, false);
    PairParts(a, d, []);
    msg := PairMessage(d, []);
    SoundDivides(a.ty);
    assert ReceiveSize(a.ty, true, d.number) == WORD && Unsigned(WORD) == 0;
    WrappedReply(a, d, max, msg, mem);
  }

  // ---------------------------------------------------------------- the round trip

  /** What the caller gets of a value: all of it, or as many elements as it has room for. */
  function Kept(a: Arg, v: Val, max: nat): Val
    requires a.ty.elem > 0
  {
    if TooMany(a, v.count, max) && ElemSize(a.ty) * max <= |v.data| then v.(data := v.data[..ElemSize(a.ty) * max])
    else v
  }

  lemma KeptPrefix(a: Arg, v: Val, max: nat)
    requires ArgOk(a) && ValOk(a, v) && TooMany(a, v.count, max)
    ensures ElemSize(a.ty) * max <= |v.data|
  {
    MulMono(ElemSize(a.ty), max, v.count);
  }

  lemma CopyAsSent(a: Arg, v: Val, max: nat)
    requires ArgOk(a) && ValOk(a, v) && !TooLarge(a, v) && |v.data| < WORD
    ensures CountOf(a, DescOf(a, v)) == v.count && CopySize(a, DescOf(a, v), max) == |Kept(a, v, max).data|
  {
    SoundDivides(a.ty);
    Regroup(a.ty.bits / 8, a.ty.elem, v.count);
    MultipleDiv(a.ty.elem, v.count);
    if TooMany(a, v.count, max) { KeptPrefix(a, v, max); }
  }

  lemma FetchPrefix(msg: seq<byte>, mem: nat -> byte, off: nat, bytes: seq<byte>, n: nat)
    requires At(msg, off, bytes) && n <= |bytes| && |msg| < WORD
    ensures Fetch(msg, mem, off, n) == bytes[..n]
  {
    FetchInside(msg, mem, off, n);
    assert msg[off..off + n] == msg[off..off + |bytes|][..n];
  }

  lemma DescFetched(a: Arg, v: Val, msg: seq<byte>, mem: nat -> byte, off: nat)
    requires ArgOk(a) && ValOk(a, v) && !TooLarge(a, v) && At(msg, off, Piece(a, v)) && |msg| < WORD
    ensures Decode(Fetch(msg, mem, off, DescSize(a.long)), a.long) == DescOf(a, v)
    ensures At(msg, off + DescSize(a.long), v.data)
  {
    var desc := Encode(DescOf(a, v), a.long);
    DescOfPiece(msg, off, Piece(a, v), |desc|);
    assert Piece(a, v)[..|desc|] == desc && Piece(a, v)[|desc|..] == v.data;
    FetchInside(msg, mem, off, |desc|);
    DescriptorRoundTrip(DescOf(a, v), a.long);
  }

  lemma StoredAsSent(a: Arg, v: Val, max: nat, msg: seq<byte>, mem: nat -> byte, off: nat)
    requires ArgOk(a) && ValOk(a, v) && !TooLarge(a, v) && At(msg, off, Piece(a, v)) && |msg| < WORD
    ensures Stored(a, max, msg, mem, off) == Kept(a, v, max)
  {
    DescFetched(a, v, msg, mem, off);
    CopyAsSent(a, v, max);
    FetchPrefix(msg, mem, off + DescSize(a.long), v.data, |Kept(a, v, max).data|);
  }

  /** A reply as the server packs it, with the code for success. */
  predicate GoodReply(args: seq<Arg>, vals: seq<Val>, msg: seq<byte>) {
    && ReplyArgs(args) && Matches(args, vals) && NoneTooLarge(args, vals, |args|) && IsPacked(args, vals, msg)
    && |msg| < WORD && RetValue(vals[0]) == 0
  }

  lemma StoresSent(args: seq<Arg>, vals: seq<Val>, maxima: seq<nat>, msg: seq<byte>, mem: nat -> byte, j: nat, v: Val)
    requires GoodReply(args, vals, msg) && |maxima| == |args| && j < |args|
    requires At(msg, SeenOff(Fields(args), ReaderOf(args), msg, j), Piece(args[j], vals[j]))
    requires TakenAt(Fields(args), ReaderOf(args), TakerOf(args, maxima, msg, mem), msg, j, v)
    ensures KeepsOrStops(args, vals, maxima, TakerOf(args, maxima, msg, mem), j, v)
  {
    assert ArgOk(args[j]);
    StoredAsSent(args[j], vals[j], maxima[j], msg, mem, SeenOff(Fields(args), ReaderOf(args), msg, j));
  }

  /** The caller has room for the first `n` arrays. */
  predicate Room(args: seq<Arg>, vals: seq<Val>, maxima: seq<nat>, n: nat)
    requires |vals| == |maxima| == |args| && n <= |args|
  {
    forall j :: 0 <= j < n ==> !TooMany(args[j], vals[j].count, maxima[j])
  }

  lemma GoodReplyTaken(args: seq<Arg>, vals: seq<Val>, maxima: seq<nat>, msg: seq<byte>, mem: nat -> byte)
      returns (t: Taking<Val>)
    requires GoodReply(args, vals, msg) && |maxima| == |args|
    ensures HeadOk(Fields(args), |msg|)
    ensures t == TakeFrom(Fields(args), ReaderOf(args), TakerOf(args, maxima, msg, mem), msg, mem, 0, AtStart(msg), [])
    ensures TakenWell(Fields(args), ReaderOf(args), TakerOf(args, maxima, msg, mem), msg, t) && !t.Refused?
    ensures forall j :: 0 <= j < |t.vals| ==>
      KeepsOrStops(args, vals, maxima, TakerOf(args, maxima, msg, mem), j, t.vals[j])
  {
    var fields, reader, taker := Fields(args), ReaderOf(args), TakerOf(args, maxima, msg, mem);
    PackedArrivesWhole(args, vals, msg);
    InsideIsSmall(fields, reader, msg);
    DeltasGrow(fields, reader, msg, 0, |fields|);
    TakesExactly(fields, reader, taker, msg, mem);
    t := TakeFrom(fields, reader, taker, msg, mem, 0, AtStart(msg), []);
    forall j | 0 <= j < |t.vals| ensures KeepsOrStops(args, vals, maxima, taker, j, t.vals[j]) {
      assert At(msg, SeenOff(fields, reader, msg, j), Pieces(args, vals, |args|)[j]);
      assert TakenAt(fields, reader, taker, msg, j, t.vals[j]);
      StoresSent(args, vals, maxima, msg, mem, j, t.vals[j]);
    }
  }

  /** What is stored for argument `j` is what the caller has room for, and ends the stub if that is not all. */
  predicate KeepsOrStops(args: seq<Arg>, vals: seq<Val>, maxima: seq<nat>, taker: Taker<Val>, j: nat, v: Val)
    requires |vals| == |maxima| == |args| && j < |args|
  {
    && args[j].ty.elem > 0 && v == Kept(args[j], vals[j], maxima[j])
    && (taker.stop(j, v) <==> TooMany(args[j], vals[j].count, maxima[j]))
    && (!TooMany(args[j], vals[j].count, maxima[j]) ==> v == vals[j])
  }

  /** What the client makes of a reply to which `vals` were sent. */
  predicate AsRoomAllows(args: seq<Arg>, vals: seq<Val>, maxima: seq<nat>, r: Outcome)
    requires |vals| == |maxima| == |args|
  {
    && (r.rc.Success? <==> Room(args, vals, maxima, |args|)) && (r.rc.Success? ==> r.stored == vals)
    && (!r.rc.Success? ==>
          var k := |r.stored| - 1;
          && r.rc.ArrayTooLarge? && 0 <= k < |args| && Room(args, vals, maxima, k)
          && TooMany(args[k], vals[k].count, maxima[k]) && args[k].ty.elem > 0
          && r.stored == vals[..k] + [Kept(args[k], vals[k], maxima[k])])
  }

  /** The first `n` of the values stored are those sent. */
  lemma TakenPrefix(args: seq<Arg>, vals: seq<Val>, maxima: seq<nat>, taker: Taker<Val>, got: seq<Val>, n: nat)
    requires |vals| == |maxima| == |args| && n <= |got| <= |args| && NoneStops(taker, got, n)
    requires forall j :: 0 <= j < |got| ==> KeepsOrStops(args, vals, maxima, taker, j, got[j])
    ensures Room(args, vals, maxima, n) && got[..n] == vals[..n]
  {
    forall j | 0 <= j < n ensures !TooMany(args[j], vals[j].count, maxima[j]) && got[j] == vals[j] {
      assert KeepsOrStops(args, vals, maxima, taker, j, got[j]);
    }
  }

  lemma TakenAsRoomAllows(args: seq<Arg>, vals: seq<Val>, maxima: seq<nat>, taker: Taker<Val>, t: Taking<Val>)
    requires |vals| == |maxima| == |args| && |t.vals| <= |args| && args != [] && !IsVar(args[0])
    requires forall j :: 0 <= j < |t.vals| ==> KeepsOrStops(args, vals, maxima, taker, j, t.vals[j])
    requires t.Done? ==> |t.vals| == |args| && NoneStops(taker, t.vals, |t.vals|)
    requires !t.Done? ==> t.Stopped? && t.vals != [] && NoneStops(taker, t.vals, |t.vals| - 1)
                          && taker.stop(|t.vals| - 1, t.vals[|t.vals| - 1])
    ensures AsRoomAllows(args, vals, maxima, OutcomeOf(t))
  {
    var got := t.vals;
    if t.Done? {
      TakenPrefix(args, vals, maxima, taker, got, |got|);
      assert got[..|got|] == got && vals[..|got|] == vals;
    } else {
      var k := |got| - 1;
      TakenPrefix(args, vals, maxima, taker, got, k);
      assert KeepsOrStops(args, vals, maxima, taker, k, got[k]) && k > 0;
      assert got == got[..k] + [got[k]];
    }
  }

  /** For every list of arguments and values and all maxima of the caller: if every array fits, the client
      succeeds with exactly the values sent; otherwise it stops at the first that does not, with its true count,
      as many of its elements as fit, and everything before it. */
  lemma ReplyRoundTrip(args: seq<Arg>, vals: seq<Val>, maxima: seq<nat>, msg: seq<byte>, mem: nat -> byte)
    requires GoodReply(args, vals, msg) && |maxima| == |args|
    ensures AsRoomAllows(args, vals, maxima, Reply(args, maxima, msg, mem))
  {
    var t := GoodReplyTaken(args, vals, maxima, msg, mem);
    TakenAsRoomAllows(args, vals, maxima, TakerOf(args, maxima, msg, mem), t);
    assert Reply(args, maxima, msg, mem) == OutcomeOf(t);
  }

  /** An error reply, which ends after the return code, gives the caller that code and nothing else. */
  lemma ErrorReply(args: seq<Arg>, maxima: seq<nat>, code: nat, msg: seq<byte>, mem: nat -> byte)
    requires ReplyArgs(args) && |maxima| == |args| && 0 < code < WORD && |msg| == REPLY_HEADER
    requires At(msg, HEADER, Piece(RET_CODE, Val(0, Word(code), true)))
    ensures Reply(args, maxima, msg, mem) == Outcome(Error(code), [])
  {
    var v := Val(0, Word(code), true);
    var desc := Encode(DescOf(RET_CODE, v), false);
    DescOfPiece(msg, HEADER, Piece(RET_CODE, v), SHORT);
    assert Piece(RET_CODE, v)[..SHORT] == desc && Piece(RET_CODE, v)[SHORT..] == Word(code);
    FetchInside(msg, mem, HEADER, SHORT);
    FetchInside(msg, mem, HEADER + SHORT, 4);
    ValueOfWord(code);
    PackedTypeOk(RET_CODE, v);
    StoredAsSent(RET_CODE, v, maxima[0], msg, mem, HEADER);
    assert Readable(args, 0, desc);
  }
}
