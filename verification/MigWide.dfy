/** Requests with short descriptors that are narrower than their items (mig/routine.c): rtFindSize counts more for such
    a descriptor than the declared structure has for it.  Both stubs compute with the same rtRequestSize, so the client
    sends what follows its arguments in memory as well, and the server expects it. */
module MigWide {

  import opened Arithmetic
  import opened MessageLayout
  import opened MigLayout
  import opened MigStubs
  import opened Options
  import opened Words

  /** How much more rtFindSize counts than the structure has. */
  function Extra(args: seq<Arg>): nat {
    FindSizeExactly(args, |args|);
    FindSize(args, |args|) - MinSize(Fields(args), |args|)
  }

  /** What each wide descriptor is short of its items. */
  function Missing(args: seq<Arg>, i: nat): nat
    requires i <= |args|
  {
    if i == 0 then 0 else Missing(args, i - 1) + if Wide(args[i - 1]) then args[i - 1].ty.bits / 8 - SHORT else 0
  }

  /** The room rtFindSize counts for a descriptor. */
  function DescRoom(a: Arg): nat { if a.long then LONG else if Wide(a) then a.ty.bits / 8 else SHORT }

  lemma NextSize(size: nat, a: Arg)
    requires size % 4 == 0 && (Wide(a) ==> a.ty.bits % 32 == 0)
    ensures SizeWith(size, a) == size + DescRoom(a) + MinTypeSize(a.ty) && SizeWith(size, a) % 4 == 0
  {
    assert RoundUp(size) == size;
    MinIsField(a);
    assert DescRoom(a) % 4 == 0;
    FoursAdd(size, DescRoom(a));
    FoursAdd(size + DescRoom(a), MinTypeSize(a.ty));
  }

  /** With items of whole words it is the sum of what the wide ones are short. */
  lemma {:induction false} ExtraExactly(args: seq<Arg>, i: nat)
    requires i <= |args| && forall j :: 0 <= j < i && Wide(args[j]) ==> args[j].ty.bits % 32 == 0
    ensures FindSize(args, i) == MinSize(Fields(args), i) + Missing(args, i) && FindSize(args, i) % 4 == 0
  {
    if i > 0 {
      ExtraExactly(args, i - 1);
      NextSize(FindSize(args, i - 1), args[i - 1]);
      MinIsField(args[i - 1]);
      assert DescRoom(args[i - 1]) == DescSize(args[i - 1].long) + Missing(args, i) - Missing(args, i - 1);
    }
  }

  // ---------------------------------------------------------------- a message with something after its fields

  /** The fields as the sizes are computed for them: after the arguments, as much as was counted too much. */
  function Pad(fields: seq<Field>, n: nat): (r: seq<Field>)
    ensures |r| == |fields| + 1 && r[|fields|] == Field(0, n, false)
    ensures forall i :: 0 <= i < |fields| ==> r[i] == fields[i]
  {
    fields + [Field(0, n, false)]
  }

  /** The checks, which know nothing of it. */
  function Unaware(reader: Reader, n: nat): Reader {
    Reader((i: nat, b: seq<byte>) => i >= n || reader.ok(i, b), reader.size)
  }

  lemma {:induction false} SamePlaces(fields: seq<Field>, n: nat, sizes: seq<nat>, i: nat)
    requires i <= |fields| == |sizes|
    ensures WireOff(Pad(fields, n), sizes + [0], i) == WireOff(fields, sizes, i)
    ensures MinSize(Pad(fields, n), i) == MinSize(fields, i)
    ensures Deltas(Pad(fields, n), sizes + [0], i) == Deltas(fields, sizes, i)
  {
    if i > 0 {
      SamePlaces(fields, n, sizes, i - 1);
      assert Pad(fields, n)[i - 1] == fields[i - 1] && (sizes + [0])[i - 1] == sizes[i - 1];
    }
  }

  lemma PaddedCarries(fields: seq<Field>, sizes: seq<nat>, pieces: seq<seq<byte>>, msg: seq<byte>, tail: seq<byte>)
    requires |fields| == |sizes| == |pieces| && Carries(fields, sizes, pieces, msg)
    requires At(msg, WireOff(fields, sizes, |fields|), tail)
    ensures Carries(Pad(fields, |tail|), sizes + [0], pieces + [tail], msg)
  {
    var all, n := pieces + [tail], |tail|;
    forall i | 0 <= i < |all| ensures PieceAt(Pad(fields, n), sizes + [0], i, all[i], msg) {
      SamePlaces(fields, n, sizes, i);
      if i < |fields| { assert PieceAt(fields, sizes, i, pieces[i], msg); }
    }
  }

  lemma PaddedUnderstood(fields: seq<Field>, sizes: seq<nat>, pieces: seq<seq<byte>>, reader: Reader, tail: seq<byte>)
    requires Understands(fields, sizes, pieces, reader)
    ensures Understands(Pad(fields, |tail|), sizes + [0], pieces + [tail], Unaware(reader, |fields|))
  {
  }

  lemma TailThere(msg: seq<byte>, n: nat, off: nat)
    requires off + n == |msg|
    ensures At(msg, off, msg[off..]) && |msg[off..]| == n
  {
  }

  /** A message that carries its pieces, with `n` bytes more than they need, passes checks that expect them. */
  lemma PaddedPasses(fields: seq<Field>, sizes: seq<nat>, pieces: seq<seq<byte>>, reader: Reader, msg: seq<byte>,
                     mem: nat -> byte, n: nat)
    requires Understands(fields, sizes, pieces, reader) && Carries(fields, sizes, pieces, msg) && |msg| < WORD
    requires |msg| == MinSize(fields, |fields|) + n + Deltas(fields, sizes, |fields|)
    ensures Passes(Pad(fields, n), Unaware(reader, |fields|), msg, mem)
  {
    SizeExact(fields, sizes, |fields|);
    var tail, padded, server := msg[|msg| - n..], Pad(fields, n), Unaware(reader, |fields|);
    TailThere(msg, n, WireOff(fields, sizes, |fields|));
    PaddedCarries(fields, sizes, pieces, msg, tail);
    SamePlaces(fields, n, sizes, |fields|);
    PaddedUnderstood(fields, sizes, pieces, reader, tail);
    PackedIsAccepted(padded, sizes + [0], pieces + [tail], server, msg);
    InsideIsSmall(padded, server, msg);
    PassesExactly(padded, server, msg, mem);
  }

  /** Each piece is where the receiver looks for it. */
  lemma FoundThere(fields: seq<Field>, sizes: seq<nat>, pieces: seq<seq<byte>>, reader: Reader, msg: seq<byte>, i: nat)
    requires Understands(fields, sizes, pieces, reader) && Carries(fields, sizes, pieces, msg) && i < |fields|
    ensures At(msg, SeenOff(fields, reader, msg, i), pieces[i])
  {
    forall j | 0 <= j < i ensures Arrives(fields, sizes, reader, msg, j) {
      PackedArrives(fields, sizes, pieces, reader, msg, j);
    }
    FindsFields(fields, sizes, reader, msg, i);
    assert PieceAt(fields, sizes, i, pieces[i], msg);
  }

  // ---------------------------------------------------------------- the round trip

  predicate Sendable(args: seq<Arg>, vals: seq<Val>) {
    Matches(args, vals) && ArgsOk(args) && NoneTooLarge(args, vals, |args|)
  }

  /** For every list of arguments and values, wide ones included, whatever follows the arguments in the client's memory:
      the request passes all the server's checks, and the values and counts extracted are those that were sent. */
  lemma WideRoundTrip(args: seq<Arg>, vals: seq<Val>, msg: seq<byte>, mem: nat -> byte, i: nat)
    requires Sendable(args, vals) && IsPacked(args, vals, msg) && |msg| < WORD && i < |args|
    ensures MinSize(Pad(Fields(args), Extra(args)), |args| + 1) == FindSize(args, |args|)
    ensures Passes(Pad(Fields(args), Extra(args)), Unaware(ReaderOf(args), |args|), msg, mem)
    ensures Extract(args, msg, i) == vals[i]
  {
    var fields, sizes, pieces := Fields(args), Sizes(args, vals), Pieces(args, vals, |args|);
    AllUnderstood(args, vals);
    PaddedPasses(fields, sizes, pieces, ReaderOf(args), msg, mem, Extra(args));
    SamePlaces(fields, Extra(args), sizes, |args|);
    FoundThere(fields, sizes, pieces, ReaderOf(args), msg, i);
    assert ArgOk(args[i]);
    TakeAsSent(args[i], vals[i], msg, SeenOff(fields, ReaderOf(args), msg, i));
  }

  /** The room of the structure that the variable arguments leave unused. */
  function Unused(fields: seq<Field>, sizes: seq<nat>, i: nat): int
    requires i <= |fields| && i <= |sizes|
  {
    if i == 0 then 0
    else Unused(fields, sizes, i - 1) + if fields[i - 1].variable then fields[i - 1].room - sizes[i - 1] else 0
  }

  lemma {:induction false} StructUsed(fields: seq<Field>, sizes: seq<nat>, i: nat)
    requires i <= |fields| && i <= |sizes|
    ensures StructOff(fields, i) == MinSize(fields, i) + Deltas(fields, sizes, i) + Unused(fields, sizes, i)
  {
    if i > 0 { StructUsed(fields, sizes, i - 1); }
  }

  /** The client sends memory from beyond its structure if and only if more is counted too much than the variable
      arguments leave unused, and that much of it. */
  lemma OverrunExactly(args: seq<Arg>, vals: seq<Val>, msg: seq<byte>)
    requires Sendable(args, vals) && IsPacked(args, vals, msg)
    ensures var unused := Unused(Fields(args), Sizes(args, vals), |args|);
            && |msg| - StructOff(Fields(args), |args|) == Extra(args) - unused
            && (|msg| > StructOff(Fields(args), |args|) <==> Extra(args) > unused)
  {
    StructUsed(Fields(args), Sizes(args, vals), |args|);
  }

  /** One argument of 64 bits with a short descriptor: four bytes from beyond the structure are sent. */
  lemma WideLong()
    ensures var a := Arg(Ty(11, 64, 1, true, false, false, 1, false), false);
            ArgOk(a) && Wide(a) && Extra([a]) == 4 && StructOff(Fields([a]), 1) + 4 == FindSize([a], 1)
  {
    var a := Arg(Ty(11, 64, 1, true, false, false, 1, false), false);
    assert FindSize([a], 0) == HEADER && StructOff(Fields([a]), 0) == HEADER && MinSize(Fields([a]), 0) == HEADER;
    assert Fields([a])[0] == Field(SHORT, 8, false);
  }
}
