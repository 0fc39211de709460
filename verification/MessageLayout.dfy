/** How a message with variable-sized fields is laid out and read, for any list of fields: the code MIG
    generates writes and reads each field through a pointer to a structure declared for the largest
    message, and moves the pointer after each variable field (mig/user.c, mig/server.c). */
module MessageLayout {

  import opened Options
  import opened Words

  /** sizeof_mach_msg_header_t. */
  const HEADER := 24

  /** A descriptor of `desc` bytes and then room for the data; a variable field may use less of it. */
  datatype Field = Field(desc: nat, room: nat, variable: bool)

  // ---------------------------------------------------------------- positions

  /** The size of the data of field `i`, given the sizes of the variable ones. */
  function SizeOf(fields: seq<Field>, sizes: seq<nat>, i: nat): nat
    requires i < |fields| && i < |sizes|
  {
    if fields[i].variable then sizes[i] else fields[i].room
  }

  /** Where the descriptor of field `i` is in the message. */
  function WireOff(fields: seq<Field>, sizes: seq<nat>, i: nat): nat
    requires i <= |fields| && i <= |sizes|
  {
    if i == 0 then HEADER else WireOff(fields, sizes, i - 1) + fields[i - 1].desc + SizeOf(fields, sizes, i - 1)
  }

  /** Where it is in the declared structure. */
  function StructOff(fields: seq<Field>, i: nat): nat
    requires i <= |fields|
  {
    if i == 0 then HEADER else StructOff(fields, i - 1) + fields[i - 1].desc + fields[i - 1].room
  }

  /** The size of a message whose variable fields are empty. */
  function MinSize(fields: seq<Field>, i: nat): nat
    requires i <= |fields|
  {
    if i == 0 then HEADER
    else MinSize(fields, i - 1) + fields[i - 1].desc + if fields[i - 1].variable then 0 else fields[i - 1].room
  }

  /** The variable sizes before field `i`. */
  function Deltas(fields: seq<Field>, sizes: seq<nat>, i: nat): nat
    requires i <= |fields| && i <= |sizes|
  {
    if i == 0 then 0 else Deltas(fields, sizes, i - 1) + if fields[i - 1].variable then sizes[i - 1] else 0
  }

  /** How far the pointer has been moved from the start of the message before field `i`. */
  function Shift(fields: seq<Field>, sizes: seq<nat>, i: nat): int
    requires i <= |fields| && i <= |sizes|
  {
    if i == 0 then 0
    else Shift(fields, sizes, i - 1) + if fields[i - 1].variable then sizes[i - 1] - fields[i - 1].room else 0
  }

  /** argRequestPos: the number of variable fields before this one. */
  function Pos(fields: seq<Field>, i: nat): nat
    requires i <= |fields|
  {
    if i == 0 then 0 else Pos(fields, i - 1) + if fields[i - 1].variable then 1 else 0
  }

  /** The moved pointer plus the field's place in the structure is the field's place in the message. */
  lemma {:induction false} PointerLands(fields: seq<Field>, sizes: seq<nat>, i: nat)
    requires i <= |fields| && i <= |sizes|
    ensures Shift(fields, sizes, i) + StructOff(fields, i) == WireOff(fields, sizes, i)
  {
    if i > 0 { PointerLands(fields, sizes, i - 1); }
  }

  /** The message is as long as the minimum and the variable sizes together. */
  lemma {:induction false} SizeExact(fields: seq<Field>, sizes: seq<nat>, i: nat)
    requires i <= |fields| && i <= |sizes|
    ensures WireOff(fields, sizes, i) == MinSize(fields, i) + Deltas(fields, sizes, i)
  {
    if i > 0 { SizeExact(fields, sizes, i - 1); }
  }

  lemma {:induction false} PosZero(fields: seq<Field>, sizes: seq<nat>, i: nat)
    requires i <= |fields| && i <= |sizes| && Pos(fields, i) == 0
    ensures Deltas(fields, sizes, i) == 0
  {
    if i > 0 { PosZero(fields, sizes, i - 1); }
  }

  lemma {:induction false} WireMonotone(fields: seq<Field>, sizes: seq<nat>, i: nat, j: nat)
    requires i < j <= |fields| && j <= |sizes|
    ensures WireOff(fields, sizes, i) + fields[i].desc + SizeOf(fields, sizes, i) <= WireOff(fields, sizes, j)
    decreases j
  {
    if i < j - 1 { WireMonotone(fields, sizes, i, j - 1); }
  }

  lemma {:induction false} Monotone(fields: seq<Field>, i: nat, j: nat)
    requires i <= j <= |fields|
    ensures StructOff(fields, i) <= StructOff(fields, j) && MinSize(fields, i) <= MinSize(fields, j)
            && Pos(fields, i) <= Pos(fields, j)
    decreases j
  {
    if i < j { Monotone(fields, i, j - 1); }
  }

  /** Positions depend on the variable sizes before them only. */
  lemma {:induction false} PrefixSame(fields: seq<Field>, s: seq<nat>, t: seq<nat>, i: nat)
    requires i <= |fields| && i <= |s| && i <= |t| && forall j :: 0 <= j < i && fields[j].variable ==> s[j] == t[j]
    ensures WireOff(fields, s, i) == WireOff(fields, t, i) && Deltas(fields, s, i) == Deltas(fields, t, i)
            && Shift(fields, s, i) == Shift(fields, t, i)
  {
    if i > 0 { PrefixSame(fields, s, t, i - 1); }
  }

  /** Variable sizes that fit their room. */
  predicate Fit(fields: seq<Field>, sizes: seq<nat>, n: nat) {
    n <= |fields| && n <= |sizes| && forall i :: 0 <= i < n && fields[i].variable ==> sizes[i] <= fields[i].room
  }

  lemma {:induction false} WithinStruct(fields: seq<Field>, sizes: seq<nat>, i: nat)
    requires Fit(fields, sizes, i)
    ensures WireOff(fields, sizes, i) <= StructOff(fields, i)
  {
    if i > 0 { WithinStruct(fields, sizes, i - 1); }
  }

  // ---------------------------------------------------------------- packing

  function Splice(buf: seq<byte>, off: nat, bytes: seq<byte>): (r: seq<byte>)
    requires off + |bytes| <= |buf|
    ensures |r| == |buf|
  {
    buf[..off] + bytes + buf[off + |bytes|..]
  }

  predicate At(msg: seq<byte>, off: nat,
               bytes: seq<byte>) { off + |bytes| <= |msg| && msg[off..off + |bytes|] == bytes }

  lemma SpliceAt(buf: seq<byte>, off: nat, bytes: seq<byte>)
    requires off + |bytes| <= |buf|
    ensures At(Splice(buf, off, bytes), off, bytes)
  {
  }

  lemma SpliceAfter(buf: seq<byte>, off: nat, bytes: seq<byte>, o: nat, b: seq<byte>)
    requires off + |bytes| <= |buf| && At(buf, o, b) && o + |b| <= off
    ensures At(Splice(buf, off, bytes), o, b)
  {
    assert Splice(buf, off, bytes)[o..o + |b|] == buf[o..o + |b|];
  }

  lemma Truncated(msg: seq<byte>, size: nat, off: nat, bytes: seq<byte>)
    requires At(msg, off, bytes) && off + |bytes| <= size <= |msg|
    ensures At(msg[..size], off, bytes)
  {
    assert msg[..size][off..off + |bytes|] == msg[off..off + |bytes|];
  }

  /** A piece is a descriptor and data: it fits the room counted for its field. */
  predicate PieceFits(fields: seq<Field>, sizes: seq<nat>, i: nat, piece: seq<byte>)
    requires i < |fields| && i < |sizes|
  {
    |piece| <= fields[i].desc + SizeOf(fields, sizes, i)
  }

  predicate PieceAt(fields: seq<Field>, sizes: seq<nat>, i: nat, piece: seq<byte>, msg: seq<byte>)
    requires i < |fields| && i < |sizes|
  {
    PieceFits(fields, sizes, i, piece) && At(msg, WireOff(fields, sizes, i), piece)
  }

  /** The message has each piece at its place. */
  predicate Carries(fields: seq<Field>, sizes: seq<nat>, pieces: seq<seq<byte>>, msg: seq<byte>)
    requires |pieces| <= |fields| && |pieces| <= |sizes|
  {
    forall i :: 0 <= i < |pieces| ==> PieceAt(fields, sizes, i, pieces[i], msg)
  }

  lemma CarriesNext(fields: seq<Field>, sizes: seq<nat>, pieces: seq<seq<byte>>, buf: seq<byte>, piece: seq<byte>)
    requires |pieces| < |fields| && |pieces| < |sizes| && Carries(fields, sizes, pieces, buf)
             && PieceFits(fields, sizes, |pieces|, piece)
    requires WireOff(fields, sizes, |pieces|) + |piece| <= |buf|
    ensures Carries(fields, sizes, pieces + [piece], Splice(buf, WireOff(fields, sizes, |pieces|), piece))
  {
    var n, all := |pieces|, pieces + [piece];
    var off := WireOff(fields, sizes, n);
    SpliceAt(buf, off, piece);
    forall j | 0 <= j < |all| ensures PieceAt(fields, sizes, j, all[j], Splice(buf, off, piece)) {
      if j < n {
        assert PieceAt(fields, sizes, j, pieces[j], buf);
        WireMonotone(fields, sizes, j, n);
        SpliceAfter(buf, off, piece, WireOff(fields, sizes, j), pieces[j]);
      }
    }
  }

  lemma CarriesTruncated(fields: seq<Field>, sizes: seq<nat>, pieces: seq<seq<byte>>, buf: seq<byte>)
    requires |pieces| == |fields| <= |sizes| && Carries(fields, sizes, pieces, buf)
             && WireOff(fields, sizes, |fields|) <= |buf|
    ensures Carries(fields, sizes, pieces, buf[..WireOff(fields, sizes, |fields|)])
  {
    var size := WireOff(fields, sizes, |fields|);
    forall i | 0 <= i < |pieces| ensures PieceAt(fields, sizes, i, pieces[i], buf[..size]) {
      assert PieceAt(fields, sizes, i, pieces[i], buf);
      WireMonotone(fields, sizes, i, |fields|);
      Truncated(buf, size, WireOff(fields, sizes, i), pieces[i]);
    }
  }

  /** The variables of the packing code: message, place in the structure, pointer, msgh_size; `last` is a
      variable field not yet accounted for. */
  datatype Sender = Sender(buf: seq<byte>, off: nat, inP: int, size: int, last: Option<nat>)

  /** The pointer and msgh_size account for the variable fields before `k`. */
  predicate Tracks(fields: seq<Field>, sizes: seq<nat>, k: nat, inP: int, size: int)
    requires k <= |fields| && k <= |sizes|
  {
    inP == Shift(fields, sizes, k) && size == MinSize(fields, |fields|) + Deltas(fields, sizes, k)
  }

  /** The packing code has got to field `n`. */
  predicate Accounts(fields: seq<Field>, sizes: seq<nat>, n: nat, s: Sender)
    requires n <= |fields| <= |sizes|
  {
    && |s.buf| == StructOff(fields, |fields|) && s.off == StructOff(fields, n)
    && (s.last.Some? ==> s.last.value + 1 == n && fields[s.last.value].variable)
    && Tracks(fields, sizes, if s.last.Some? then s.last.value else n, s.inP, s.size)
  }

  predicate Packed(fields: seq<Field>, sizes: seq<nat>, pieces: seq<seq<byte>>, s: Sender)
    requires |pieces| <= |fields| && |fields| <= |sizes|
  {
    Accounts(fields, sizes, |pieces|, s) && Carries(fields, sizes, pieces, s.buf)
  }

  /** WriteAdjustMsgSize and WriteFinishMsgSize for the variable field before, if it is still due. */
  method Settle(fields: seq<Field>, sizes: seq<nat>, ghost pieces: seq<seq<byte>>, i: nat, s: Sender)
    returns (r: Sender)
    requires i == |pieces| <= |fields| <= |sizes| && Packed(fields, sizes, pieces, s)
    ensures Packed(fields, sizes, pieces, r) && r.last.None?
  {
    r := s;
    if s.last.Some? && Pos(fields, s.last.value) < Pos(fields, i) {
      var k := s.last.value;
      var size;
      if Pos(fields, k) == 0 {
        PosZero(fields, sizes, k);
        size := MinSize(fields, |fields|) + sizes[k];
      } else {
        size := s.size + sizes[k];
      }
      r := s.(inP := s.inP + sizes[k] - fields[k].room, size := size, last := None);
    }
  }

  lemma PieceInside(fields: seq<Field>, sizes: seq<nat>, i: nat, piece: seq<byte>)
    requires i < |fields| && Fit(fields, sizes, i + 1) && PieceFits(fields, sizes, i, piece)
    ensures WireOff(fields, sizes, i) + |piece| <= StructOff(fields, |fields|)
  {
    WithinStruct(fields, sizes, i);
    Monotone(fields, i + 1, |fields|);
  }

  /** The sender after writing the piece of the next field at the place its pointer gives. */
  function Written(fields: seq<Field>, i: nat, s: Sender, piece: seq<byte>): Sender
    requires i < |fields| && 0 <= s.inP + s.off && s.inP + s.off + |piece| <= |s.buf|
  {
    Sender(Splice(s.buf, s.inP + s.off, piece), s.off + fields[i].desc + fields[i].room, s.inP, s.size,
           if fields[i].variable then Some(i) else None)
  }

  lemma PieceLands(fields: seq<Field>, sizes: seq<nat>, n: nat, s: Sender, piece: seq<byte>)
    requires n < |fields| <= |sizes| && Accounts(fields, sizes, n, s) && s.last.None?
    requires Fit(fields, sizes, n + 1) && PieceFits(fields, sizes, n, piece)
    ensures s.inP + s.off == WireOff(fields, sizes, n) && s.inP + s.off + |piece| <= |s.buf|
  {
    PointerLands(fields, sizes, n);
    PieceInside(fields, sizes, n, piece);
  }

  lemma AccountsNext(fields: seq<Field>, sizes: seq<nat>, n: nat, s: Sender, piece: seq<byte>)
    requires n < |fields| <= |sizes| && Accounts(fields, sizes, n, s) && s.last.None?
    requires 0 <= s.inP + s.off && s.inP + s.off + |piece| <= |s.buf|
    ensures Accounts(fields, sizes, n + 1, Written(fields, n, s, piece))
  {
  }

  /** WritePackArg for field `i`, with the adjustment due before it. */
  method PackOne(fields: seq<Field>, sizes: seq<nat>, ghost pieces: seq<seq<byte>>, i: nat, s: Sender,
                 piece: seq<byte>)
    returns (r: Sender)
    requires i == |pieces| < |fields| <= |sizes| && Packed(fields, sizes, pieces, s)
    requires Fit(fields, sizes, i + 1) && PieceFits(fields, sizes, i, piece)
    ensures Packed(fields, sizes, pieces + [piece], r)
  {
    var s' := Settle(fields, sizes, pieces, i, s);
    PieceLands(fields, sizes, i, s', piece);
    AccountsNext(fields, sizes, i, s', piece);
    CarriesNext(fields, sizes, pieces, s'.buf, piece);
    r := Written(fields, i, s', piece);
  }

  /** The end of the packing code: the message is what has been written, of exactly the right size. */
  method Finish(fields: seq<Field>, sizes: seq<nat>, ghost pieces: seq<seq<byte>>, s: Sender) returns (msg: seq<byte>)
    requires |pieces| == |fields| <= |sizes| && Packed(fields, sizes, pieces, s) && Fit(fields, sizes, |fields|)
    ensures |msg| == MinSize(fields, |fields|) + Deltas(fields, sizes, |fields|) && Carries(fields, sizes, pieces, msg)
  {
    var s' := Settle(fields, sizes, pieces, |fields|, s);
    SizeExact(fields, sizes, |fields|);
    WithinStruct(fields, sizes, |fields|);
    CarriesTruncated(fields, sizes, pieces, s'.buf);
    msg := s'.buf[..s'.size];
  }

  // ---------------------------------------------------------------- checking

  /** What the receiver's code makes of the descriptor of field `i`: whether it is as expected, and the
      size of the data if the field is variable. */
  datatype Reader = Reader(ok: (nat, seq<byte>) -> bool, size: (nat, seq<byte>) -> nat)

  /** The bytes of a descriptor, if they are inside the message. */
  function DescBytes(msg: seq<byte>, off: nat, n: nat): (r: seq<byte>)
    ensures |r| == n
  {
    if off + n <= |msg| then msg[off..off + n] else seq(n, _ => 0)
  }

  /** The sizes of the first `i` fields of a received message, each found from the descriptor at the
      place that the sizes before it give. */
  function Seen(fields: seq<Field>, reader: Reader, msg: seq<byte>, i: nat): (r: seq<nat>)
    requires i <= |fields|
    ensures |r| == i
  {
    if i == 0 then []
    else
      var before := Seen(fields, reader, msg, i - 1);
      before + [reader.size(i - 1, DescBytes(msg, WireOff(fields, before, i - 1), fields[i - 1].desc))]
  }

  /** Where the receiver finds field `i`, and what it finds there. */
  function SeenOff(fields: seq<Field>, reader: Reader, msg: seq<byte>, i: nat): nat
    requires i <= |fields|
  {
    WireOff(fields, Seen(fields, reader, msg, i), i)
  }

  function SeenDesc(fields: seq<Field>, reader: Reader, msg: seq<byte>, i: nat): (r: seq<byte>)
    requires i < |fields|
    ensures |r| == fields[i].desc
  {
    DescBytes(msg, SeenOff(fields, reader, msg, i), fields[i].desc)
  }

  function SeenDeltas(fields: seq<Field>, reader: Reader, msg: seq<byte>, i: nat): nat
    requires i <= |fields|
  {
    Deltas(fields, Seen(fields, reader, msg, i), i)
  }

  predicate DescsOk(fields: seq<Field>, reader: Reader, msg: seq<byte>, n: nat)
    requires n <= |fields|
  {
    forall i :: 0 <= i < n ==> reader.ok(i, SeenDesc(fields, reader, msg, i))
  }

  /** What the receiver should accept: the message has exactly the minimum size plus the sizes of its
      variable fields, and every descriptor is the expected one. */
  predicate Accepts(fields: seq<Field>, reader: Reader, msg: seq<byte>) {
    |msg| == MinSize(fields, |fields|) + SeenDeltas(fields, reader, msg, |fields|)
    && DescsOk(fields, reader, msg, |fields|)
  }

  lemma SeenNext(fields: seq<Field>, reader: Reader, msg: seq<byte>, i: nat)
    requires i < |fields|
    ensures var size := reader.size(i, SeenDesc(fields, reader, msg, i));
            && Seen(fields, reader, msg, i + 1) == Seen(fields, reader, msg, i) + [size]
            && SeenDeltas(fields, reader, msg, i + 1)
               == SeenDeltas(fields, reader, msg, i) + (if fields[i].variable then size else 0)
            && Shift(fields, Seen(fields, reader, msg, i + 1), i + 1)
               == Shift(fields, Seen(fields, reader, msg, i), i)
                 + (if fields[i].variable then size - fields[i].room else 0)
  {
    PrefixSame(fields, Seen(fields, reader, msg, i + 1), Seen(fields, reader, msg, i), i);
  }

  lemma {:induction false} SeenPrefix(fields: seq<Field>, reader: Reader, msg: seq<byte>, i: nat, j: nat)
    requires i <= j <= |fields|
    ensures Seen(fields, reader, msg, j)[..i] == Seen(fields, reader, msg, i)
    decreases j
  {
    if i < j {
      SeenPrefix(fields, reader, msg, i, j - 1);
      assert Seen(fields, reader, msg, j)[..i] == Seen(fields, reader, msg, j - 1)[..i];
    }
  }

  lemma {:induction false} DeltasGrow(fields: seq<Field>, reader: Reader, msg: seq<byte>, i: nat, j: nat)
    requires i <= j <= |fields|
    ensures SeenDeltas(fields, reader, msg, i) <= SeenDeltas(fields, reader, msg, j)
    ensures Pos(fields, i) <= Pos(fields, j)
    ensures Pos(fields, i) == Pos(fields, j)
            ==> SeenDeltas(fields, reader, msg, i) == SeenDeltas(fields, reader, msg, j)
    decreases j
  {
    if i < j {
      DeltasGrow(fields, reader, msg, i, j - 1);
      SeenNext(fields, reader, msg, j - 1);
    }
  }

  /** As long as the message is at least the minimum size plus the variable sizes before a field, the
      descriptor of that field lies inside it. */
  lemma DescriptorInside(fields: seq<Field>, reader: Reader, msg: seq<byte>, i: nat)
    requires i < |fields| && |msg| >= MinSize(fields, |fields|) + SeenDeltas(fields, reader, msg, i)
    ensures SeenOff(fields, reader, msg, i) + fields[i].desc <= |msg|
  {
    SizeExact(fields, Seen(fields, reader, msg, i), i);
    Monotone(fields, i + 1, |fields|);
  }

  /** In an accepted message, whoever sent it, descriptor and data of every field lie inside. */
  lemma FieldInside(fields: seq<Field>, reader: Reader, msg: seq<byte>, i: nat)
    requires i < |fields| && Accepts(fields, reader, msg)
    ensures SeenOff(fields, reader, msg, i) + fields[i].desc
            + (if fields[i].variable then reader.size(i, SeenDesc(fields, reader, msg, i)) else fields[i].room) <= |msg|
  {
    var n := |fields|;
    var all := Seen(fields, reader, msg, n);
    SeenPrefix(fields, reader, msg, i, n);
    SeenPrefix(fields, reader, msg, i + 1, n);
    SeenNext(fields, reader, msg, i);
    assert all[..i + 1][i] == all[i];
    PrefixSame(fields, all, Seen(fields, reader, msg, i), i);
    WireMonotone(fields, all, i, n);
    SizeExact(fields, all, n);
  }

  // The generated code computes in unsigned int and reads at addresses that wrap.

  function Unsigned(x: int): (r: nat)
    ensures r < WORD && (0 <= x < WORD ==> r == x)
  {
    x % WORD
  }

  /** The byte at a distance from the start of the message: of the message, or of the memory around it. */
  function ByteAt(msg: seq<byte>, mem: nat -> byte, at: int): byte {
    var k := Unsigned(at); if k < |msg| then msg[k] else mem(k)
  }

  function Fetch(msg: seq<byte>, mem: nat -> byte, at: int, n: nat): (r: seq<byte>)
    ensures |r| == n
  {
    seq<byte>(n, k requires 0 <= k < n => ByteAt(msg, mem, at + k))
  }

  lemma FetchInside(msg: seq<byte>, mem: nat -> byte, at: nat, n: nat)
    requires at + n <= |msg| < WORD
    ensures Fetch(msg, mem, at, n) == msg[at..at + n]
  {
    var r := Fetch(msg, mem, at, n);
    forall k | 0 <= k < n ensures r[k] == msg[at..at + n][k] {
      assert r[k] == ByteAt(msg, mem, at + k) == msg[at + k];
    }
  }

  /** The variables of the checking code: pointer, what is left of msgh_size, place in the structure, and
      msgh_size_delta of a variable field the pointer has not passed yet. */
  datatype Receiver = Receiver(inP: int, rem: nat, off: nat, delta: nat, last: bool)

  /** rtNumRequestVar and rtMaxRequestPos. */
  function NumVar(fields: seq<Field>): nat { Pos(fields, |fields|) }

  function MaxPos(fields: seq<Field>): nat
    requires |fields| > 0
  {
    Pos(fields, |fields| - 1)
  }

  /** WriteAdjustRequestMsgPtr, if it is due before field `i`. */
  function Advance(fields: seq<Field>, i: nat, s: Receiver): int
    requires i < |fields|
  {
    if s.last && i > 0 && Pos(fields, i - 1) < Pos(fields, i) then s.inP + s.delta - fields[i - 1].room else s.inP
  }

  /** No argument, or no variable one, follows. */
  predicate LastVar(fields: seq<Field>, i: nat)
    requires i < |fields|
  {
    Pos(fields, i) == MaxPos(fields) || Pos(fields, i) + 1 == NumVar(fields)
  }

  /** WriteCheckMsgSize for variable field `i`: nothing if the message is refused, otherwise what is left of
      msgh_size. */
  function CheckMsgSize(fields: seq<Field>, i: nat, rem: nat, delta: nat): Option<nat>
    requires i < |fields|
  {
    var need := Unsigned(MinSize(fields, |fields|) + delta);
    if LastVar(fields, i) then
      if rem != need then None else Some(rem)
    else
      if rem < need then None else Some(Unsigned(rem - delta))
  }

  /** One field of WriteTypeCheckRequestArgs. */
  function CheckOne(fields: seq<Field>, reader: Reader, msg: seq<byte>, mem: nat -> byte, i: nat, s: Receiver)
    : Option<Receiver>
    requires i < |fields|
  {
    var inP := Advance(fields, i, s);
    var desc := Fetch(msg, mem, inP + s.off, fields[i].desc);
    var off := s.off + fields[i].desc + fields[i].room;
    if !reader.ok(i, desc) then None
    else if !fields[i].variable then Some(Receiver(inP, s.rem, off, 0, false))
    else
      var delta := Unsigned(reader.size(i, desc));
      var rem := CheckMsgSize(fields, i, s.rem, delta);
      if rem.None? then None else Some(Receiver(inP, rem.value, off, delta, true))
  }

  function CheckFrom(fields: seq<Field>, reader: Reader, msg: seq<byte>, mem: nat -> byte, i: nat, s: Receiver): bool
    requires i <= |fields|
    decreases |fields| - i
  {
    if i == |fields| then true
    else
      var next := CheckOne(fields, reader, msg, mem, i, s);
      next.Some? && CheckFrom(fields, reader, msg, mem, i + 1, next.value)
  }

  /** WriteCheckHead. */
  predicate HeadOk(fields: seq<Field>, size: nat) {
    if NumVar(fields) > 0 then size >= MinSize(fields, |fields|) else size == MinSize(fields, |fields|)
  }

  function AtStart(msg: seq<byte>): Receiver { Receiver(0, |msg|, HEADER, 0, false) }

  /** The message passes all the checks. */
  predicate Passes(fields: seq<Field>, reader: Reader, msg: seq<byte>, mem: nat -> byte) {
    HeadOk(fields, |msg|) && CheckFrom(fields, reader, msg, mem, 0, AtStart(msg))
  }

  /** The size in the descriptor of variable field `i` leaves the sum with the minimum size an unsigned int. */
  predicate SmallAt(fields: seq<Field>, reader: Reader, msg: seq<byte>, i: nat)
    requires i < |fields|
  {
    fields[i].variable ==> MinSize(fields, |fields|) + reader.size(i, SeenDesc(fields, reader, msg, i)) < WORD
  }

  predicate NoWrap(fields: seq<Field>, reader: Reader, msg: seq<byte>) {
    forall i :: 0 <= i < |fields| ==> SmallAt(fields, reader, msg, i)
  }

  /** What has been established about the size before field `i`. */
  predicate SizesChecked(fields: seq<Field>, reader: Reader, msg: seq<byte>, i: nat, rem: nat)
    requires i <= |fields|
  {
    var min := MinSize(fields, |fields|);
    if Pos(fields, i) < NumVar(fields) then rem == |msg| - SeenDeltas(fields, reader, msg, i) && rem >= min
    else |msg| == min + SeenDeltas(fields, reader, msg, i)
  }

  predicate PointerAt(fields: seq<Field>, reader: Reader, msg: seq<byte>, i: nat, s: Receiver)
    requires i <= |fields|
  {
    if s.last then
      && i > 0 && fields[i - 1].variable && s.inP == Shift(fields, Seen(fields, reader, msg, i - 1), i - 1)
      && s.delta == Seen(fields, reader, msg, i)[i - 1]
    else s.inP == Shift(fields, Seen(fields, reader, msg, i), i)
  }

  predicate Checked(fields: seq<Field>, reader: Reader, msg: seq<byte>, i: nat, s: Receiver)
    requires i <= |fields|
  {
    && s.off == StructOff(fields, i) && PointerAt(fields, reader, msg, i, s)
    && SizesChecked(fields, reader, msg, i, s.rem) && DescsOk(fields, reader, msg, i)
  }

  /** A variable field at the highest position is the last field. */
  lemma LastField(fields: seq<Field>, i: nat)
    requires i < |fields| && fields[i].variable && Pos(fields, i) == MaxPos(fields)
    ensures i == |fields| - 1
  {
    if i < |fields| - 1 { Monotone(fields, i + 1, |fields| - 1); }
  }

  lemma LastVarPos(fields: seq<Field>, i: nat)
    requires i < |fields| && fields[i].variable
    ensures Pos(fields, i) < Pos(fields, i + 1) <= NumVar(fields)
    ensures LastVar(fields, i) <==> Pos(fields, i + 1) == NumVar(fields)
  {
    Monotone(fields, i + 1, |fields|);
    if Pos(fields, i) == MaxPos(fields) { LastField(fields, i); }
  }

  /** A size check fails only if the message cannot have the right size, and otherwise keeps the account. */
  lemma SizeCheckExact(fields: seq<Field>, reader: Reader, msg: seq<byte>, i: nat, rem: nat)
    requires i < |fields| && fields[i].variable && SizesChecked(fields, reader, msg, i, rem)
    requires SmallAt(fields, reader, msg, i) && |msg| < WORD
    ensures var r := CheckMsgSize(fields, i, rem, reader.size(i, SeenDesc(fields, reader, msg, i)));
            if r.Some? then SizesChecked(fields, reader, msg, i + 1, r.value)
            else |msg| != MinSize(fields, |fields|) + SeenDeltas(fields, reader, msg, |fields|)
  {
    var size := reader.size(i, SeenDesc(fields, reader, msg, i));
    LastVarPos(fields, i);
    SizeCheckCases(fields, i, rem, size);
    NextDeltas(fields, reader, msg, i);
  }

  lemma NextDeltas(fields: seq<Field>, reader: Reader, msg: seq<byte>, i: nat)
    requires i < |fields| && fields[i].variable
    ensures var next := SeenDeltas(fields, reader, msg, i) + reader.size(i, SeenDesc(fields, reader, msg, i));
            && SeenDeltas(fields, reader, msg, i + 1) == next <= SeenDeltas(fields, reader, msg, |fields|)
            && (Pos(fields, i + 1) == NumVar(fields) ==> SeenDeltas(fields, reader, msg, |fields|) == next)
  {
    SeenNext(fields, reader, msg, i);
    DeltasGrow(fields, reader, msg, i + 1, |fields|);
  }

  lemma SizeCheckCases(fields: seq<Field>, i: nat, rem: nat, size: nat)
    requires i < |fields| && fields[i].variable && MinSize(fields, |fields|) + size < WORD && rem < WORD
    ensures var min := MinSize(fields, |fields|);
            CheckMsgSize(fields, i, rem, size) ==
            if LastVar(fields, i) then
              if rem == min + size then Some(rem) else None
            else if rem >= min + size then Some(rem - size) else None
  {
  }

  /** The pointer is where the next fields are. */
  lemma AdvanceExact(fields: seq<Field>, reader: Reader, msg: seq<byte>, i: nat, s: Receiver)
    requires i < |fields| && PointerAt(fields, reader, msg, i, s) && s.off == StructOff(fields, i)
    ensures Advance(fields, i, s) == Shift(fields, Seen(fields, reader, msg, i), i)
    ensures Advance(fields, i, s) + s.off == SeenOff(fields, reader, msg, i)
  {
    if s.last { SeenNext(fields, reader, msg, i - 1); }
    PointerLands(fields, Seen(fields, reader, msg, i), i);
  }

  lemma EnoughSoFar(fields: seq<Field>, reader: Reader, msg: seq<byte>, i: nat, rem: nat)
    requires i <= |fields| && SizesChecked(fields, reader, msg, i, rem)
    ensures |msg| >= MinSize(fields, |fields|) + SeenDeltas(fields, reader, msg, i)
  {
  }

  /** The descriptor read for field `i` is that of the field, and inside the message. */
  lemma FetchesField(fields: seq<Field>, reader: Reader, msg: seq<byte>, mem: nat -> byte, i: nat, s: Receiver)
    requires i < |fields| && Checked(fields, reader, msg, i, s) && |msg| < WORD
    ensures Advance(fields, i, s) + s.off == SeenOff(fields, reader, msg, i)
    ensures SeenOff(fields, reader, msg, i) + fields[i].desc <= |msg|
    ensures Fetch(msg, mem, Advance(fields, i, s) + s.off, fields[i].desc) == SeenDesc(fields, reader, msg, i)
  {
    AdvanceExact(fields, reader, msg, i, s);
    EnoughSoFar(fields, reader, msg, i, s.rem);
    DescriptorInside(fields, reader, msg, i);
    FetchDesc(msg, mem, SeenOff(fields, reader, msg, i), fields[i].desc);
  }

  lemma FetchDesc(msg: seq<byte>, mem: nat -> byte, at: nat, n: nat)
    requires at + n <= |msg| < WORD
    ensures Fetch(msg, mem, at, n) == DescBytes(msg, at, n)
  {
    FetchInside(msg, mem, at, n);
  }

  /** Once its size has been checked, field `i` lies inside the message, whatever follows it. */
  lemma InsideSoFar(fields: seq<Field>, reader: Reader, msg: seq<byte>, i: nat, rem: nat)
    requires i < |fields| && SizesChecked(fields, reader, msg, i + 1, rem)
    ensures SeenOff(fields, reader, msg, i) + fields[i].desc
            + (if fields[i].variable then reader.size(i, SeenDesc(fields, reader, msg, i)) else fields[i].room) <= |msg|
  {
    EnoughSoFar(fields, reader, msg, i + 1, rem);
    SeenNext(fields, reader, msg, i);
    var seen := Seen(fields, reader, msg, i + 1);
    PrefixSame(fields, seen, Seen(fields, reader, msg, i), i);
    SizeExact(fields, seen, i + 1);
    Monotone(fields, i + 1, |fields|);
  }

  /** One field's checks keep the account, or refuse a message that is not acceptable. */
  lemma CheckOneExact(fields: seq<Field>, reader: Reader, msg: seq<byte>, mem: nat -> byte, i: nat, s: Receiver)
    requires i < |fields| && Checked(fields, reader, msg, i, s)
    requires SmallAt(fields, reader, msg, i) && |msg| < WORD
    ensures var next := CheckOne(fields, reader, msg, mem, i, s);
            if next.Some? then Checked(fields, reader, msg, i + 1, next.value) else !Accepts(fields, reader, msg)
  {
    AdvanceExact(fields, reader, msg, i, s);
    FetchesField(fields, reader, msg, mem, i, s);
    SeenNext(fields, reader, msg, i);
    if fields[i].variable { SizeCheckExact(fields, reader, msg, i, s.rem); }
  }

  lemma {:induction false} CheckFromExact(fields: seq<Field>, reader: Reader, msg: seq<byte>, mem: nat -> byte, i: nat,
                                          s: Receiver)
    requires i <= |fields| && Checked(fields, reader, msg, i, s)
    requires NoWrap(fields, reader, msg) && |msg| < WORD
    ensures CheckFrom(fields, reader, msg, mem, i, s) <==> Accepts(fields, reader, msg)
    decreases |fields| - i
  {
    if i < |fields| {
      assert SmallAt(fields, reader, msg, i);
      CheckOneExact(fields, reader, msg, mem, i, s);
      var next := CheckOne(fields, reader, msg, mem, i, s);
      if next.Some? { CheckFromExact(fields, reader, msg, mem, i + 1, next.value); }
    }
  }

  /** If no size wraps, the generated code accepts a message exactly when every descriptor, at the place where
      its pointers land, is the expected one and the size is the minimum size plus the sizes of the variable
      fields, whatever the memory around the message holds. */
  lemma PassesExactly(fields: seq<Field>, reader: Reader, msg: seq<byte>, mem: nat -> byte)
    requires |msg| < WORD && NoWrap(fields, reader, msg)
    ensures Passes(fields, reader, msg, mem) <==> Accepts(fields, reader, msg)
  {
    DeltasGrow(fields, reader, msg, 0, |fields|);
    if HeadOk(fields, |msg|) { CheckFromExact(fields, reader, msg, mem, 0, AtStart(msg)); }
  }

  /** The fields that the descriptors describe are inside the message. */
  predicate AllInside(fields: seq<Field>, reader: Reader, msg: seq<byte>) {
    MinSize(fields, |fields|) + SeenDeltas(fields, reader, msg, |fields|) <= |msg|
  }

  lemma InsideIsSmall(fields: seq<Field>, reader: Reader, msg: seq<byte>)
    requires |msg| < WORD && AllInside(fields, reader, msg)
    ensures NoWrap(fields, reader, msg)
  {
    forall i | 0 <= i < |fields| ensures SmallAt(fields, reader, msg, i) {
      SeenNext(fields, reader, msg, i);
      DeltasGrow(fields, reader, msg, i + 1, |fields|);
    }
  }

  /** The fields of a message that has passed the checks are inside it if and only if no size wrapped. */
  lemma InsideExactly(fields: seq<Field>, reader: Reader, msg: seq<byte>, mem: nat -> byte)
    requires |msg| < WORD && Passes(fields, reader, msg, mem)
    ensures AllInside(fields, reader, msg) <==> NoWrap(fields, reader, msg)
    ensures NoWrap(fields, reader, msg) ==> Accepts(fields, reader, msg)
  {
    if AllInside(fields, reader, msg) { InsideIsSmall(fields, reader, msg); }
    if NoWrap(fields, reader, msg) { PassesExactly(fields, reader, msg, mem); }
  }

  /** A message of one variable field: the size that must match has wrapped. */
  lemma OneFieldPasses(f: Field, reader: Reader, msg: seq<byte>, mem: nat -> byte)
    requires f.variable && HEADER + f.desc <= |msg| < WORD
    ensures var fields, desc := [f], msg[HEADER..HEADER + f.desc];
            && SeenOff(fields, reader, msg, 0) == HEADER && SeenDesc(fields, reader, msg, 0) == desc
            && MinSize(fields, 1) == HEADER + f.desc
            && (Passes(fields, reader, msg, mem) <==>
                  reader.ok(0, desc) && |msg| == Unsigned(HEADER + f.desc + Unsigned(reader.size(0, desc))))
  {
    var fields := [f];
    assert Pos(fields, 0) == 0 && NumVar(fields) == 1 && LastVar(fields, 0) && MinSize(fields, 0) == HEADER;
    FetchInside(msg, mem, HEADER, f.desc);
    var next := CheckOne(fields, reader, msg, mem, 0, AtStart(msg));
    assert next.Some? ==> CheckFrom(fields, reader, msg, mem, 1, next.value);
  }

  /** The generated checking code, field by field. */
  method Check(fields: seq<Field>, reader: Reader, msg: seq<byte>, mem: nat -> byte) returns (ok: bool)
    requires |msg| < WORD
    ensures ok == Passes(fields, reader, msg, mem)
    ensures NoWrap(fields, reader, msg) ==> (ok <==> Accepts(fields, reader, msg))
    ensures ok ==> (AllInside(fields, reader, msg) <==> NoWrap(fields, reader, msg))
  {
    if NoWrap(fields, reader, msg) { PassesExactly(fields, reader, msg, mem); }
    if !HeadOk(fields, |msg|) {
      return false;
    }
    var s := AtStart(msg);
    for i := 0 to |fields|
      invariant CheckFrom(fields, reader, msg, mem, i, s) == Passes(fields, reader, msg, mem)
    {
      var next := CheckOne(fields, reader, msg, mem, i, s);
      if next.None? {
        return false;
      }
      s := next.value;
    }
    ok := true;
    InsideExactly(fields, reader, msg, mem);
  }

  // ---------------------------------------------------------------- checking and extracting field by field

  /** What the code stores for field `i` found at a place, and whether it returns after that. */
  datatype Taker<!T> = Taker(value: (nat, int) -> T, stop: (nat, T) -> bool)

  /** What has been stored when the code is through, when it has returned early, and when a check has failed. */
  datatype Taking<T> = Done(vals: seq<T>) | Stopped(vals: seq<T>) | Refused(vals: seq<T>)

  /** The code from field `i` on, which extracts a field as soon as it has checked it. */
  function TakeFrom<T>(fields: seq<Field>, reader: Reader, taker: Taker<T>, msg: seq<byte>, mem: nat -> byte, i: nat,
                       s: Receiver, vals: seq<T>): Taking<T>
    requires i <= |fields|
    decreases |fields| - i
  {
    if i == |fields| then Done(vals)
    else
      var next := CheckOne(fields, reader, msg, mem, i, s);
      if next.None? then Refused(vals)
      else
        var v := taker.value(i, next.value.inP + s.off);
        if taker.stop(i, v) then Stopped(vals + [v])
        else TakeFrom(fields, reader, taker, msg, mem, i + 1, next.value, vals + [v])
  }

  function SizeAt(fields: seq<Field>, reader: Reader, msg: seq<byte>, i: nat): nat
    requires i < |fields|
  {
    if fields[i].variable then reader.size(i, SeenDesc(fields, reader, msg, i)) else fields[i].room
  }

  /** The checks of field `i` alone: its descriptor, and the size of the message as far as it is known. */
  predicate FieldFine(fields: seq<Field>, reader: Reader, msg: seq<byte>, i: nat)
    requires i < |fields|
  {
    && reader.ok(i, SeenDesc(fields, reader, msg, i))
    && (fields[i].variable ==>
          var need := MinSize(fields, |fields|) + SeenDeltas(fields, reader, msg, i + 1);
          if LastVar(fields, i) then |msg| == need else |msg| >= need)
  }

  lemma CheckOneFine(fields: seq<Field>, reader: Reader, msg: seq<byte>, mem: nat -> byte, i: nat, s: Receiver)
    requires i < |fields| && Checked(fields, reader, msg, i, s)
    requires SmallAt(fields, reader, msg, i) && |msg| < WORD
    ensures CheckOne(fields, reader, msg, mem, i, s).Some? <==> FieldFine(fields, reader, msg, i)
  {
    FetchesField(fields, reader, msg, mem, i, s);
    if fields[i].variable {
      LastVarPos(fields, i);
      NextDeltas(fields, reader, msg, i);
      SizeCheckCases(fields, i, s.rem, reader.size(i, SeenDesc(fields, reader, msg, i)));
    }
  }

  /** The value stored for field `i` is taken from where the field is, all of it inside the message. */
  predicate TakenAt<T(==)>(fields: seq<Field>, reader: Reader, taker: Taker<T>, msg: seq<byte>, i: nat, v: T)
    requires i < |fields|
  {
    && v == taker.value(i, SeenOff(fields, reader, msg, i)) && FieldFine(fields, reader, msg, i)
    && SeenOff(fields, reader, msg, i) + fields[i].desc + SizeAt(fields, reader, msg, i) <= |msg|
  }

  predicate AllTaken<T(==)>(fields: seq<Field>, reader: Reader, taker: Taker<T>, msg: seq<byte>, vals: seq<T>) {
    |vals| <= |fields| && forall j :: 0 <= j < |vals| ==> TakenAt(fields, reader, taker, msg, j, vals[j])
  }

  predicate NoneStops<T>(taker: Taker<T>, vals: seq<T>, n: nat) {
    n <= |vals| && forall j :: 0 <= j < n ==> !taker.stop(j, vals[j])
  }

  /** What has been stored, and why the code is at its end. */
  predicate TakenWell<T(==)>(fields: seq<Field>, reader: Reader, taker: Taker<T>, msg: seq<byte>, r: Taking<T>) {
    && AllTaken(fields, reader, taker, msg, r.vals)
    && match r
       case Done(vals) => |vals| == |fields| && NoneStops(taker, vals, |vals|) && Accepts(fields, reader, msg)
       case Stopped(vals) =>
         vals != [] && NoneStops(taker, vals, |vals| - 1) && taker.stop(|vals| - 1, vals[|vals| - 1])
       case Refused(vals) =>
         && |vals| < |fields| && NoneStops(taker, vals, |vals|)
         && !FieldFine(fields, reader, msg, |vals|) && !Accepts(fields, reader, msg)
  }

  lemma NoneStopsNext<T>(taker: Taker<T>, vals: seq<T>, v: T)
    requires NoneStops(taker, vals, |vals|)
    ensures NoneStops(taker, vals + [v], |vals|)
    ensures !taker.stop(|vals|, v) ==> NoneStops(taker, vals + [v], |vals| + 1)
  {
  }

  lemma CheckedAll(fields: seq<Field>, reader: Reader, msg: seq<byte>, s: Receiver)
    requires Checked(fields, reader, msg, |fields|, s)
    ensures Accepts(fields, reader, msg)
  {
  }

  method TakeFields<T>(fields: seq<Field>, reader: Reader, taker: Taker<T>, msg: seq<byte>, mem: nat -> byte)
    returns (r: Taking<T>)
    ensures r == TakeFrom(fields, reader, taker, msg, mem, 0, AtStart(msg), [])
  {
    var s, vals := AtStart(msg), [];
    for i := 0 to |fields|
      invariant TakeFrom(fields, reader, taker, msg, mem, i, s, vals)
             == TakeFrom(fields, reader, taker, msg, mem, 0, AtStart(msg), [])
    {
      var next := CheckOne(fields, reader, msg, mem, i, s);
      if next.None? {
        return Refused(vals);
      }
      var v := taker.value(i, next.value.inP + s.off);
      vals := vals + [v];
      if taker.stop(i, v) {
        return Stopped(vals);
      }
      s := next.value;
    }
    r := Done(vals);
  }

  // ---------------------------------------------------------------- when a size has wrapped

  /** The sizes as the code has them, in unsigned int. */
  function Wrapped(reader: Reader): Reader { Reader(reader.ok, (i: nat, b: seq<byte>) => Unsigned(reader.size(i, b))) }

  /** The code cannot tell a size from what is left of it. */
  lemma CheckOneWrapped(fields: seq<Field>, reader: Reader, msg: seq<byte>, mem: nat -> byte, i: nat, s: Receiver)
    requires i < |fields|
    ensures CheckOne(fields, Wrapped(reader), msg, mem, i, s) == CheckOne(fields, reader, msg, mem, i, s)
  {
    var desc := Fetch(msg, mem, Advance(fields, i, s) + s.off, fields[i].desc);
    assert Unsigned(Unsigned(reader.size(i, desc))) == Unsigned(reader.size(i, desc));
  }

  lemma {:induction false} TakeFromWrapped<T>(fields: seq<Field>, reader: Reader, taker: Taker<T>, msg: seq<byte>,
                                              mem: nat -> byte, i: nat, s: Receiver, vals: seq<T>)
    requires i <= |fields|
    ensures TakeFrom(fields, Wrapped(reader), taker, msg, mem, i, s, vals)
         == TakeFrom(fields, reader, taker, msg, mem, i, s, vals)
    decreases |fields| - i
  {
    if i < |fields| {
      CheckOneWrapped(fields, reader, msg, mem, i, s);
      var next := CheckOne(fields, reader, msg, mem, i, s);
      if next.Some? {
        var v := taker.value(i, next.value.inP + s.off);
        TakeFromWrapped(fields, reader, taker, msg, mem, i + 1, next.value, vals + [v]);
      }
    }
  }

  /** None of the first `n` sizes makes the sum with the minimum size wrap. */
  predicate SmallTo(fields: seq<Field>, reader: Reader, msg: seq<byte>, n: nat)
    requires n <= |fields|
  {
    forall j :: 0 <= j < n ==> SmallAt(fields, reader, msg, j)
  }

  /** As long as none before it has wrapped: the value stored for field `j` is taken from where the field is, its
      descriptor is inside the message, and so is the field unless its own size wraps. */
  predicate Located<T(==)>(fields: seq<Field>, reader: Reader, taker: Taker<T>, msg: seq<byte>, j: nat, v: T)
    requires j < |fields|
  {
    SmallTo(fields, reader, msg, j) ==>
      && v == taker.value(j, SeenOff(fields, reader, msg, j))
      && SeenOff(fields, reader, msg, j) + fields[j].desc <= |msg|
      && (SmallAt(fields, reader, msg, j) ==> TakenAt(fields, reader, taker, msg, j, v))
  }

  predicate AllLocated<T(==)>(fields: seq<Field>, reader: Reader, taker: Taker<T>, msg: seq<byte>, vals: seq<T>) {
    |vals| <= |fields| && forall j :: 0 <= j < |vals| ==> Located(fields, reader, taker, msg, j, vals[j])
  }

  /** Only the last value stored can have ended the code, and only in a message that is not acceptable has a check
      failed. */
  predicate EndsWell<T>(fields: seq<Field>, reader: Reader, taker: Taker<T>, msg: seq<byte>, r: Taking<T>) {
    && |r.vals| <= |fields| && (r.vals != [] ==> NoneStops(taker, r.vals, |r.vals| - 1))
    && match r
       case Done(vals) =>
         |vals| == |fields| && NoneStops(taker, vals, |vals|)
         && (SmallTo(fields, reader, msg, |vals|) ==> Accepts(fields, reader, msg))
       case Stopped(vals) => vals != [] && taker.stop(|vals| - 1, vals[|vals| - 1])
       case Refused(vals) =>
         |vals| < |fields| && NoneStops(taker, vals, |vals|)
         && (SmallTo(fields, reader, msg, |vals|) ==>
               && !Accepts(fields, reader, msg)
               && (SmallAt(fields, reader, msg, |vals|) ==> !FieldFine(fields, reader, msg, |vals|)))
  }

  lemma LocateOne<T>(fields: seq<Field>, reader: Reader, taker: Taker<T>, msg: seq<byte>, mem: nat -> byte, i: nat,
                     s: Receiver)
    requires i < |fields| && Checked(fields, reader, msg, i, s) && |msg| < WORD
    requires CheckOne(fields, reader, msg, mem, i, s).Some?
    ensures var next := CheckOne(fields, reader, msg, mem, i, s).value;
            && Located(fields, reader, taker, msg, i, taker.value(i, next.inP + s.off))
            && (SmallAt(fields, reader, msg, i) ==> Checked(fields, reader, msg, i + 1, next))
  {
    FetchesField(fields, reader, msg, mem, i, s);
    if SmallAt(fields, reader, msg, i) {
      CheckOneFine(fields, reader, msg, mem, i, s);
      CheckOneExact(fields, reader, msg, mem, i, s);
      InsideSoFar(fields, reader, msg, i, CheckOne(fields, reader, msg, mem, i, s).value.rem);
    }
  }

  lemma RefusedOne(fields: seq<Field>, reader: Reader, msg: seq<byte>, mem: nat -> byte, i: nat, s: Receiver)
    requires i < |fields| && Checked(fields, reader, msg, i, s) && |msg| < WORD
    requires CheckOne(fields, reader, msg, mem, i, s).None?
    ensures !Accepts(fields, reader, msg) && (SmallAt(fields, reader, msg, i) ==> !FieldFine(fields, reader, msg, i))
  {
    if SmallAt(fields, reader, msg, i) {
      CheckOneFine(fields, reader, msg, mem, i, s);
      CheckOneExact(fields, reader, msg, mem, i, s);
    } else if Accepts(fields, reader, msg) {
      InsideIsSmall(fields, reader, msg);
    }
  }

  lemma LocatedNext<T>(fields: seq<Field>, reader: Reader, taker: Taker<T>, msg: seq<byte>, vals: seq<T>, v: T)
    requires |vals| < |fields| && AllLocated(fields, reader, taker, msg, vals)
    requires Located(fields, reader, taker, msg, |vals|, v)
    ensures AllLocated(fields, reader, taker, msg, vals + [v])
  {
  }

  lemma LocateStep<T>(fields: seq<Field>, reader: Reader, taker: Taker<T>, msg: seq<byte>, mem: nat -> byte, i: nat,
                      s: Receiver, vals: seq<T>, next: Receiver)
    requires i == |vals| < |fields| && |msg| < WORD && CheckOne(fields, reader, msg, mem, i, s) == Some(next)
    requires SmallTo(fields, reader, msg, i) ==> Checked(fields, reader, msg, i, s)
    requires AllLocated(fields, reader, taker, msg, vals)
    ensures AllLocated(fields, reader, taker, msg, vals + [taker.value(i, next.inP + s.off)])
    ensures SmallTo(fields, reader, msg, i + 1) ==> Checked(fields, reader, msg, i + 1, next)
  {
    if SmallTo(fields, reader, msg, i) { LocateOne(fields, reader, taker, msg, mem, i, s); }
    LocatedNext(fields, reader, taker, msg, vals, taker.value(i, next.inP + s.off));
    assert SmallTo(fields, reader, msg, i + 1) ==>
             SmallTo(fields, reader, msg, i) && SmallAt(fields, reader, msg, i);
  }

  lemma DoneWell<T>(fields: seq<Field>, reader: Reader, taker: Taker<T>, msg: seq<byte>, i: nat, s: Receiver,
                    vals: seq<T>)
    requires i == |vals| == |fields| && NoneStops(taker, vals, i)
    requires SmallTo(fields, reader, msg, i) ==> Checked(fields, reader, msg, i, s)
    ensures EndsWell(fields, reader, taker, msg, Done(vals))
  {
    if SmallTo(fields, reader, msg, i) { CheckedAll(fields, reader, msg, s); }
  }

  lemma RefusedWell<T>(fields: seq<Field>, reader: Reader, taker: Taker<T>, msg: seq<byte>, mem: nat -> byte, i: nat,
                       s: Receiver, vals: seq<T>)
    requires i == |vals| < |fields| && NoneStops(taker, vals, i) && |msg| < WORD
    requires CheckOne(fields, reader, msg, mem, i, s).None?
    requires SmallTo(fields, reader, msg, i) ==> Checked(fields, reader, msg, i, s)
    ensures EndsWell(fields, reader, taker, msg, Refused(vals))
  {
    if SmallTo(fields, reader, msg, i) { RefusedOne(fields, reader, msg, mem, i, s); }
  }

  lemma StoppedWell<T>(fields: seq<Field>, reader: Reader, taker: Taker<T>, msg: seq<byte>, vals: seq<T>, v: T)
    requires |vals| < |fields| && NoneStops(taker, vals, |vals|) && taker.stop(|vals|, v)
    ensures EndsWell(fields, reader, taker, msg, Stopped(vals + [v]))
  {
    NoneStopsNext(taker, vals, v);
  }

  lemma {:induction false} TakeFromLocated<T>(fields: seq<Field>, reader: Reader, taker: Taker<T>, msg: seq<byte>,
                                              mem: nat -> byte, i: nat, s: Receiver, vals: seq<T>, r: Taking<T>)
    requires i == |vals| <= |fields| && |msg| < WORD && NoneStops(taker, vals, i)
    requires SmallTo(fields, reader, msg, i) ==> Checked(fields, reader, msg, i, s)
    requires AllLocated(fields, reader, taker, msg, vals)
    requires r == TakeFrom(fields, reader, taker, msg, mem, i, s, vals)
    ensures AllLocated(fields, reader, taker, msg, r.vals) && EndsWell(fields, reader, taker, msg, r)
    decreases |fields| - i
  {
    if i == |fields| {
      DoneWell(fields, reader, taker, msg, i, s, vals);
    } else {
      var next := CheckOne(fields, reader, msg, mem, i, s);
      if next.None? {
        RefusedWell(fields, reader, taker, msg, mem, i, s, vals);
      } else {
        var v := taker.value(i, next.value.inP + s.off);
        LocateStep(fields, reader, taker, msg, mem, i, s, vals, next.value);
        NoneStopsNext(taker, vals, v);
        if taker.stop(i, v) {
          StoppedWell(fields, reader, taker, msg, vals, v);
        } else {
          TakeFromLocated(fields, reader, taker, msg, mem, i + 1, next.value, vals + [v], r);
        }
      }
    }
  }

  /** Whoever sent the message, as long as no size wraps: everything that has been stored was inside it, where its field
      is; a check that fails leaves exactly the fields before it stored, and fails only in a message that is not
      acceptable. */
  lemma TakesExactly<T>(fields: seq<Field>, reader: Reader, taker: Taker<T>, msg: seq<byte>, mem: nat -> byte)
    requires HeadOk(fields, |msg|) && |msg| < WORD && NoWrap(fields, reader, msg)
    ensures TakenWell(fields, reader, taker, msg, TakeFrom(fields, reader, taker, msg, mem, 0, AtStart(msg), []))
  {
    var r := TakeFrom(fields, reader, taker, msg, mem, 0, AtStart(msg), []);
    TakeFromLocated(fields, reader, taker, msg, mem, 0, AtStart(msg), [], r);
    forall j | 0 <= j < |r.vals| ensures TakenAt(fields, reader, taker, msg, j, r.vals[j]) {
      assert Located(fields, reader, taker, msg, j, r.vals[j]) && SmallAt(fields, reader, msg, j);
    }
    if r.Refused? { assert SmallAt(fields, reader, msg, |r.vals|); }
  }

  /** Whoever sent the message and whatever wraps: values are stored from where their fields are, up to the first
      whose size, as the code has it, makes the sum wrap. */
  lemma TakesLocated<T>(fields: seq<Field>, reader: Reader, taker: Taker<T>, msg: seq<byte>, mem: nat -> byte)
    requires HeadOk(fields, |msg|) && |msg| < WORD
    ensures var r := TakeFrom(fields, reader, taker, msg, mem, 0, AtStart(msg), []);
            AllLocated(fields, Wrapped(reader), taker, msg, r.vals) && EndsWell(fields, Wrapped(reader), taker, msg, r)
  {
    var r := TakeFrom(fields, reader, taker, msg, mem, 0, AtStart(msg), []);
    TakeFromWrapped(fields, reader, taker, msg, mem, 0, AtStart(msg), []);
    TakeFromLocated(fields, Wrapped(reader), taker, msg, mem, 0, AtStart(msg), [], r);
  }

  // ---------------------------------------------------------------- the round trip

  /** The receiver reads a packed descriptor as the sender meant it. */
  predicate Understands(fields: seq<Field>, sizes: seq<nat>, pieces: seq<seq<byte>>, reader: Reader) {
    && |sizes| == |pieces| == |fields|
    && forall i :: 0 <= i < |fields| ==>
         && |pieces[i]| >= fields[i].desc && reader.ok(i, pieces[i][..fields[i].desc])
         && (fields[i].variable ==> reader.size(i, pieces[i][..fields[i].desc]) == sizes[i])
  }

  lemma DescOfPiece(msg: seq<byte>, off: nat, piece: seq<byte>, n: nat)
    requires At(msg, off, piece) && n <= |piece|
    ensures DescBytes(msg, off, n) == piece[..n] && At(msg, off + n, piece[n..])
  {
    assert msg[off..off + n] == msg[off..off + |piece|][..n];
    assert msg[off + n..off + |piece|] == msg[off..off + |piece|][n..];
  }

  /** The receiver has found the sizes the sender computed for the first `i` fields. */
  predicate AsSent(fields: seq<Field>, sizes: seq<nat>, reader: Reader, msg: seq<byte>, i: nat)
    requires i <= |fields| && i <= |sizes|
  {
    forall j :: 0 <= j < i && fields[j].variable ==> Seen(fields, reader, msg, i)[j] == sizes[j]
  }

  lemma AsSentNext(fields: seq<Field>, sizes: seq<nat>, reader: Reader, msg: seq<byte>, i: nat)
    requires i < |fields| && i < |sizes| && AsSent(fields, sizes, reader, msg, i)
    requires fields[i].variable ==> reader.size(i, SeenDesc(fields, reader, msg, i)) == sizes[i]
    ensures AsSent(fields, sizes, reader, msg, i + 1)
  {
    SeenNext(fields, reader, msg, i);
    var s := Seen(fields, reader, msg, i + 1);
    forall j | 0 <= j < i + 1 && fields[j].variable ensures s[j] == sizes[j] {
      if j < i { assert s[j] == Seen(fields, reader, msg, i)[j]; }
    }
  }

  lemma PlacesAsSent(fields: seq<Field>, sizes: seq<nat>, reader: Reader, msg: seq<byte>, i: nat)
    requires i <= |fields| && i <= |sizes| && AsSent(fields, sizes, reader, msg, i)
    ensures SeenOff(fields, reader, msg, i) == WireOff(fields, sizes, i)
            && SeenDeltas(fields, reader, msg, i) == Deltas(fields, sizes, i)
  {
    PrefixSame(fields, Seen(fields, reader, msg, i), sizes, i);
  }

  /** Field `i` is in the message as the sender meant it. */
  predicate Arrives(fields: seq<Field>, sizes: seq<nat>, reader: Reader, msg: seq<byte>, i: nat)
    requires i < |fields| && i < |sizes|
  {
    var desc := DescBytes(msg, WireOff(fields, sizes, i), fields[i].desc);
    reader.ok(i, desc) && (fields[i].variable ==> reader.size(i, desc) == sizes[i])
  }

  lemma PackedArrives(fields: seq<Field>, sizes: seq<nat>, pieces: seq<seq<byte>>, reader: Reader, msg: seq<byte>,
                      i: nat)
    requires Understands(fields, sizes, pieces, reader) && Carries(fields, sizes, pieces, msg) && i < |fields|
    ensures Arrives(fields, sizes, reader, msg, i)
  {
    assert PieceAt(fields, sizes, i, pieces[i], msg);
    DescOfPiece(msg, WireOff(fields, sizes, i), pieces[i], fields[i].desc);
  }

  /** The receiver finds each field where the sender put it. */
  lemma {:induction false} FindsFields(fields: seq<Field>, sizes: seq<nat>, reader: Reader, msg: seq<byte>, i: nat)
    requires i <= |fields| && i <= |sizes| && forall j :: 0 <= j < i ==> Arrives(fields, sizes, reader, msg, j)
    ensures AsSent(fields, sizes, reader, msg, i)
    ensures SeenOff(fields, reader, msg, i) == WireOff(fields, sizes, i)
            && SeenDeltas(fields, reader, msg, i) == Deltas(fields, sizes, i)
  {
    if i > 0 {
      FindsFields(fields, sizes, reader, msg, i - 1);
      assert Arrives(fields, sizes, reader, msg, i - 1);
      AsSentNext(fields, sizes, reader, msg, i - 1);
    }
    PlacesAsSent(fields, sizes, reader, msg, i);
  }

  /** A packed message is accepted, and each piece is where the receiver looks for it. */
  lemma PackedIsAccepted(fields: seq<Field>, sizes: seq<nat>, pieces: seq<seq<byte>>, reader: Reader, msg: seq<byte>)
    requires Understands(fields, sizes, pieces, reader) && Carries(fields, sizes, pieces, msg)
    requires |msg| == MinSize(fields, |fields|) + Deltas(fields, sizes, |fields|)
    ensures Accepts(fields, reader, msg)
    ensures forall i :: 0 <= i < |fields| ==> At(msg, SeenOff(fields, reader, msg, i), pieces[i])
  {
    forall i | 0 <= i < |fields| ensures Arrives(fields, sizes, reader, msg, i) {
      PackedArrives(fields, sizes, pieces, reader, msg, i);
    }
    FindsFields(fields, sizes, reader, msg, |fields|);
    forall i | 0 <= i < |fields|
      ensures reader.ok(i, SeenDesc(fields, reader, msg, i)) && At(msg, SeenOff(fields, reader, msg, i), pieces[i])
    {
      FindsFields(fields, sizes, reader, msg, i);
      assert Arrives(fields, sizes, reader, msg, i) && PieceAt(fields, sizes, i, pieces[i], msg);
    }
  }
}
