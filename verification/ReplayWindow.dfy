/** The 256-bit anti-replay window of the secure datagram layer.

    `Window` is the value the rest of the model reasons about: the highest sequence number and
    the set of marked distances below it. `ReplayWindow256` is the program's form, 32 bytes
    shifted in place. `Represents` ties a window to the set of every sequence number that was
    ever accepted, which is what the window is for. */
module ReplayWindow {
  import opened Bits
  import opened Words

  const WINDOW: nat := 256
  const BYTES: nat := WINDOW / 8

  datatype Window = Window(valid: bool, maxSeq: u64, marks: set<nat>)

  const EMPTY_WINDOW := Window(false, 0, {})

  // ----- the 32-byte bitmap

  predicate TestBit(b: seq<bv8>, idx: nat)
    requires |b| == BYTES && idx < WINDOW
  {
    ByteBit(b[idx / 8], idx % 8)
  }

  function Marks(b: seq<bv8>): set<nat>
    requires |b| == BYTES
  {
    set d: nat | d < WINDOW && TestBit(b, d)
  }

  /** Marks moved `shift` places further from the maximum; those past the window are forgotten. */
  function Shifted(marks: set<nat>, shift: nat): set<nat> {
    set d: nat | d < WINDOW && CameFrom(marks, shift, d)
  }

  predicate CameFrom(marks: set<nat>, shift: nat, d: nat) {
    d >= shift && d - shift in marks
  }

  function BytesMoved(b: seq<bv8>, n: nat): seq<bv8>
    requires |b| == BYTES
  {
    seq(BYTES, k requires 0 <= k < BYTES => if k >= n then b[k - n] else 0)
  }

  function BitsMoved(b: seq<bv8>, s: nat): seq<bv8>
    requires |b| == BYTES && 0 < s < 8
  {
    seq(BYTES, k requires 0 <= k < BYTES => BitsMovedByte(b, s, k))
  }

  function BitsMovedByte(b: seq<bv8>, s: nat, k: nat): bv8
    requires |b| == BYTES && 0 < s < 8 && k < BYTES
  {
    WithCarry(b[k], if k == 0 then 0 else b[k - 1], s)
  }

  function WithCarry(x: bv8, below: bv8, s: nat): bv8
    requires 0 < s < 8
  {
    Shl(x, s) | Shr(below, 8 - s)
  }

  lemma BytesMovedBit(b: seq<bv8>, n: nat, d: nat)
    requires |b| == BYTES && d < WINDOW
    ensures TestBit(BytesMoved(b, n), d) <==> d >= 8 * n && TestBit(b, d - 8 * n)
  {
    if d / 8 < n {
      ZeroBit(d % 8);
    }
  }

  lemma WithCarryBit(x: bv8, below: bv8, s: nat, j: nat)
    requires 0 < s < 8 && j < 8
    ensures ByteBit(WithCarry(x, below, s), j) <==> if j >= s then ByteBit(x, j - s) else ByteBit(below, j + 8 - s)
  {
    hide ByteBit, Shl, Shr;
    OrBit(Shl(x, s), Shr(below, 8 - s), j);
    ShlBit(x, s, j);
    ShrBit(below, 8 - s, j);
  }

  lemma BitsMovedBit(b: seq<bv8>, s: nat, d: nat)
    requires |b| == BYTES && 0 < s < 8 && d < WINDOW
    ensures TestBit(BitsMoved(b, s), d) <==> d >= s && TestBit(b, d - s)
  {
    hide ByteBit, WithCarry;
    var k, j := d / 8, d % 8;
    WithCarryBit(b[k], if k == 0 then 0 else b[k - 1], s, j);
    if j >= s {
      assert (d - s) / 8 == k && (d - s) % 8 == j - s;
    } else if k > 0 {
      assert (d - s) / 8 == k - 1 && (d - s) % 8 == j + 8 - s;
    } else {
      ZeroBit(j + 8 - s);
    }
  }

  lemma BytesMovedMarks(b: seq<bv8>, n: nat)
    requires |b| == BYTES
    ensures Marks(BytesMoved(b, n)) == Shifted(Marks(b), 8 * n)
  {
    forall d: nat | d < WINDOW
      ensures TestBit(BytesMoved(b, n), d) <==> d >= 8 * n && TestBit(b, d - 8 * n)
    {
      BytesMovedBit(b, n, d);
    }
  }

  lemma BitsMovedMarks(b: seq<bv8>, s: nat)
    requires |b| == BYTES && 0 < s < 8
    ensures Marks(BitsMoved(b, s)) == Shifted(Marks(b), s)
  {
    forall d: nat | d < WINDOW
      ensures TestBit(BitsMoved(b, s), d) <==> d >= s && TestBit(b, d - s)
    {
      BitsMovedBit(b, s, d);
    }
  }

  lemma ShiftedTwice(marks: set<nat>, a: nat, b: nat)
    requires forall m :: m in marks ==> m < WINDOW
    ensures Shifted(Shifted(marks, a), b) == Shifted(marks, a + b)
  {
    forall d: nat | d < WINDOW
      ensures d in Shifted(Shifted(marks, a), b) <==> d in Shifted(marks, a + b)
    {
      if d >= a + b {
        assert d - b - a == d - (a + b);
        assert d - b in Shifted(marks, a) <==> d - b - a in marks;
      }
    }
  }

  lemma ShiftedByNothing(b: seq<bv8>)
    requires |b| == BYTES
    ensures Shifted(Marks(b), 0) == Marks(b) && BytesMoved(b, 0) == b
  {
    hide TestBit;
    assert forall d: nat :: d < WINDOW ==> (CameFrom(Marks(b), 0, d) <==> d in Marks(b));
  }

  lemma ShiftedAway(marks: set<nat>, shift: nat)
    requires shift >= WINDOW
    ensures Shifted(marks, shift) == {}
  {
  }

  /** Whole bytes first, then the remaining bits. */
  lemma ShiftComposes(b: seq<bv8>, n: nat, s: nat)
    requires |b| == BYTES && s < 8
    ensures |BytesMoved(b, n)| == BYTES
    ensures Marks(BytesMoved(b, n)) == Shifted(Marks(b), 8 * n)
    ensures s > 0 ==> |BitsMoved(BytesMoved(b, n), s)| == BYTES
    ensures s > 0 ==> Marks(BitsMoved(BytesMoved(b, n), s)) == Shifted(Marks(b), 8 * n + s)
  {
    hide TestBit, Shifted;
    BytesMovedMarks(b, n);
    if s > 0 {
      BitsMovedMarks(BytesMoved(b, n), s);
      ShiftedTwice(Marks(b), 8 * n, s);
    }
  }

  lemma SetBitMarks(b: seq<bv8>, idx: nat)
    requires |b| == BYTES && idx < WINDOW
    ensures Marks(b[idx / 8 := b[idx / 8] | (1 << (idx % 8))]) == Marks(b) + {idx}
  {
    var b' := b[idx / 8 := b[idx / 8] | (1 << (idx % 8))];
    forall d: nat | d < WINDOW
      ensures TestBit(b', d) <==> TestBit(b, d) || d == idx
    {
      if d / 8 == idx / 8 {
        OrBit(b[idx / 8], 1 << (idx % 8), d % 8);
        OneBit(idx % 8, d % 8);
      }
    }
  }

  lemma ZeroMarks(b: seq<bv8>)
    requires |b| == BYTES && forall k :: 0 <= k < BYTES ==> b[k] == 0
    ensures Marks(b) == {}
  {
    forall d: nat | d < WINDOW
      ensures !TestBit(b, d)
    {
      ZeroBit(d % 8);
    }
  }

  // ----- the window as a value

  /** How far `sn` lies from the maximum as the program computes it, after the cast to `usize`. */
  function Distance(w: Window, sn: u64): nat {
    AsUsize(if sn > w.maxSeq then sn - w.maxSeq else w.maxSeq - sn)
  }

  predicate CanAccept(w: Window, sn: u64) {
    !w.valid || sn > w.maxSeq || (Distance(w, sn) < WINDOW && Distance(w, sn) !in w.marks)
  }

  /** The window after an accepted sequence number. */
  function Record(w: Window, sn: u64): Window {
    if !w.valid then Window(true, sn, w.marks + {0})
    else if sn > w.maxSeq then Window(true, sn, Shifted(w.marks, Distance(w, sn)) + {0})
    else w.(marks := w.marks + {Distance(w, sn)})
  }

  // ----- the window as the program holds it

  class ReplayWindow256 {
    var maxSeq: u64
    const bitmap: array<bv8>
    var valid: bool

    ghost predicate Valid() {
      bitmap.Length == BYTES
    }

    ghost function View(): Window
      requires Valid()
      reads this, bitmap
    {
      Window(valid, maxSeq, Marks(bitmap[..]))
    }

    constructor ()
      ensures Valid() && fresh(bitmap) && View() == EMPTY_WINDOW
    {
      maxSeq, valid := 0, false;
      bitmap := new bv8[BYTES](_ => 0);
      new;
      ZeroMarks(bitmap[..]);
    }

    method Clear()
      requires Valid()
      modifies this, bitmap
      ensures View() == EMPTY_WINDOW
    {
      maxSeq := 0;
      Fill();
      valid := false;
    }

    method Fill()
      requires Valid()
      modifies bitmap
      ensures Marks(bitmap[..]) == {}
    {
      for i := 0 to BYTES
        invariant forall k :: 0 <= k < i ==> bitmap[k] == 0
      {
        bitmap[i] := 0;
      }
      ZeroMarks(bitmap[..]);
    }

    method SetBit(idx: nat)
      requires Valid() && idx < WINDOW
      modifies bitmap
      ensures Marks(bitmap[..]) == old(Marks(bitmap[..])) + {idx}
    {
      SetBitMarks(bitmap[..], idx);
      bitmap[idx / 8] := bitmap[idx / 8] | (1 << (idx % 8));
      assert bitmap[..] == old(bitmap[..])[idx / 8 := old(bitmap[idx / 8]) | (1 << (idx % 8))];
    }

    method MoveBytes(n: nat)
      requires Valid()
      modifies bitmap
      ensures bitmap[..] == BytesMoved(old(bitmap[..]), n)
    {
      var i := BYTES;
      while i > 0
        invariant 0 <= i <= BYTES
        invariant forall k :: 0 <= k < i ==> bitmap[k] == old(bitmap[k])
        invariant forall k :: i <= k < BYTES ==> bitmap[k] == BytesMoved(old(bitmap[..]), n)[k]
      {
        i := i - 1;
        bitmap[i] := if i >= n then bitmap[i - n] else 0;
      }
    }

    method MoveBits(s: nat)
      requires Valid() && 0 < s < 8
      modifies bitmap
      ensures bitmap[..] == BitsMoved(old(bitmap[..]), s)
    {
      hide Shl, Shr;
      var carry: bv8 := 0;
      ShrZero(8 - s);
      for i := 0 to BYTES
        invariant carry == Shr(if i == 0 then 0 else old(bitmap[..])[i - 1], 8 - s)
        invariant forall k :: i <= k < BYTES ==> bitmap[k] == old(bitmap[..])[k]
        invariant forall k :: 0 <= k < i ==> bitmap[k] == BitsMovedByte(old(bitmap[..]), s, k)
      {
        var nextCarry := Shr(bitmap[i], 8 - s);
        bitmap[i] := Shl(bitmap[i], s) | carry;
        carry := nextCarry;
      }
    }

    /** The two in-place loops together are one 256-bit shift. */
    method ShiftRight(shift: nat)
      requires Valid()
      modifies bitmap
      ensures Marks(bitmap[..]) == Shifted(old(Marks(bitmap[..])), shift)
    {
      hide Marks, Shifted, BytesMoved, BitsMoved;
      ShiftedByNothing(bitmap[..]);
      if shift == 0 {
        return;
      }
      if shift >= WINDOW {
        ShiftedAway(Marks(bitmap[..]), shift);
        Fill();
        return;
      }
      var byteShift, bitShift := shift / 8, shift % 8;
      ShiftComposes(bitmap[..], byteShift, bitShift);
      if byteShift > 0 {
        MoveBytes(byteShift);
      }
      if bitShift > 0 {
        MoveBits(bitShift);
      }
    }

    method CanAcceptSeq(sn: u64) returns (ok: bool)
      requires Valid()
      ensures ok == CanAccept(View(), sn)
    {
      if !valid || sn > maxSeq {
        return true;
      }
      var delta := AsUsize(maxSeq - sn);
      return delta < WINDOW && !TestBit(bitmap[..], delta);
    }

    method Accept(sn: u64) returns (ok: bool)
      requires Valid()
      modifies this, bitmap
      ensures ok == CanAccept(old(View()), sn)
      ensures View() == if ok then Record(old(View()), sn) else old(View())
    {
      hide Shifted, TestBit;
      if !valid {
        valid := true;
        maxSeq := sn;
        SetBit(0);
        return true;
      }
      if sn > maxSeq {
        ShiftRight(AsUsize(sn - maxSeq));
        maxSeq := sn;
        SetBit(0);
        return true;
      }
      var delta := AsUsize(maxSeq - sn);
      if delta >= WINDOW || TestBit(bitmap[..], delta) {
        return false;
      }
      SetBit(delta);
      return true;
    }
  }

  // ----- what the window means

  /** `w` is the window left by accepting exactly the sequence numbers `seen`. */
  ghost predicate Represents(w: Window, seen: set<nat>) {
    && (w.valid <==> seen != {})
    && (!w.valid ==> w == EMPTY_WINDOW)
    && (w.valid ==> w.maxSeq in seen)
    && (forall q :: q in seen ==> q <= w.maxSeq)
    && (forall d: nat :: d in w.marks ==> d < WINDOW && d <= w.maxSeq)
    && (forall d: nat :: d < WINDOW && d <= w.maxSeq ==> (d in w.marks <==> w.maxSeq - d in seen))
  }

  /** The answer a window of 256 sequence numbers ought to give. */
  ghost predicate ShouldAccept(w: Window, seen: set<nat>, sn: u64) {
    sn !in seen && (!w.valid || sn + WINDOW > w.maxSeq)
  }

  /** Both maxima lie within 2^32 of each other, so the cast to `usize` loses nothing. */
  predicate GapFits(w: Window, sn: u64) {
    w.valid ==> sn < w.maxSeq + TWO_32 && w.maxSeq < sn + TWO_32
  }

  /** The decision is the right one exactly when the cast loses nothing or lands somewhere harmless. */
  lemma DecisionIsExact(w: Window, seen: set<nat>, sn: u64)
    requires Represents(w, seen)
    ensures (CanAccept(w, sn) <==> ShouldAccept(w, seen, sn))
       <==> (!w.valid || w.maxSeq < sn + TWO_32 || Distance(w, sn) >= WINDOW || Distance(w, sn) in w.marks)
  {
    if w.valid && sn <= w.maxSeq {
      var gap := w.maxSeq - sn;
      if gap < TWO_32 {
        assert AsUsize(gap) == gap;
        assert gap < WINDOW ==> (gap in w.marks <==> sn in seen);
      }
    }
  }

  /** One accepted number: the window represents one number more. */
  lemma RecordRepresents(w: Window, seen: set<nat>, sn: u64)
    requires Represents(w, seen) && CanAccept(w, sn) && GapFits(w, sn)
    ensures Represents(Record(w, sn), seen + {sn})
  {
    hide Represents, Shifted;
    if !w.valid {
      InvalidIsEmpty(w, seen);
      FirstRepresents(sn);
    } else {
      assert Distance(w, sn) == if sn > w.maxSeq then sn - w.maxSeq else w.maxSeq - sn;
      if sn > w.maxSeq {
        ForwardRepresents(w, seen, sn);
      } else {
        BackwardRepresents(w, seen, sn);
      }
    }
  }

  lemma InvalidIsEmpty(w: Window, seen: set<nat>)
    requires Represents(w, seen) && !w.valid
    ensures w == EMPTY_WINDOW && seen == {}
  {
  }

  lemma FirstRepresents(sn: u64)
    ensures Represents(Window(true, sn, {} + {0}), {} + {sn})
  {
    assert {} + {0} == {0} && {} + {sn} == {sn};
  }

  lemma BackwardRepresents(w: Window, seen: set<nat>, sn: u64)
    requires Represents(w, seen) && w.valid && w.maxSeq - WINDOW < sn <= w.maxSeq
    ensures Represents(w.(marks := w.marks + {w.maxSeq - sn}), seen + {sn})
  {
  }

  lemma ForwardRepresents(w: Window, seen: set<nat>, sn: u64)
    requires Represents(w, seen) && w.valid && w.maxSeq < sn < w.maxSeq + TWO_32
    ensures Represents(Window(true, sn, Shifted(w.marks, sn - w.maxSeq) + {0}), seen + {sn})
  {
    var shift := sn - w.maxSeq;
    var marks := Shifted(w.marks, shift) + {0};
    forall d: nat | d < WINDOW && d <= sn
      ensures d in marks <==> sn - d in seen + {sn}
    {
      assert d in marks <==> d == 0 || CameFrom(w.marks, shift, d);
      if shift <= d {
        assert w.maxSeq - (d - shift) == sn - d;
      }
    }
    forall d: nat | d in marks
      ensures d < WINDOW && d <= sn
    {
      if d != 0 {
        assert CameFrom(w.marks, shift, d);
      }
    }
  }

  /** The cast lost nothing, or the jump forward was so placed that no older mark survived it. */
  predicate CastIsHarmless(w: Window, sn: u64) {
    GapFits(w, sn) || (sn > w.maxSeq && Shifted(w.marks, Distance(w, sn)) <= {0})
  }

  /** Accepting a number keeps the window exact if and only if the cast is harmless. */
  lemma RecordIsExact(w: Window, seen: set<nat>, sn: u64)
    requires Represents(w, seen) && CanAccept(w, sn)
    ensures Represents(Record(w, sn), seen + {sn}) <==> CastIsHarmless(w, sn)
  {
    var w' := Record(w, sn);
    if GapFits(w, sn) {
      RecordRepresents(w, seen, sn);
    } else if sn > w.maxSeq {
      if d: nat :| d in Shifted(w.marks, Distance(w, sn)) && d != 0 {
        assert d in w'.marks;
      }
    } else {
      assert Distance(w, sn) in w'.marks && w.maxSeq - Distance(w, sn) != sn;
    }
  }

  /** What was accepted is refused from then on, as long as the cast is harmless. */
  lemma SeenIsRefused(w: Window, seen: set<nat>, sn: u64)
    requires Represents(w, seen) && sn in seen && CastIsHarmless(w, sn)
    ensures !CanAccept(w, sn)
  {
    DecisionIsExact(w, seen, sn);
  }

  // ----- whole runs of one window

  datatype Trace = Trace(w: Window, accepted: seq<u64>)

  function Offer(t: Trace, sn: u64): Trace {
    if CanAccept(t.w, sn) then Trace(Record(t.w, sn), t.accepted + [sn]) else t
  }

  /** Offering numbers one after another to a fresh window. */
  function Run(offers: seq<u64>): Trace {
    if offers == [] then Trace(EMPTY_WINDOW, []) else Offer(Run(offers[..|offers| - 1]), offers[|offers| - 1])
  }

  /** Every accepted number came with a harmless cast; refused ones may be anything. */
  predicate CastsAreHarmless(offers: seq<u64>) {
    offers == [] ||
    var w, sn := Run(offers[..|offers| - 1]).w, offers[|offers| - 1];
    CastsAreHarmless(offers[..|offers| - 1]) && (CanAccept(w, sn) ==> CastIsHarmless(w, sn))
  }

  ghost predicate Distinct(s: seq<u64>) {
    forall i, j :: 0 <= i < j < |s| ==> s[i] != s[j]
  }

  ghost function Elements(s: seq<u64>): set<nat> {
    set i | 0 <= i < |s| :: s[i]
  }

  /** After any run without a harmful cast, bit d is set exactly when the number d below the maximum
      was accepted, and no number was accepted twice. */
  lemma {:induction false} RunRefinesSet(offers: seq<u64>)
    requires CastsAreHarmless(offers)
    ensures Represents(Run(offers).w, Elements(Run(offers).accepted))
    ensures Distinct(Run(offers).accepted)
  {
    if offers != [] {
      var before, sn := offers[..|offers| - 1], offers[|offers| - 1];
      RunRefinesSet(before);
      var t := Run(before);
      if CanAccept(t.w, sn) {
        if sn in Elements(t.accepted) {
          SeenIsRefused(t.w, Elements(t.accepted), sn);
        }
        RecordIsExact(t.w, Elements(t.accepted), sn);
        assert Elements(t.accepted + [sn]) == Elements(t.accepted) + {sn} by {
          var longer := t.accepted + [sn];
          assert forall i :: 0 <= i < |t.accepted| ==> longer[i] == t.accepted[i];
          assert longer[|t.accepted|] == sn;
        }
        assert forall i :: 0 <= i < |t.accepted| ==> t.accepted[i] in Elements(t.accepted);
      }
    }
  }

  /** Without that limit the guarantee is false: the number 0 is accepted twice. */
  lemma TruncationAcceptsTwice()
    ensures Run([0, 0xFFFF_FFFF, 0x1_0000_000A, 0]).accepted == [0, 0xFFFF_FFFF, 0x1_0000_000A, 0]
  {
    hide Run, Offer;
    var a, b, c, d: seq<u64> := [0], [0, 0xFFFF_FFFF], [0, 0xFFFF_FFFF, 0x1_0000_000A],
        [0, 0xFFFF_FFFF, 0x1_0000_000A, 0];
    assert a == [] + [0] && b == a + [0xFFFF_FFFF] && c == b + [0x1_0000_000A] && d == c + [0];
    RunSnoc([], 0);
    RunSnoc(a, 0xFFFF_FFFF);
    RunSnoc(b, 0x1_0000_000A);
    RunSnoc(c, 0);
    TruncatedSteps();
  }

  lemma TruncatedSteps()
    ensures Offer(Trace(EMPTY_WINDOW, []), 0) == Trace(Window(true, 0, {0}), [0])
    ensures Offer(Trace(Window(true, 0, {0}), [0]), 0xFFFF_FFFF)
            == Trace(Window(true, 0xFFFF_FFFF, {0}), [0, 0xFFFF_FFFF])
    ensures Offer(Trace(Window(true, 0xFFFF_FFFF, {0}), [0, 0xFFFF_FFFF]), 0x1_0000_000A)
         == Trace(Window(true, 0x1_0000_000A, {11, 0}), [0, 0xFFFF_FFFF, 0x1_0000_000A])
    ensures Offer(Trace(Window(true, 0x1_0000_000A, {11, 0}), [0, 0xFFFF_FFFF, 0x1_0000_000A]), 0).accepted
         == [0, 0xFFFF_FFFF, 0x1_0000_000A, 0]
  {
    hide Shifted;
    ShiftedAway({0}, 0xFFFF_FFFF);
    ElevenLater();
    assert {} + {0} == {0} && {11} + {0} == {11, 0};
  }

  lemma RunSnoc(before: seq<u64>, sn: u64)
    ensures Run([]) == Trace(EMPTY_WINDOW, [])
    ensures Run(before + [sn]) == Offer(Run(before), sn)
  {
    assert (before + [sn])[..|before|] == before;
  }

  lemma ElevenLater()
    ensures Shifted({0}, 11) == {11}
  {
    assert forall k: nat :: k < WINDOW ==> (CameFrom({0}, 11, k) <==> k == 11);
  }
}
