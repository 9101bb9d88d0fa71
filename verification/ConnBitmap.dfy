/** The two wire encodings of a network's connections: a list of rows, and a square bit matrix.

    Bit `row * n + col` of the matrix stands for the pair of peers at `row` and `col`. The module
    proves that the in-place encoder sets exactly the bits of the symmetric closure of the rows,
    and that the receiver's loop reads exactly that closure back, without the diagonal. */
module ConnBitmap {
  import opened Bits
  import opened Words

  type PeerId = u32

  datatype PeerRow = PeerRow(id: PeerId, version: u32, connected: set<PeerId>)

  datatype PeerVersion = PeerVersion(id: PeerId, version: u32)

  datatype BitmapMsg = BitmapMsg(peers: seq<PeerVersion>, bitmap: seq<bv8>)

  // ----- positions in the matrix

  function Pos(n: nat, row: nat, col: nat): nat {
    row * n + col
  }

  lemma MulMono(a: nat, b: nat, n: nat)
    requires a <= b
    ensures a * n <= b * n && (b - a) * n == b * n - a * n
  {
  }

  lemma PosInRange(n: nat, row: nat, col: nat)
    requires row < n && col < n
    ensures Pos(n, row, col) < n * n
  {
    MulMono(row + 1, n, n);
    MulMono(row, row + 1, n);
  }

  lemma DivModUnique(a: nat, n: nat, q: nat, r: nat)
    requires r < n && a == q * n + r
    ensures a / n == q && a % n == r
  {
    var q', r' := a / n, a % n;
    assert a == q' * n + r';
    QuotientUnique(n, q, r, q', r');
  }

  lemma QuotientUnique(n: nat, q: nat, r: nat, q': nat, r': nat)
    requires r < n && r' < n && q * n + r == q' * n + r'
    ensures q == q' && r == r'
  {
    if q < q' {
      MulMono(q, q + 1, n);
      MulMono(q + 1, q', n);
    } else if q' < q {
      MulMono(q', q' + 1, n);
      MulMono(q' + 1, q, n);
    }
  }

  /** Every position belongs to one pair of peers. */
  lemma PosIsInjective(n: nat, row: nat, col: nat)
    requires row < n && col < n
    ensures Pos(n, row, col) / n == row && Pos(n, row, col) % n == col
  {
    DivModUnique(Pos(n, row, col), n, row, col);
  }

  lemma PosOfDivMod(n: nat, idx: nat)
    requires idx < n * n
    ensures n > 0 && idx / n < n && idx % n < n && Pos(n, idx / n, idx % n) == idx
  {
    assert n > 0;
    var q := idx / n;
    assert idx == q * n + idx % n;
    if n <= q {
      MulMono(n, q, n);
    }
  }

  // ----- packed bits

  function ByteLen(n: nat): nat {
    (n * n + 7) / 8
  }

  predicate BitAt(bitmap: seq<bv8>, idx: nat) {
    idx / 8 < |bitmap| && ByteBit(bitmap[idx / 8], idx % 8)
  }

  lemma SetBitAt(bitmap: seq<bv8>, idx: nat, k: nat)
    requires idx / 8 < |bitmap|
    ensures var b := bitmap[idx / 8 := bitmap[idx / 8] | (1 << (idx % 8))];
            BitAt(b, k) <==> k == idx || BitAt(bitmap, k)
  {
    if k / 8 == idx / 8 {
      OrBit(bitmap[idx / 8], 1 << (idx % 8), k % 8);
      OneBit(idx % 8, k % 8);
    }
  }

  lemma BitsDetermineByte(x: bv8, y: bv8)
    requires forall j :: 0 <= j < 8 ==> ByteBit(x, j) == ByteBit(y, j)
    ensures x == y
  {
    assert ByteBit(x, 0) == ByteBit(y, 0) && ByteBit(x, 1) == ByteBit(y, 1);
    assert ByteBit(x, 2) == ByteBit(y, 2) && ByteBit(x, 3) == ByteBit(y, 3);
    assert ByteBit(x, 4) == ByteBit(y, 4) && ByteBit(x, 5) == ByteBit(y, 5);
    assert ByteBit(x, 6) == ByteBit(y, 6) && ByteBit(x, 7) == ByteBit(y, 7);
  }

  /** Two bitmaps of one length with the same bits are the same bytes. */
  lemma BitsDetermineBitmap(a: seq<bv8>, b: seq<bv8>)
    requires |a| == |b| && forall k: nat :: BitAt(a, k) == BitAt(b, k)
    ensures a == b
  {
    forall i | 0 <= i < |a|
      ensures a[i] == b[i]
    {
      forall j | 0 <= j < 8
        ensures ByteBit(a[i], j) == ByteBit(b[i], j)
      {
        assert (8 * i + j) / 8 == i && (8 * i + j) % 8 == j;
        assert BitAt(a, 8 * i + j) == BitAt(b, 8 * i + j);
      }
      BitsDetermineByte(a[i], b[i]);
    }
  }

  // ----- what the matrix says

  ghost predicate DistinctIds(rows: seq<PeerRow>) {
    forall i, j :: 0 <= i < j < |rows| ==> rows[i].id != rows[j].id
  }

  predicate Lists(rows: seq<PeerRow>, i: nat, j: nat)
    requires i < |rows| && j < |rows|
  {
    rows[j].id in rows[i].connected
  }

  /** One of the two rows names the other peer. */
  predicate Linked(rows: seq<PeerRow>, i: nat, j: nat)
    requires i < |rows| && j < |rows|
  {
    Lists(rows, i, j) || Lists(rows, j, i)
  }

  /** `bitmap` is the matrix of `rows`: of the right size, with exactly the linked pairs set. */
  ghost predicate Encodes(bitmap: seq<bv8>, rows: seq<PeerRow>) {
    && |bitmap| == ByteLen(|rows|)
    && (forall i, j :: 0 <= i < |rows| && 0 <= j < |rows| ==>
        (BitAt(bitmap, Pos(|rows|, i, j)) <==> Linked(rows, i, j)))
    && (forall k: nat :: BitAt(bitmap, k) ==> k < |rows| * |rows|)
  }

  /** The matrix of a list of rows is unique. */
  lemma EncodingIsUnique(a: seq<bv8>, b: seq<bv8>, rows: seq<PeerRow>)
    requires Encodes(a, rows) && Encodes(b, rows)
    ensures a == b
  {
    forall k: nat
      ensures BitAt(a, k) == BitAt(b, k)
    {
      if k < |rows| * |rows| {
        PosOfDivMod(|rows|, k);
        assert BitAt(a, Pos(|rows|, k / |rows|, k % |rows|)) <==> BitAt(b, Pos(|rows|, k / |rows|, k % |rows|));
      }
    }
    BitsDetermineBitmap(a, b);
  }

  // ----- the matrix as a value

  function MatrixBit(rows: seq<PeerRow>, idx: nat): bool {
    idx < |rows| * |rows| && (PosOfDivMod(|rows|, idx); Linked(rows, idx / |rows|, idx % |rows|))
  }

  function Pack(b0: bool, b1: bool, b2: bool, b3: bool, b4: bool, b5: bool, b6: bool, b7: bool): bv8 {
    (if b0 then 1 else 0) | (if b1 then 2 else 0) | (if b2 then 4 else 0) | (if b3 then 8 else 0)
    | (if b4 then 16 else 0) | (if b5 then 32 else 0) | (if b6 then 64 else 0) | (if b7 then 128 else 0)
  }

  lemma PackBits(b: seq<bool>, j: nat)
    requires |b| == 8 && j < 8
    ensures ByteBit(Pack(b[0], b[1], b[2], b[3], b[4], b[5], b[6], b[7]), j) == b[j]
  {
    if j < 4 {
      if j < 2 { assert j == 0 || j == 1; } else { assert j == 2 || j == 3; }
    } else {
      if j < 6 { assert j == 4 || j == 5; } else { assert j == 6 || j == 7; }
    }
  }

  function MatrixByte(rows: seq<PeerRow>, k: nat): bv8 {
    Pack(MatrixBit(rows, 8 * k), MatrixBit(rows, 8 * k + 1), MatrixBit(rows, 8 * k + 2), MatrixBit(rows, 8 * k + 3),
         MatrixBit(rows, 8 * k + 4), MatrixBit(rows, 8 * k + 5), MatrixBit(rows, 8 * k + 6), MatrixBit(rows, 8 * k + 7))
  }

  /** The bit matrix of the rows. */
  function Matrix(rows: seq<PeerRow>): seq<bv8> {
    seq(ByteLen(|rows|), k requires 0 <= k => MatrixByte(rows, k))
  }

  lemma MatrixByteBit(rows: seq<PeerRow>, k: nat, j: nat)
    requires j < 8
    ensures ByteBit(MatrixByte(rows, k), j) == MatrixBit(rows, 8 * k + j)
  {
    hide ByteBit, Pack, MatrixBit;
    var b := [MatrixBit(rows, 8 * k), MatrixBit(rows, 8 * k + 1),
              MatrixBit(rows, 8 * k + 2), MatrixBit(rows, 8 * k + 3),
              MatrixBit(rows, 8 * k + 4), MatrixBit(rows, 8 * k + 5),
              MatrixBit(rows, 8 * k + 6), MatrixBit(rows, 8 * k + 7)];
    PackBits(b, j);
    assert b[j] == MatrixBit(rows, 8 * k + j);
  }

  lemma MatrixBitAt(rows: seq<PeerRow>, idx: nat)
    ensures BitAt(Matrix(rows), idx) == MatrixBit(rows, idx)
  {
    hide ByteBit, MatrixByte;
    if idx / 8 < ByteLen(|rows|) {
      MatrixByteBit(rows, idx / 8, idx % 8);
      assert 8 * (idx / 8) + idx % 8 == idx;
    }
  }

  lemma MatrixEncodes(rows: seq<PeerRow>)
    ensures Encodes(Matrix(rows), rows)
  {
    var n := |rows|;
    forall i, j | 0 <= i < n && 0 <= j < n
      ensures BitAt(Matrix(rows), Pos(n, i, j)) <==> Linked(rows, i, j)
    {
      PosInRange(n, i, j);
      PosIsInjective(n, i, j);
      MatrixBitAt(rows, Pos(n, i, j));
    }
    forall k: nat | BitAt(Matrix(rows), k)
      ensures k < n * n
    {
      MatrixBitAt(rows, k);
    }
  }

  // ----- the encoder

  ghost predicate IndexOf(idx: map<PeerId, nat>, rows: seq<PeerRow>) {
    && (forall id :: id in idx ==> idx[id] < |rows| && rows[idx[id]].id == id)
    && (forall i :: 0 <= i < |rows| ==> rows[i].id in idx)
  }

  method IndexPeers(rows: seq<PeerRow>) returns (idx: map<PeerId, nat>)
    ensures IndexOf(idx, rows)
  {
    idx := map[];
    for i := 0 to |rows|
      invariant forall id :: id in idx ==> idx[id] < i && rows[idx[id]].id == id
      invariant forall k :: 0 <= k < i ==> rows[k].id in idx
    {
      idx := idx[rows[i].id := i];
    }
  }

  /** The set positions once the links of the first `i` rows, and those of row `i` outside `rest`, are in. */
  ghost predicate DoneBit(rows: seq<PeerRow>, i: nat, rest: set<PeerId>, r: nat, c: nat)
    requires r < |rows| && c < |rows|
  {
    || (Lists(rows, r, c) && (r < i || (r == i && rows[c].id !in rest)))
    || (Lists(rows, c, r) && (c < i || (c == i && rows[r].id !in rest)))
  }

  ghost predicate Partly(bitmap: seq<bv8>, rows: seq<PeerRow>, i: nat, rest: set<PeerId>) {
    && |bitmap| == ByteLen(|rows|)
    && (forall r, c :: 0 <= r < |rows| && 0 <= c < |rows| ==>
        (BitAt(bitmap, Pos(|rows|, r, c)) <==> DoneBit(rows, i, rest, r, c)))
    && (forall k: nat :: BitAt(bitmap, k) ==> k < |rows| * |rows|)
  }

  lemma ZeroesPartly(bitmap: seq<bv8>, rows: seq<PeerRow>)
    requires |bitmap| == ByteLen(|rows|) && forall k :: 0 <= k < |bitmap| ==> bitmap[k] == 0
    requires |rows| > 0
    ensures Partly(bitmap, rows, 0, rows[0].connected)
  {
    forall k: nat
      ensures !BitAt(bitmap, k)
    {
      ZeroBit(k % 8);
    }
  }

  lemma NextRow(bitmap: seq<bv8>, rows: seq<PeerRow>, i: nat)
    requires i < |rows| && Partly(bitmap, rows, i, {})
    ensures i + 1 < |rows| ==> Partly(bitmap, rows, i + 1, rows[i + 1].connected)
    ensures i + 1 == |rows| ==> Encodes(bitmap, rows)
  {
    hide BitAt, Pos;
    if i + 1 < |rows| {
      forall r, c | 0 <= r < |rows| && 0 <= c < |rows|
        ensures DoneBit(rows, i, {}, r, c) <==> DoneBit(rows, i + 1, rows[i + 1].connected, r, c)
      {
      }
    } else {
      forall r, c | 0 <= r < |rows| && 0 <= c < |rows|
        ensures DoneBit(rows, i, {}, r, c) <==> Linked(rows, r, c)
      {
      }
    }
  }

  lemma SkipLink(bitmap: seq<bv8>, rows: seq<PeerRow>, i: nat, rest: set<PeerId>, link: PeerId)
    requires i < |rows| && Partly(bitmap, rows, i, rest) && forall j :: 0 <= j < |rows| ==> rows[j].id != link
    ensures Partly(bitmap, rows, i, rest - {link})
  {
    hide BitAt, Pos;
  }

  lemma PosDiffer(n: nat, r: nat, c: nat, i: nat, j: nat)
    requires r < n && c < n && i < n && j < n
    ensures Pos(n, r, c) == Pos(n, i, j) <==> r == i && c == j
  {
    PosIsInjective(n, r, c);
    PosIsInjective(n, i, j);
  }

  function WithBit(bitmap: seq<bv8>, idx: nat): seq<bv8>
    requires idx / 8 < |bitmap|
  {
    bitmap[idx / 8 := bitmap[idx / 8] | (1 << (idx % 8))]
  }

  lemma PosHasByte(n: nat, r: nat, c: nat)
    requires r < n && c < n
    ensures Pos(n, r, c) < n * n && Pos(n, r, c) / 8 < ByteLen(n)
  {
    PosInRange(n, r, c);
  }

  lemma TwoBits(bitmap: seq<bv8>, n: nat, i: nat, j: nat, k: nat)
    requires i < n && j < n && |bitmap| == ByteLen(n)
    ensures Pos(n, i, j) / 8 < |bitmap| && Pos(n, j, i) / 8 < |bitmap|
    ensures BitAt(WithBit(WithBit(bitmap, Pos(n, i, j)), Pos(n, j, i)), k)
       <==> BitAt(bitmap, k) || k == Pos(n, i, j) || k == Pos(n, j, i)
  {
    PosHasByte(n, i, j);
    PosHasByte(n, j, i);
    hide BitAt, Pos;
    SetBitAt(bitmap, Pos(n, i, j), k);
    SetBitAt(WithBit(bitmap, Pos(n, i, j)), Pos(n, j, i), k);
  }

  lemma AddLink(bitmap: seq<bv8>, rows: seq<PeerRow>, i: nat, rest: set<PeerId>, j: nat)
    requires DistinctIds(rows) && i < |rows| && j < |rows| && rest <= rows[i].connected && rows[j].id in rest
    requires Partly(bitmap, rows, i, rest)
    ensures Pos(|rows|, i, j) / 8 < |bitmap| && Pos(|rows|, j, i) / 8 < |bitmap|
    ensures Partly(WithBit(WithBit(bitmap, Pos(|rows|, i, j)), Pos(|rows|, j, i)), rows, i, rest - {rows[j].id})
  {
    var n := |rows|;
    TwoBits(bitmap, n, i, j, 0);
    var b := WithBit(WithBit(bitmap, Pos(n, i, j)), Pos(n, j, i));
    hide WithBit, BitAt, ByteLen;
    forall k: nat
      ensures BitAt(b, k) <==> BitAt(bitmap, k) || k == Pos(n, i, j) || k == Pos(n, j, i)
    {
      TwoBits(bitmap, n, i, j, k);
    }
    PosInRange(n, i, j);
    PosInRange(n, j, i);
    forall r, c | 0 <= r < n && 0 <= c < n
      ensures BitAt(b, Pos(n, r, c)) <==> DoneBit(rows, i, rest - {rows[j].id}, r, c)
    {
      LinkDone(rows, i, rest, j, r, c);
      PosDiffer(n, r, c, i, j);
      PosDiffer(n, r, c, j, i);
      hide Pos;
      assert BitAt(bitmap, Pos(n, r, c)) <==> DoneBit(rows, i, rest, r, c);
    }
  }

  lemma LinkDone(rows: seq<PeerRow>, i: nat, rest: set<PeerId>, j: nat, r: nat, c: nat)
    requires DistinctIds(rows) && i < |rows| && j < |rows| && r < |rows| && c < |rows|
    requires rest <= rows[i].connected && rows[j].id in rest
    ensures DoneBit(rows, i, rest - {rows[j].id}, r, c)
       <==> DoneBit(rows, i, rest, r, c) || (r == i && c == j) || (r == j && c == i)
  {
    assert rows[c].id == rows[j].id <==> c == j;
    assert rows[r].id == rows[j].id <==> r == j;
  }

  method SetPair(bitmap: array<bv8>, n: nat, i: nat, j: nat)
    requires i < n && j < n && bitmap.Length == ByteLen(n)
    modifies bitmap
    ensures Pos(n, i, j) / 8 < bitmap.Length && Pos(n, j, i) / 8 < bitmap.Length
    ensures bitmap[..] == WithBit(WithBit(old(bitmap[..]), Pos(n, i, j)), Pos(n, j, i))
  {
    PosHasByte(n, i, j);
    PosHasByte(n, j, i);
    var first, second := Pos(n, i, j), Pos(n, j, i);
    hide Pos;
    bitmap[first / 8] := bitmap[first / 8] | (1 << (first % 8));
    assert bitmap[..] == WithBit(old(bitmap[..]), first);
    bitmap[second / 8] := bitmap[second / 8] | (1 << (second % 8));
  }

  /** The relay's encoder: for every link, the bit of the pair and the bit of its mirror image. */
  method Encode(rows: seq<PeerRow>) returns (bitmap: array<bv8>)
    requires DistinctIds(rows)
    ensures fresh(bitmap) && bitmap[..] == Matrix(rows)
  {
    var n := |rows|;
    var idx := IndexPeers(rows);
    bitmap := new bv8[ByteLen(n)](_ => 0);
    MatrixEncodes(rows);
    if n == 0 {
      return;
    }
    ZeroesPartly(bitmap[..], rows);
    hide BitAt, Pos, WithBit, ByteLen, DistinctIds, Matrix;
    for i := 0 to n
      invariant i < n ==> Partly(bitmap[..], rows, i, rows[i].connected)
      invariant i == n ==> Encodes(bitmap[..], rows)
    {
      var rest := rows[i].connected;
      while rest != {}
        invariant rest <= rows[i].connected
        invariant Partly(bitmap[..], rows, i, rest)
        decreases |rest|
      {
        var link :| link in rest;
        if link in idx {
          var j := idx[link];
          AddLink(bitmap[..], rows, i, rest, j);
          SetPair(bitmap, n, i, j);
        } else {
          SkipLink(bitmap[..], rows, i, rest, link);
        }
        rest := rest - {link};
      }
      NextRow(bitmap[..], rows, i);
    }
    EncodingIsUnique(bitmap[..], Matrix(rows), rows);
  }

  // ----- the receiver

  /** The neighbours the receiver reads for the peer at position `i`. The position is computed in 32
      bits, so a matrix of more than 65536 peers is read at wrapped positions. */
  function DecodedRow(ids: seq<PeerId>, bitmap: seq<bv8>, i: nat): set<PeerId>
    requires i < |ids|
  {
    set j | 0 <= j < |ids| && j != i && BitAt(bitmap, AsUsize(Pos(|ids|, i, j))) :: ids[j]
  }

  method Decode(ids: seq<PeerId>, bitmap: seq<bv8>) returns (rows: seq<set<PeerId>>)
    ensures |rows| == |ids|
    ensures forall i :: 0 <= i < |ids| ==> rows[i] == DecodedRow(ids, bitmap, i)
  {
    hide ByteBit;
    rows := [];
    var n := |ids|;
    for i := 0 to n
      invariant |rows| == i
      invariant forall k :: 0 <= k < i ==> rows[k] == DecodedRow(ids, bitmap, k)
    {
      var connected: set<PeerId> := {};
      for j := 0 to n
        invariant connected == set k | 0 <= k < j && k != i && BitAt(bitmap, AsUsize(Pos(n, i, k))) :: ids[k]
      {
        if i != j {
          var bit := AsUsize(i * n + j);
          if bit / 8 < |bitmap| && ByteBit(bitmap[bit / 8], bit % 8) {
            connected := connected + {ids[j]};
          }
        }
      }
      rows := rows + [connected];
    }
  }

  function Ids(rows: seq<PeerRow>): seq<PeerId> {
    seq(|rows|, i requires 0 <= i < |rows| => rows[i].id)
  }

  /** The neighbours of the peer at `i` in the symmetric closure of the rows, itself left out. */
  ghost function Closure(rows: seq<PeerRow>, i: nat): set<PeerId>
    requires i < |rows|
  {
    set j | 0 <= j < |rows| && j != i && Linked(rows, i, j) :: rows[j].id
  }

  /** The two encodings agree, as long as every position fits 32 bits: what is read back from the
      matrix is the symmetric closure, without self-loops, of the rows of the list. */
  lemma EncodingsAgree(rows: seq<PeerRow>, i: nat)
    requires i < |rows| && |rows| * |rows| <= TWO_32
    ensures DecodedRow(Ids(rows), Matrix(rows), i) == Closure(rows, i)
  {
    MatrixEncodes(rows);
    var n := |rows|;
    hide BitAt, Pos, Linked, Matrix;
    assert forall j :: 0 <= j < n ==> Ids(rows)[j] == rows[j].id;
    forall j | 0 <= j < n
      ensures BitAt(Matrix(rows), AsUsize(Pos(n, i, j))) <==> Linked(rows, i, j)
    {
      PosInRange(n, i, j);
      FitsUsize(Pos(n, i, j), n * n);
    }
  }

  /** `n` peers of which only the first names another, the peer `k`. */
  function LoneLink(n: nat, k: PeerId): seq<PeerRow>
    requires n <= TWO_32
  {
    seq(n, i requires 0 <= i < n => PeerRow(i, 1, if i == 0 then {k} else {}))
  }

  /** The pair at position 2^32 + k is read at position k, where the lone link is. */
  lemma WrappedRead(n: nat, k: PeerId, i: nat, j: nat)
    requires 0 < k < n <= TWO_32 && i < n && j < n && i != j && Pos(n, i, j) == TWO_32 + k
    requires i != 0 && (i, j) != (k, 0)
    ensures var rows := LoneLink(n, k);
            j in DecodedRow(Ids(rows), Matrix(rows), i) && j !in Closure(rows, i)
  {
    var rows := LoneLink(n, k);
    MatrixEncodes(rows);
    assert AsUsize(TWO_32 + k) == k;
    assert Pos(n, 0, k) == k;
    hide Pos, Matrix, BitAt, AsUsize;
    assert Linked(rows, 0, k);
    assert Ids(rows)[j] == j;
  }

  lemma TooManyPositions(n: nat)
    requires n * n > TWO_32
    ensures n * n > TWO_32 + 2
  {
    if n <= 65_536 {
      SquareMono(n, 65_536);
    } else {
      SquareMono(65_537, n);
    }
  }

  lemma SquareMono(a: nat, b: nat)
    requires a <= b
    ensures a * a <= b * b
  {
    MulMono(a, b, a);
    MulMono(a, b, b);
  }

  lemma LastDiagonal(n: nat, i: nat)
    requires i + 1 == n
    ensures Pos(n, i, i) + 1 == n * n
  {
    MulMono(i, n, n);
  }

  /** Past 65536 peers, some topology is misread. */
  lemma MisreadTopology(n: nat) returns (rows: seq<PeerRow>, i: nat)
    requires n <= TWO_32 && n * n > TWO_32
    ensures |rows| == n && DistinctIds(rows) && i < n
    ensures DecodedRow(Ids(rows), Matrix(rows), i) != Closure(rows, i)
  {
    TooManyPositions(n);
    PosOfDivMod(n, TWO_32 + 1);
    i := (TWO_32 + 1) / n;
    var j := (TWO_32 + 1) % n;
    hide Matrix, DecodedRow, Closure;
    if i != j {
      rows := LoneLink(n, 1);
      WrappedRead(n, 1, i, j);
    } else {
      if i + 1 == n {
        LastDiagonal(n, i);
      }
      rows := LoneLink(n, 2);
      WrappedRead(n, 2, i, i + 1);
    }
  }

  /** Every topology of `n` peers reads back as its closure. */
  ghost predicate ReadsBack(n: nat) {
    forall rows, i :: |rows| == n && DistinctIds(rows) && 0 <= i < n ==>
      DecodedRow(Ids(rows), Matrix(rows), i) == Closure(rows, i)
  }

  /** The limit is exact: all topologies of `n` peers read back if and only if the positions fit 32 bits. */
  lemma ReadsBackExactly(n: nat)
    requires n <= TWO_32
    ensures ReadsBack(n) <==> n * n <= TWO_32
  {
    if n * n <= TWO_32 {
      forall rows: seq<PeerRow>, i: nat | |rows| == n && i < n
        ensures DecodedRow(Ids(rows), Matrix(rows), i) == Closure(rows, i)
      {
        EncodingsAgree(rows, i);
      }
    } else {
      var rows, i := MisreadTopology(n);
    }
  }

  /** With 65537 peers of which the first names the peer 1, the last but one is read as linked to the
      peer 2. */
  lemma MisreadExample()
    ensures var rows := LoneLink(65_537, 1);
            2 in DecodedRow(Ids(rows), Matrix(rows), 65_535) && 2 !in Closure(rows, 65_535)
  {
    assert Pos(65_537, 65_535, 2) == TWO_32 + 1;
    WrappedRead(65_537, 1, 65_535, 2);
  }

  lemma FitsUsize(x: nat, bound: nat)
    requires x < bound <= TWO_32
    ensures AsUsize(x) == x
  {
  }

  /** A peer's own bit is set exactly when its row names itself; the receiver ignores it. */
  lemma DiagonalFollowsRow(rows: seq<PeerRow>, i: nat)
    requires i < |rows|
    ensures BitAt(Matrix(rows), Pos(|rows|, i, i)) <==> rows[i].id in rows[i].connected
    ensures rows[i].id in DecodedRow(Ids(rows), Matrix(rows), i) ==> !DistinctIds(rows)
  {
    MatrixEncodes(rows);
    hide BitAt, Pos, Matrix;
    if rows[i].id in DecodedRow(Ids(rows), Matrix(rows), i) {
      var j :| 0 <= j < |rows| && j != i && Ids(rows)[j] == rows[i].id;
      assert rows[j].id == rows[i].id;
    }
  }
}
