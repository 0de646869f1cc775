/** How an insert that goes through the chunk ring cuts its payload at chunk boundaries. */
module LogSplit {
  import opened Words
  import opened LogModel

  datatype Piece = Piece(at: nat, len: nat)

  /** The pieces in the order the loop of `mmlog_insert` produces them. */
  function Split(cs: nat, cur: nat, remaining: nat): seq<Piece>
    requires cs > 0
    decreases remaining
  {
    if remaining == 0 then []
    else
      PieceLenPositive(cs, cur, remaining);
      var n := PieceLen(cs, cur, remaining);
      [Piece(cur, n)] + Split(cs, cur + n, remaining - n)
  }

  lemma PieceLenPositive(cs: nat, cur: nat, remaining: nat)
    requires cs > 0 && remaining > 0
    ensures 0 < PieceLen(cs, cur, remaining) <= remaining
    ensures cur + PieceLen(cs, cur, remaining) <= ChunkEnd(cs, cur)
    ensures PieceLen(cs, cur, remaining) < remaining ==> cur + PieceLen(cs, cur, remaining) == ChunkEnd(cs, cur)
  {
    ChunkEndAbove(cs, cur);
  }

  /** Contiguous from `from` to `to`, every piece non-empty and inside one chunk. */
  predicate Tiles(cs: nat, pieces: seq<Piece>, from: nat, to: nat)
    requires cs > 0
  {
    if pieces == [] then from == to
    else
      pieces[0].at == from && pieces[0].len > 0 &&
      ChunkStart(cs, from) <= from && from + pieces[0].len <= ChunkStart(cs, from) + cs &&
      Tiles(cs, pieces[1..], from + pieces[0].len, to)
  }

  /**
    The pieces tile the reserved range in order, each inside the chunk that serves its start, and
    there is exactly one for every chunk the range meets.
  */
  lemma {:induction false} SplitTiles(cs: nat, cur: nat, remaining: nat)
    requires cs > 0
    ensures Tiles(cs, Split(cs, cur, remaining), cur, cur + remaining)
    ensures remaining > 0 ==> |Split(cs, cur, remaining)| == (cur + remaining - 1) / cs - cur / cs + 1
    decreases remaining
  {
    if remaining > 0 {
      PieceLenPositive(cs, cur, remaining);
      ChunkEndAbove(cs, cur);
      var n := PieceLen(cs, cur, remaining);
      SplitTiles(cs, cur + n, remaining - n);
      assert Split(cs, cur, remaining)[1..] == Split(cs, cur + n, remaining - n);
      if n < remaining {
        ModUnique(cur + n, cs, cur / cs + 1, 0);
      } else {
        assert cur + remaining - 1 == (cur / cs) * cs + (cur + remaining - 1 - ChunkStart(cs, cur));
        ModUnique(cur + remaining - 1, cs, cur / cs, cur + remaining - 1 - ChunkStart(cs, cur));
      }
    }
  }

  lemma DivMonotone(x: nat, y: nat, d: nat)
    requires x <= y && d > 0
    ensures x / d <= y / d
  {
    var a, b := x / d, y / d;
    if a > b {
      assert (a - b) * d == a * d - b * d;
      MulAtLeast(a - b, d);
    }
  }

  /** The chunk boundaries a range runs up to or across, counted without truncation. */
  function Crossings(cs: nat, start: nat, size: nat): nat
    requires cs > 0
  {
    DivMonotone(start, start + size, cs);
    (start + size) / cs - start / cs
  }

  /** One step further crosses at most one more boundary. */
  lemma DivStep(x: nat, d: nat)
    requires d > 0
    ensures x / d <= (x + 1) / d <= x / d + 1
  {
    DivMonotone(x, x + 1, d);
    var q, r := x / d, x % d;
    assert x == q * d + r;
    if r + 1 < d {
      ModUnique(x + 1, d, q, r + 1);
    } else {
      assert (q + 1) * d == q * d + d;
      ModUnique(x + 1, d, q + 1, 0);
    }
  }

  /**
    Off the direct path the loop runs at most twice if and only if the crossings fit the 32 bits
    they are counted in.
  */
  lemma AtMostTwoPieces(cs: nat, start: nat, size: nat)
    requires cs > 0 && size > 0 && start + size < WORD64 && !WritesDirectly(cs, start, size)
    ensures 1 <= |Split(cs, start, size)|
    ensures |Split(cs, start, size)| <= 2 <==> Crossings(cs, start, size) < WORD32
  {
    SplitTiles(cs, start, size);
    DivMonotone(start, start + size - 1, cs);
    DivStep(start + size - 1, cs);
    if Crossings(cs, start, size) < WORD32 {
      CrossCountExact(cs, start, size);
    }
  }

  /** 2^44 bytes from offset one in pages: the count wraps to zero, and the loop is taken 2^32 + 1 times. */
  lemma CrossingsWrap()
    ensures CrossCount(4096, 1, 4096 * WORD32) == 0 && !WritesDirectly(4096, 1, 4096 * WORD32)
    ensures |Split(4096, 1, 4096 * WORD32)| == WORD32 + 1
  {
    SplitTiles(4096, 1, 4096 * WORD32);
  }

  lemma CrossCountExact(cs: nat, start: nat, size: nat)
    requires cs > 0 && start + size < WORD64
    ensures CrossCount(cs, start, size) == Crossings(cs, start, size) % WORD32
    ensures Crossings(cs, start, size) < WORD32 ==> CrossCount(cs, start, size) == Crossings(cs, start, size)
  {
    assert (start + size) % WORD64 == start + size;
  }

  // ----- which way a payload goes --------------------------------------------------------

  /** Where chunk `q` begins. */
  function ChunkAt(cs: nat, q: nat): nat {
    q * cs
  }

  /** The range holds a whole chunk that begins after it does. */
  ghost predicate HoldsLater(cs: nat, start: nat, end: nat) {
    exists q: nat :: start < ChunkAt(cs, q) && ChunkAt(cs, q) + cs <= end
  }

  lemma CrossesTwice(cs: nat, start: nat, size: nat)
    requires cs > 0 && Crossings(cs, start, size) >= 2
    ensures HoldsLater(cs, start, start + size)
  {
    var q, e := start / cs, (start + size) / cs;
    ChunkEndAbove(cs, start);
    ChunkEndAbove(cs, start + size);
    MulAtLeast(e - q - 1, cs);
    assert (q + 1) * cs + (e - q - 1) * cs == e * cs;
    assert start < ChunkAt(cs, q + 1) && ChunkAt(cs, q + 1) + cs <= start + size;
  }

  lemma HoldsCrosses(cs: nat, start: nat, size: nat, q: nat)
    requires cs > 0 && start < ChunkAt(cs, q) && ChunkAt(cs, q) + cs <= start + size
    ensures Crossings(cs, start, size) >= 2
  {
    ModUnique(q * cs, cs, q, 0);
    assert (q + 1) * cs == q * cs + cs;
    ModUnique(q * cs + cs, cs, q + 1, 0);
    DivMonotone(q * cs + cs, start + size, cs);
    DivMonotone(start, q * cs - 1, cs);
    assert q * cs - 1 == (q - 1) * cs + (cs - 1);
    ModUnique(q * cs - 1, cs, q - 1, cs - 1);
  }

  /**
    While the crossings fit their 32 bits, a payload goes around the chunk ring exactly if its range
    holds a whole chunk that begins after the range does, or is one whole chunk.
  */
  lemma DirectIff(cs: nat, start: nat, size: nat)
    requires cs > 0 && start + size < WORD64 && Crossings(cs, start, size) < WORD32
    ensures WritesDirectly(cs, start, size) <==>
            HoldsLater(cs, start, start + size) || (size == cs && start % cs == 0)
  {
    CrossCountExact(cs, start, size);
    if HoldsLater(cs, start, start + size) {
      var q: nat :| start < ChunkAt(cs, q) && ChunkAt(cs, q) + cs <= start + size;
      HoldsCrosses(cs, start, size, q);
    } else if Crossings(cs, start, size) >= 2 {
      CrossesTwice(cs, start, size);
    }
  }

  // ----- the pieces carry the payload ----------------------------------------------------

  /** Part of the payload that a piece carries. */
  function Carried(data: seq<byte>, start: nat, p: Piece): seq<byte> {
    if start <= p.at && p.at - start + p.len <= |data| then data[p.at - start..p.at - start + p.len] else []
  }

  /** The file after storing every piece, one after the other. */
  function StorePieces(file: seq<byte>, data: seq<byte>, start: nat, pieces: seq<Piece>): seq<byte>
    decreases |pieces|
  {
    if pieces == [] then file
    else StorePieces(Overwrite(file, pieces[0].at, Carried(data, start, pieces[0])), data, start, pieces[1..])
  }

  lemma OverwriteJoins(file: seq<byte>, at: nat, a: seq<byte>, b: seq<byte>)
    requires at + |a| + |b| <= |file|
    ensures Overwrite(Overwrite(file, at, a), at + |a|, b) == Overwrite(file, at, a + b)
  {
  }

  predicate Contiguous(pieces: seq<Piece>, from: nat, to: nat) {
    if pieces == [] then from == to
    else pieces[0].at == from && from + pieces[0].len <= to && Contiguous(pieces[1..], from + pieces[0].len, to)
  }

  /** The pieces follow one another over the whole range. */
  predicate Covers(pieces: seq<Piece>, start: nat, size: nat) {
    Contiguous(pieces, start, start + size)
  }

  lemma {:induction false} TilesContiguous(cs: nat, pieces: seq<Piece>, from: nat, to: nat)
    requires cs > 0 && Tiles(cs, pieces, from, to)
    ensures from <= to && Contiguous(pieces, from, to)
  {
    if pieces != [] {
      TilesContiguous(cs, pieces[1..], from + pieces[0].len, to);
    }
  }

  lemma SplitContiguous(cs: nat, cur: nat, remaining: nat) returns (pieces: seq<Piece>)
    requires cs > 0
    ensures pieces == Split(cs, cur, remaining) && Covers(pieces, cur, remaining)
  {
    pieces := Split(cs, cur, remaining);
    SplitTiles(cs, cur, remaining);
    TilesContiguous(cs, pieces, cur, cur + remaining);
  }

  lemma JoinAt(file: seq<byte>, at: nat, data: seq<byte>, i: nat, n: nat)
    requires i + n <= |data| && at + |data| - i <= |file|
    ensures Overwrite(Overwrite(file, at, data[i..i + n]), at + n, data[i + n..]) == Overwrite(file, at, data[i..])
  {
    assert data[i..i + n] + data[i + n..] == data[i..];
    OverwriteJoins(file, at, data[i..i + n], data[i + n..]);
  }

  /** Storing contiguous pieces from payload index `i` on equals one store of the rest. */
  lemma {:induction false} PiecesFrom(file: seq<byte>, data: seq<byte>, start: nat, i: nat, pieces: seq<Piece>)
    requires start + |data| <= |file| && i <= |data|
    requires Contiguous(pieces, start + i, start + |data|)
    ensures StorePieces(file, data, start, pieces) == Overwrite(file, start + i, data[i..])
    decreases |pieces|, 1
  {
    if pieces == [] {
      assert data[i..] == [];
    } else {
      PiecesStep(file, data, start, i, pieces);
    }
  }

  lemma {:induction false} PiecesStep(file: seq<byte>, data: seq<byte>, start: nat, i: nat, pieces: seq<Piece>)
    requires start + |data| <= |file| && i <= |data| && pieces != []
    requires Contiguous(pieces, start + i, start + |data|)
    ensures StorePieces(file, data, start, pieces) == Overwrite(file, start + i, data[i..])
    decreases |pieces|, 0
  {
    var n, tail := pieces[0].len, pieces[1..];
    assert i + n <= |data| && Contiguous(tail, start + i + n, start + |data|);
    var file' := Overwrite(file, start + i, data[i..i + n]);
    calc {
      StorePieces(file, data, start, pieces);
      { assert Carried(data, start, pieces[0]) == data[i..i + n]; }
      StorePieces(file', data, start, tail);
      { PiecesFrom(file', data, start, i + n, tail); }
      Overwrite(file', start + i + n, data[i + n..]);
      { JoinAt(file, start + i, data, i, n); }
      Overwrite(file, start + i, data[i..]);
    }
  }

  /** Storing the pieces leaves the file image that one `pwrite` of the payload would leave. */
  lemma SplitEqualsPwrite(file: seq<byte>, data: seq<byte>, start: nat, cs: nat)
    requires cs > 0 && start + |data| <= |file|
    ensures StorePieces(file, data, start, Split(cs, start, |data|)) == Overwrite(file, start, data)
  {
    var pieces := SplitContiguous(cs, start, |data|);
    StoreAll(file, data, start, pieces);
  }

  lemma StoreAll(file: seq<byte>, data: seq<byte>, start: nat, pieces: seq<Piece>)
    requires start + |data| <= |file| && Covers(pieces, start, |data|)
    ensures StorePieces(file, data, start, pieces) == Overwrite(file, start, data)
  {
    PiecesFrom(file, data, start, 0, pieces);
    assert data[0..] == data;
  }
}
