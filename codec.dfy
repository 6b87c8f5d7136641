/** Conversion between keys and grid positions, and the enumeration of the
    keys of a board.  Keys are built by indexing the alphabets but decoded
    by subtracting fixed character codes, and the two schemes are offset
    from each other: decoding the key of (f, r) gives (f - 17, r - 10). */
module Codec {
  import opened Types

  /** The end index JavaScript's `slice(0, n)` uses on a list of length `len`:
      a negative `n` counts from the end, and the result is clamped to the list. */
  function SliceEnd(len: nat, n: int): (e: nat)
    ensures e <= len
  {
    if n < 0 then (if len + n < 0 then 0 else len + n)
    else if n > len then len
    else n
  }

  /** Slicing a second time at the end of a first slice keeps it: an end
      already inside the list is taken as it is. */
  lemma SliceEndIdempotent(len: nat, n: int)
    ensures SliceEnd(len, SliceEnd(len, n)) == SliceEnd(len, n)
  {
  }

  /** The first `n` file symbols, as `slice(0, n)` takes them. */
  function FilesPrefix(n: int): (fs: seq<char>)
    ensures |fs| == SliceEnd(|Files|, n)
    ensures forall i :: 0 <= i < |fs| ==> fs[i] == Files[i]
  {
    Files[..SliceEnd(|Files|, n)]
  }

  /** The first `n` rank symbols, as `slice(0, n)` takes them. */
  function RanksPrefix(n: int): (rs: seq<char>)
    ensures |rs| == SliceEnd(|Ranks|, n)
    ensures forall j :: 0 <= j < |rs| ==> rs[j] == Ranks[j]
  {
    Ranks[..SliceEnd(|Ranks|, n)]
  }

  /** The key of a 1-based position: its file symbol followed by its rank
      symbol, whose codes are 79 + file and 38 + rank. */
  function Pos2Key(p: Pos): (k: string)
    requires 1 <= p.file <= |Files| && 1 <= p.rank <= |Ranks|
    ensures |k| == 2 && k[0] as int == 79 + p.file && k[1] as int == 38 + p.rank
  {
    FileCodes();
    RankCodes();
    [Files[p.file - 1]] + [Ranks[p.rank - 1]]
  }

  /** The key of a position is a key. */
  lemma Pos2KeyIsKey(p: Pos)
    requires 1 <= p.file <= |Files| && 1 <= p.rank <= |Ranks|
    ensures IsKey(Pos2Key(p))
  {
    assert Pos2Key(p)[0] == Files[p.file - 1];
    assert Pos2Key(p)[1] == Ranks[p.rank - 1];
  }

  /** The position of a key, decoded by subtracting the codes of '`' and '0'
      from its two characters.  On a key this is the alphabet index of each
      symbol, shifted down by 16 and by 9. */
  function Key2Pos(k: string): (p: Pos)
    requires |k| >= 2
    ensures IsKey(k) ==>
              -16 <= p.file <= 23 && -9 <= p.rank <= 10 &&
              k[0] == Files[p.file + 16] && k[1] == Ranks[p.rank + 9]
  {
    if IsKey(k) then
      KeyCodes(k);
      Pos(k[0] as int - 96, k[1] as int - 48)
    else
      Pos(k[0] as int - 96, k[1] as int - 48)
  }

  /** The two characters of a key lie in the code ranges of the alphabets
      and are the symbols at those codes. */
  lemma KeyCodes(k: string)
    requires IsKey(k)
    ensures |k| == 2 && 80 <= k[0] as int < 120 && 39 <= k[1] as int < 59
    ensures k[0] == Files[k[0] as int - 80] && k[1] == Ranks[k[1] as int - 39]
  {
    FileCodes();
    RankCodes();
    if k == Sentinel {
      assert k[0] == Files[17] && k[1] == Ranks[9];
    } else {
      var i :| 0 <= i < |Files| && Files[i] == k[0];
      var j :| 0 <= j < |Ranks| && Ranks[j] == k[1];
    }
  }

  /** Decoding the key of a position does not give the position back but
      shifts it by (-17, -10). */
  lemma Key2PosOfPos2Key(p: Pos)
    requires 1 <= p.file <= |Files| && 1 <= p.rank <= |Ranks|
    ensures Key2Pos(Pos2Key(p)) == Pos(p.file - 17, p.rank - 10)
  {
  }

  /** Distinct positions have distinct keys. */
  lemma Pos2KeyInjective(p: Pos, q: Pos)
    requires 1 <= p.file <= |Files| && 1 <= p.rank <= |Ranks|
    requires 1 <= q.file <= |Files| && 1 <= q.rank <= |Ranks|
    requires Pos2Key(p) == Pos2Key(q)
    ensures p == q
  {
    Key2PosOfPos2Key(p);
    Key2PosOfPos2Key(q);
  }

  /** Every key, the sentinel included, is the key of exactly the position
      one past the shifted decoding. */
  lemma KeyOfDecodedPos(k: string)
    requires IsKey(k)
    ensures var p := Key2Pos(k);
            1 <= p.file + 17 <= |Files| && 1 <= p.rank + 10 <= |Ranks| &&
            Pos2Key(Pos(p.file + 17, p.rank + 10)) == k
  {
    var p := Key2Pos(k);
    assert Pos2Key(Pos(p.file + 17, p.rank + 10)) == [k[0], k[1]];
  }

  /** The "no square" sentinel is the key of file 18, rank 10, and decodes to (1, 0). */
  lemma SentinelIsASquare()
    ensures Pos2Key(Pos(18, 10)) == Sentinel
    ensures Key2Pos(Sentinel) == Pos(1, 0)
  {
    assert Files[17] == 'a' && Ranks[9] == '0';
  }

  /** Concatenation of a list of lists. */
  function Concat(xss: seq<seq<string>>): seq<string>
  {
    if xss == [] then [] else xss[0] + Concat(xss[1..])
  }

  /** In a row-major table of `h` columns, entry (i, j) sits before row `w` when i < w. */
  lemma RowMajorBound(i: nat, j: nat, w: nat, h: nat)
    requires i < w && j < h
    ensures i * h + j < w * h
  {
    MulLe(i + 1, w, h);
  }

  /** Multiplication by a natural number is monotonic. */
  lemma {:induction false} MulLe(a: nat, b: nat, h: nat)
    requires a <= b
    ensures a * h <= b * h
  {
    if a < b {
      MulLe(a, b - 1, h);
    }
  }

  /** An index below w * h splits into a row below w and a column below h. */
  lemma {:induction false} RowMajorSplit(n: nat, w: nat, h: nat) returns (i: nat, j: nat)
    requires n < w * h
    ensures i < w && j < h && n == i * h + j
    decreases n
  {
    if n < h {
      i, j := 0, n;
    } else {
      var i', j' := RowMajorSplit(n - h, w - 1, h);
      i, j := i' + 1, j';
    }
  }

  /** Concatenating rows of `h` entries each puts entry (i, j) at i * h + j. */
  lemma {:induction false} ConcatRows(xss: seq<seq<string>>, h: nat, i: nat, j: nat)
    requires forall r :: 0 <= r < |xss| ==> |xss[r]| == h
    requires i < |xss| && j < h
    ensures i * h + j < |xss| * h == |Concat(xss)|
    ensures Concat(xss)[i * h + j] == xss[i][j]
  {
    RowMajorBound(i, j, |xss|, h);
    ConcatLength(xss, h);
    if i > 0 {
      ConcatRows(xss[1..], h, i - 1, j);
      assert i * h + j == h + ((i - 1) * h + j);
      assert Concat(xss) == xss[0] + Concat(xss[1..]);
    }
  }

  /** Concatenating `n` rows of `h` entries gives n * h entries. */
  lemma {:induction false} ConcatLength(xss: seq<seq<string>>, h: nat)
    requires forall r :: 0 <= r < |xss| ==> |xss[r]| == h
    ensures |Concat(xss)| == |xss| * h
  {
    if xss != [] {
      ConcatLength(xss[1..], h);
      assert |xss| * h == h + (|xss| - 1) * h;
    }
  }

  /** Every key of a board with the given dimensions, file by file and,
      within a file, rank by rank: one key for each of the files and ranks
      that `slice` keeps. */
  function AllKeys(d: BoardDimensions): (ks: seq<string>)
  {
    Concat(KeyRows(FilesPrefix(d.width), RanksPrefix(d.height)))
  }

  /** One row of keys per file symbol, each with every rank symbol. */
  function KeyRows(fs: seq<char>, rs: seq<char>): (rows: seq<seq<string>>)
    ensures |rows| == |fs|
    ensures forall i :: 0 <= i < |fs| ==> |rows[i]| == |rs|
  {
    seq(|fs|, i requires 0 <= i < |fs| => seq(|rs|, j requires 0 <= j < |rs| => [fs[i]] + [rs[j]]))
  }

  /** On a board no larger than the alphabets there are width * height keys. */
  lemma AllKeysLength(d: BoardDimensions)
    requires 0 <= d.width <= |Files| && 0 <= d.height <= |Ranks|
    ensures |AllKeys(d)| == d.width * d.height
  {
    ConcatLength(KeyRows(FilesPrefix(d.width), RanksPrefix(d.height)), d.height);
  }

  /** Entry i * height + j of a board's keys is the key of file i + 1, rank j + 1. */
  lemma AllKeysAt(d: BoardDimensions, i: nat, j: nat)
    requires 0 <= d.width <= |Files| && 0 <= d.height <= |Ranks|
    requires i < d.width && j < d.height
    ensures i * d.height + j < |AllKeys(d)|
    ensures AllKeys(d)[i * d.height + j] == Pos2Key(Pos(i + 1, j + 1))
  {
    ConcatRows(KeyRows(FilesPrefix(d.width), RanksPrefix(d.height)), d.height, i, j);
  }

  /** Every listed key is the key of a position on the board, the one
      whose file-major index it sits at. */
  lemma AllKeysOnBoard(d: BoardDimensions, n: nat) returns (p: Pos)
    requires 0 <= d.width <= |Files| && 0 <= d.height <= |Ranks|
    requires n < |AllKeys(d)|
    ensures 1 <= p.file <= d.width && 1 <= p.rank <= d.height
    ensures n == (p.file - 1) * d.height + (p.rank - 1)
    ensures AllKeys(d)[n] == Pos2Key(p)
  {
    AllKeysLength(d);
    var i, j := RowMajorSplit(n, d.width, d.height);
    AllKeysAt(d, i, j);
    p := Pos(i + 1, j + 1);
  }

  /** The keys of a board are pairwise distinct. */
  lemma AllKeysDistinct(d: BoardDimensions, a: nat, b: nat)
    requires 0 <= d.width <= |Files| && 0 <= d.height <= |Ranks|
    requires a < b < |AllKeys(d)|
    ensures AllKeys(d)[a] != AllKeys(d)[b]
  {
    var pa := AllKeysOnBoard(d, a);
    var pb := AllKeysOnBoard(d, b);
    assert pa != pb;
    Key2PosOfPos2Key(pa);
    Key2PosOfPos2Key(pb);
  }

  /** The sentinel names a real square of every board at least 18 files wide
      and 10 ranks high. */
  lemma SentinelOnBoard(d: BoardDimensions)
    requires 18 <= d.width <= |Files| && 10 <= d.height <= |Ranks|
    ensures Sentinel in AllKeys(d)
  {
    SentinelIsASquare();
    AllKeysAt(d, 17, 9);
  }

  /** Asking for more files or ranks than the alphabets hold, or for a
      negative number of them, lists the keys of the board `slice` clamps to. */
  lemma AllKeysClamped(d: BoardDimensions)
    ensures AllKeys(d) == AllKeys(BoardDimensions(SliceEnd(|Files|, d.width), SliceEnd(|Ranks|, d.height)))
  {
    assert FilesPrefix(d.width) == FilesPrefix(SliceEnd(|Files|, d.width));
    assert RanksPrefix(d.height) == RanksPrefix(SliceEnd(|Ranks|, d.height));
  }

  /** Every listed key of a board has two characters. */
  lemma AllKeysPairs(d: BoardDimensions)
    requires 0 <= d.width <= |Files| && 0 <= d.height <= |Ranks|
    ensures forall n :: 0 <= n < |AllKeys(d)| ==> |AllKeys(d)[n]| == 2
  {
    forall n | 0 <= n < |AllKeys(d)| ensures |AllKeys(d)[n]| == 2 {
      var p := AllKeysOnBoard(d, n);
    }
  }

  /** The decoded positions of the 20 x 10 board. */
  function AllPos(): seq<Pos>
  {
    AllKeysPairs(BoardDimensions(20, 10));
    DecodeAll(AllKeys(BoardDimensions(20, 10)))
  }

  /** Decodes each key of a list. */
  function DecodeAll(ks: seq<string>): (ps: seq<Pos>)
    requires forall n :: 0 <= n < |ks| ==> |ks[n]| >= 2
    ensures |ps| == |ks|
    ensures forall n :: 0 <= n < |ks| ==> ps[n] == Key2Pos(ks[n])
  {
    seq(|ks|, n requires 0 <= n < |ks| => Key2Pos(ks[n]))
  }

  /** There are 200 decoded positions, and entry i * 10 + j is (i - 16, j - 9). */
  lemma AllPosAt(i: nat, j: nat)
    requires i < 20 && j < 10
    ensures |AllPos()| == 200
    ensures AllPos()[i * 10 + j] == Pos(i - 16, j - 9)
  {
    var d := BoardDimensions(20, 10);
    AllKeysLength(d);
    AllKeysAt(d, i, j);
    Key2PosOfPos2Key(Pos(i + 1, j + 1));
  }

  /** A list in reverse order. */
  function Reverse<T>(s: seq<T>): (r: seq<T>)
    ensures |r| == |s|
  {
    if s == [] then [] else [s[|s| - 1]] + Reverse(s[..|s| - 1])
  }

  /** The k-th entry of the reverse is the k-th from the end. */
  lemma {:induction false} ReverseAt<T>(s: seq<T>, k: nat)
    requires k < |s|
    ensures Reverse(s)[k] == s[|s| - 1 - k]
  {
    if k > 0 {
      ReverseAt(s[..|s| - 1], k - 1);
    }
  }

  /** The rank symbols from last to first. */
  const InvRanks: seq<char> := Reverse(Ranks)

  /** The rank numbers 1 .. 10, and the same from 10 down to 1. */
  const NRanks: seq<int> := [1, 2, 3, 4, 5, 6, 7, 8, 9, 10]
  const InvNRanks: seq<int> := [10, 9, 8, 7, 6, 5, 4, 3, 2, 1]

  /** The reversed rank symbols run from ':' down to '\''. */
  lemma InvRanksAt()
    ensures |InvRanks| == |Ranks|
    ensures forall j :: 0 <= j < |Ranks| ==> InvRanks[j] == Ranks[|Ranks| - 1 - j]
  {
    forall j | 0 <= j < |Ranks| ensures InvRanks[j] == Ranks[|Ranks| - 1 - j] {
      ReverseAt(Ranks, j);
    }
  }

  /** The descending rank numbers are the ascending ones reversed. */
  lemma InvNRanksReversed()
    ensures InvNRanks == Reverse(NRanks)
  {
    forall k | 0 <= k < |NRanks| ensures Reverse(NRanks)[k] == InvNRanks[k] {
      ReverseAt(NRanks, k);
    }
  }
}
