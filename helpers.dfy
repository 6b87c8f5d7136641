/** Small helpers on colours, positions and pieces. */
module Helpers {
  import opened Types

  /** The other colour. */
  function Opposite(c: Color): (o: Color)
    ensures o != c
  {
    if c == White then Black else White
  }

  /** Taking the other colour twice gives the colour back. */
  lemma OppositeInvolution(c: Color)
    ensures Opposite(Opposite(c)) == c
  {
  }

  /** The squared Euclidean distance between two positions: never negative,
      and zero exactly when the positions coincide. */
  function DistanceSq(p1: Pos, p2: Pos): (d: int)
    ensures d >= 0
    ensures d == 0 <==> p1 == p2
  {
    var dx := p1.file - p2.file;
    var dy := p1.rank - p2.rank;
    SquareNonNegative(dx);
    SquareNonNegative(dy);
    dx * dx + dy * dy
  }

  /** A square is never negative, and is zero only for zero. */
  lemma SquareNonNegative(n: int)
    ensures n * n >= 0 && (n * n == 0 <==> n == 0)
  {
    if n < 0 {
      assert n * n == (-n) * (-n) >= -n;
    } else if n > 0 {
      assert n * n >= n;
    }
  }

  /** Distance does not depend on the order of its arguments. */
  lemma DistanceSqSymmetric(p1: Pos, p2: Pos)
    ensures DistanceSq(p1, p2) == DistanceSq(p2, p1)
  {
    assert (p1.file - p2.file) * (p1.file - p2.file) == (p2.file - p1.file) * (p2.file - p1.file);
    assert (p1.rank - p2.rank) * (p1.rank - p2.rank) == (p2.rank - p1.rank) * (p2.rank - p1.rank);
  }

  /** Two pieces are the same when they agree on role and colour; the
      promotion flag is not compared. */
  function SamePiece(p1: Piece, p2: Piece): (same: bool)
    ensures same <==> p1.(promoted := None) == p2.(promoted := None)
  {
    p1.role == p2.role && p1.color == p2.color
  }

  /** Being the same piece is reflexive, symmetric and transitive. */
  lemma SamePieceEquivalence(p1: Piece, p2: Piece, p3: Piece)
    ensures SamePiece(p1, p1)
    ensures SamePiece(p1, p2) == SamePiece(p2, p1)
    ensures SamePiece(p1, p2) && SamePiece(p2, p3) ==> SamePiece(p1, p3)
  {
  }
}
