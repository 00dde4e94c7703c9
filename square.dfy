/** The content of one intersection of the board (src/board/square.rs). */
module Squares {

  datatype Square = Black | White | Empty

  /** The other player's colour; an empty intersection stays empty. */
  function Opposite(s: Square): (r: Square)
    ensures (s == Black <==> r == White) && (s == White <==> r == Black)
    ensures s == Empty <==> r == Empty
  {
    match s
    case Black => White
    case White => Black
    case Empty => Empty
  }

  /** Swapping colours twice gives back the square one started from. */
  lemma OppositeInvolution(s: Square)
    ensures Opposite(Opposite(s)) == s
  {
  }

  /** A stone never has its own colour as its opposite. */
  lemma OppositeOfStoneDiffers(s: Square)
    requires s != Empty
    ensures Opposite(s) != s
  {
  }
}
