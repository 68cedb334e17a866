/** The two sides of the board and the colour class the tutor paints each glyph with.
    Red pieces are written with simplified characters, black pieces with traditional ones. */
module Pieces {

  /** The CSS classes the component returns for a red piece and for a black piece. */
  const RedClass: string := "text-red-600"
  const BlackClass: string := "text-black"

  /** The seven red glyphs (chariot, horse, elephant, advisor, general, cannon, soldier). */
  const RedPieces: set<string> := {"车", "马", "相", "仕", "帅", "炮", "兵"}

  /** The seven black glyphs, in the same order. */
  const BlackPieces: set<string> := {"車", "馬", "象", "士", "將", "砲", "卒"}

  /** The two alphabets are disjoint and each has seven glyphs; neither holds the empty cell. */
  lemma SidesDisjoint()
    ensures RedPieces !! BlackPieces
    ensures |RedPieces| == 7 && |BlackPieces| == 7
    ensures "" !in RedPieces && "" !in BlackPieces
  {
  }

  /** getPieceColor: the empty cell and any unknown glyph get no class; otherwise the glyph's side decides. */
  function PieceColor(piece: string): (cls: string)
    ensures piece == "" ==> cls == ""
    ensures cls == RedClass <==> piece in RedPieces
    ensures cls == BlackClass <==> piece in BlackPieces
    ensures cls == "" <==> piece !in RedPieces && piece !in BlackPieces
  {
    SidesDisjoint();
    if piece == "" then ""
    else if piece in RedPieces then RedClass
    else if piece in BlackPieces then BlackClass
    else ""
  }
}
