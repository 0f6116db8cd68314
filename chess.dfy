/**
 * The python-chess board as the text analysers, the robot arm and the
 * terminal display see it: what stands on each of the 64 squares (a1 = 0,
 * h8 = 63), whose turn it is, which moves are legal, and the library's
 * classification of a move.  All of these come from python-chess and stay
 * abstract; only the order in which the callers consult them is modelled.
 */
module Chess {
  import opened Wrappers

  datatype Kind = Pawn | Knight | Bishop | Rook | Queen | King

  /** `chess.Piece`: a kind and a colour (`white` is python-chess's `True`). */
  datatype Piece = Piece(kind: Kind, white: bool)

  /**
   * A position.  `legal(from, to, promotion)` says whether the move
   * `from`-`to` with the given promotion letter is in `board.legal_moves`;
   * the three classifiers are `board.is_castling`, `board.is_en_passant`
   * and `board.is_capture` of the move `from`-`to`; `moveCount` is
   * `len(board.move_stack)`.
   */
  datatype ChessBoard = ChessBoard(
    pieceAt: int -> Option<Piece>,
    whiteToMove: bool,
    legal: (int, int, Option<char>) -> bool,
    isCastling: (int, int) -> bool,
    isEnPassant: (int, int) -> bool,
    isCapture: (int, int) -> bool,
    moveCount: nat)

  /**
   * The four flags of a move-type record (`is_castling`, `is_en_passant`,
   * `is_capture`, `is_promotion`); a key that is missing reads as false.
   */
  datatype MoveFlags = MoveFlags(castling: bool, enPassant: bool, capture: bool, promotion: bool)

  /** The five move types every classifier in the program distinguishes. */
  datatype MoveType = Castling | EnPassant | Capture | Promotion | Normal

  /**
   * The shared priority: castling, then en passant, then capture, then
   * promotion; a move with no flag set is a normal move.
   */
  function Classify(f: MoveFlags): (t: MoveType)
    ensures t == Castling <==> f.castling
    ensures t == EnPassant <==> !f.castling && f.enPassant
    ensures t == Capture <==> !f.castling && !f.enPassant && f.capture
    ensures t == Promotion <==> !f.castling && !f.enPassant && !f.capture && f.promotion
    ensures t == Normal <==> !f.castling && !f.enPassant && !f.capture && !f.promotion
  {
    if f.castling then Castling
    else if f.enPassant then EnPassant
    else if f.capture then Capture
    else if f.promotion then Promotion
    else Normal
  }

  /**
   * A move-type record as a dictionary from flag names to booleans; a
   * missing key reads as false, and an empty dictionary is falsy.
   */
  type MoveTypeDict = map<string, bool>

  /** `move_type.get(key)`, read as a truth value. */
  predicate Flag(d: MoveTypeDict, key: string)
  {
    key in d && d[key]
  }

  /** The four flags a record carries. */
  function FlagsOf(d: MoveTypeDict): (f: MoveFlags)
    ensures f.castling == Flag(d, "is_castling") && f.enPassant == Flag(d, "is_en_passant")
    ensures f.capture == Flag(d, "is_capture") && f.promotion == Flag(d, "is_promotion")
  {
    MoveFlags(Flag(d, "is_castling"), Flag(d, "is_en_passant"), Flag(d, "is_capture"), Flag(d, "is_promotion"))
  }

  /** The Korean name the terminal and the robot arm print for each move type. */
  function TypeName(t: MoveType): string
  {
    match t
    case Castling => "캐슬링"
    case EnPassant => "앙파상"
    case Capture => "기물 잡기"
    case Promotion => "프로모션"
    case Normal => "일반 이동"
  }

  /** Different move types have different names, so a printed name tells the type. */
  lemma TypeNameInjective(s: MoveType, t: MoveType)
    requires TypeName(s) == TypeName(t)
    ensures s == t
  {
  }

  /** A higher-priority flag hides every lower one: only the first set flag matters. */
  lemma ClassifyIgnoresLowerFlags(f: MoveFlags, g: MoveFlags)
    requires f.castling == g.castling
    requires !f.castling ==> f.enPassant == g.enPassant
    requires !f.castling && !f.enPassant ==> f.capture == g.capture
    requires !f.castling && !f.enPassant && !f.capture ==> f.promotion == g.promotion
    ensures Classify(f) == Classify(g)
  {
  }
}
