/**
 * The piece catalogue and the shared reserve of a Homeworlds-style game
 * (game_engine/game.py:26-98, 153-172, 202-204, 581-592).
 *
 * A piece is a colour and a size; there are twelve kinds of piece. The
 * reserve holds a count per kind, indexed by the piece's reserve key
 * ("g1", "b3", ...): the model keeps the twelve counts in a sequence whose
 * positions follow the key order of the RESERVE schema.
 */
module Pieces {

  datatype Option<T> = None | Some(value: T)

  datatype Color = Red | Green | Blue | Yellow

  type Size = s: int | 1 <= s <= 3 witness 1

  datatype Piece = Piece(color: Color, size: Size)

  /** The first letter of the colour's name, which create_piece_key uses. */
  function Initial(c: Color): char
  {
    match c
    case Red => 'r'
    case Green => 'g'
    case Blue => 'b'
    case Yellow => 'y'
  }

  /** The decimal digit of a size, as `str(size)`. */
  function Digit(s: Size): char
  {
    if s == 1 then '1' else if s == 2 then '2' else '3'
  }

  /** create_piece_key: the reserve key of a piece, colour initial then size. */
  function PieceKey(p: Piece): string
  {
    [Initial(p.color), Digit(p.size)]
  }

  /** The twelve reserve keys, in the order the RESERVE schema lists them. */
  const ReserveKeys: seq<string> :=
    ["g1", "g2", "g3", "b1", "b2", "b3", "y1", "y2", "y3", "r1", "r2", "r3"]

  /** Colours in the order their keys appear in ReserveKeys. */
  const KeyColors: seq<Color> := [Green, Blue, Yellow, Red]

  function ColorRank(c: Color): (i: nat)
    ensures i < 4 && KeyColors[i] == c
  {
    match c
    case Green => 0
    case Blue => 1
    case Yellow => 2
    case Red => 3
  }

  /** The position of a piece's key among the reserve keys. */
  function Slot(p: Piece): (i: nat)
    ensures i < 12 && ReserveKeys[i] == PieceKey(p)
  {
    ColorRank(p.color) * 3 + p.size - 1
  }

  /** The piece whose key stands at position i of the reserve keys. */
  function PieceAt(i: nat): (p: Piece)
    requires i < 12
    ensures Slot(p) == i
  {
    Piece(KeyColors[i / 3], i % 3 + 1)
  }

  /** Distinct pieces have distinct keys, and the keys are exactly the twelve of the schema. */
  lemma {:induction false} PieceKeyInjective(p: Piece, q: Piece)
    ensures PieceKey(p) == PieceKey(q) <==> p == q
    ensures PieceKey(p) in ReserveKeys
  {
    if PieceKey(p) == PieceKey(q) {
      assert Initial(p.color) == PieceKey(p)[0] == PieceKey(q)[0] == Initial(q.color);
      assert Digit(p.size) == PieceKey(p)[1] == PieceKey(q)[1] == Digit(q.size);
    }
    assert ReserveKeys[Slot(p)] == PieceKey(p);
  }

  /** Every position of the reserve belongs to exactly one piece. */
  lemma SlotInjective()
    ensures forall p: Piece, q: Piece {:trigger Slot(p), Slot(q)} :: Slot(p) == Slot(q) ==> p == q
  {
    forall p: Piece, q: Piece | Slot(p) == Slot(q) ensures p == q {
      PieceKeyInjective(p, q);
    }
  }

  /** Twelve counts, one per reserve key. */
  type Reserve = r: seq<int> | |r| == 12 witness [3, 3, 3, 3, 3, 3, 3, 3, 3, 3, 3, 3]

  /** `reserve[create_piece_key(p)]` */
  function Amount(r: Reserve, p: Piece): int
  {
    r[Slot(p)]
  }

  ghost predicate NonNegative(r: Reserve)
  {
    forall p: Piece :: Amount(r, p) >= 0
  }

  /** The starting reserve: three pieces of every kind (game_engine/main.py:107-120). */
  function InitialReserve(): (r: Reserve)
    ensures forall p: Piece :: Amount(r, p) == 3
  {
    [3, 3, 3, 3, 3, 3, 3, 3, 3, 3, 3, 3]
  }

  /** _add_piece_to_reserve: one more piece of p's kind, every other kind unchanged. */
  function AddPiece(r: Reserve, p: Piece): (r': Reserve)
    ensures Amount(r', p) == Amount(r, p) + 1
    ensures forall q: Piece :: q != p ==> Amount(r', q) == Amount(r, q)
  {
    SlotInjective();
    r[Slot(p) := r[Slot(p)] + 1]
  }

  /** _remove_piece_from_reserve: one fewer piece of p's kind, every other kind unchanged. */
  function RemovePiece(r: Reserve, p: Piece): (r': Reserve)
    ensures Amount(r', p) == Amount(r, p) - 1
    ensures forall q: Piece :: q != p ==> Amount(r', q) == Amount(r, q)
  {
    SlotInjective();
    r[Slot(p) := r[Slot(p)] - 1]
  }

  /** check_piece_in_reserve: a piece of p's kind is left, so taking one cannot underflow. */
  function PieceInReserve(r: Reserve, p: Piece): (b: bool)
    ensures b <==> Amount(r, p) >= 1
    ensures b && NonNegative(r) ==> NonNegative(RemovePiece(r, p))
  {
    Amount(r, p) > 0
  }

  /** check_color_in_reserve: the three counts of colour c add up to more than zero. */
  function ColorInReserve(r: Reserve, c: Color): (b: bool)
    ensures b ==> exists s: Size :: Amount(r, Piece(c, s)) > 0
    ensures NonNegative(r) && (exists s: Size :: Amount(r, Piece(c, s)) > 0) ==> b
  {
    Amount(r, Piece(c, 1)) + Amount(r, Piece(c, 2)) + Amount(r, Piece(c, 3)) > 0
  }

  /** The size construct builds: the smallest size of colour c whose count is positive. */
  function SmallestAvailable(r: Reserve, c: Color): (o: Option<Size>)
    ensures o.None? <==> forall s: Size :: Amount(r, Piece(c, s)) <= 0
    ensures o.Some? ==> Amount(r, Piece(c, o.value)) > 0
    ensures o.Some? ==> forall s: Size :: s < o.value ==> Amount(r, Piece(c, s)) <= 0
  {
    if Amount(r, Piece(c, 1)) > 0 then Some(1)
    else if Amount(r, Piece(c, 2)) > 0 then Some(2)
    else if Amount(r, Piece(c, 3)) > 0 then Some(3)
    else None
  }

  /** Return every piece of ps to the reserve, one at a time and in order. */
  function Refund(r: Reserve, ps: seq<Piece>): (r': Reserve)
    ensures forall q: Piece :: Amount(r', q) == Amount(r, q) + multiset(ps)[q]
    decreases |ps|
  {
    if ps == [] then r
    else
      assert ps == [ps[0]] + ps[1..];
      Refund(AddPiece(r, ps[0]), ps[1..])
  }

  /** Take every piece of ps from the reserve, one at a time and in order. */
  function Withdraw(r: Reserve, ps: seq<Piece>): (r': Reserve)
    ensures forall q: Piece :: Amount(r', q) == Amount(r, q) - multiset(ps)[q]
    decreases |ps|
  {
    if ps == [] then r
    else
      assert ps == [ps[0]] + ps[1..];
      Withdraw(RemovePiece(r, ps[0]), ps[1..])
  }
}
