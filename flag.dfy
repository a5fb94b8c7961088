/**
 * The packed flag byte of a tree node: bits 0-1 hold the node's relation to
 * its parent (LEFT = 0, RIGHT = 1, PARENT = 2) and bits 2-3 its colour
 * (RED = 0b000, BLACK = 0b100, ROOT = 0b1000). Bits 4-7 are never read.
 */
module Flag {

  /** Which slot of its parent a node occupies; PARENT marks a node without one. */
  datatype Rela = LEFT | RIGHT | PARENT {

    /** The other child slot; PARENT stays PARENT. */
    function Toggle(): (r: Rela)
      ensures (r == PARENT) == (this == PARENT)
      ensures this != PARENT ==> r != this
    {
      match this
      case LEFT => RIGHT
      case RIGHT => LEFT
      case PARENT => PARENT
    }

    /** The relation's code in bits 0-1 (the enum discriminant). */
    function Code(): (b: bv8)
      ensures IsRelaCode(b) && RelaFrom(b) == this
    {
      match this
      case LEFT => 0
      case RIGHT => 1
      case PARENT => 2
    }
  }

  /** The codes `Rela::from` accepts; any other value is unreachable there. */
  predicate IsRelaCode(b: bv8) {
    b == 0 || b == 1 || b == 2
  }

  /** Decodes bits 0-1. */
  function RelaFrom(b: bv8): (r: Rela)
    requires IsRelaCode(b)
    ensures (r == LEFT) == (b == 0) && (r == RIGHT) == (b == 1) && (r == PARENT) == (b == 2)
  {
    if b == 0 then LEFT else if b == 1 then RIGHT else PARENT
  }

  /** A node's colour; ROOT is the colour of the sentinel header node. */
  datatype Color = RED | BLACK | ROOT {

    /** RED and BLACK swap; ROOT stays ROOT. */
    function Toggle(): (r: Color)
      ensures (r == ROOT) == (this == ROOT)
      ensures this != ROOT ==> r != this
    {
      match this
      case RED => BLACK
      case BLACK => RED
      case ROOT => ROOT
    }

    /** The colour's code in bits 2-3: the discriminant shifted left by two. */
    function Code(): (b: bv8)
      ensures IsColorCode(b) && ColorFrom(b) == this
    {
      match this
      case RED => 0
      case BLACK => 1 << 2
      case ROOT => 2 << 2
    }
  }

  /** The codes `Color::from` accepts. */
  predicate IsColorCode(b: bv8) {
    b == 0 || b == 4 || b == 8
  }

  /** Decodes bits 2-3 (already masked). */
  function ColorFrom(b: bv8): (r: Color)
    requires IsColorCode(b)
    ensures (r == RED) == (b == 0) && (r == BLACK) == (b == 4) && (r == ROOT) == (b == 8)
  {
    if b == 0 then RED else if b == 4 then BLACK else ROOT
  }

  /** Masks of the two fields and of what the setters keep. */
  const RELA_BITS: bv8 := 0x03
  const COLOR_BITS: bv8 := 0x0C
  const KEEP_COLOR: bv8 := 0xFC
  const KEEP_RELA: bv8 := 0xF3

  datatype Flag = Flag(bits: bv8) {

    /** Both fields hold a code that decodes: `rela()` and `color()` cannot reach `unreachable!`. */
    predicate WellFormed() {
      IsRelaCode(bits & RELA_BITS) && IsColorCode(bits & COLOR_BITS)
    }

    predicate IsRed() {
      bits & COLOR_BITS == RED.Code()
    }

    predicate IsBlack() {
      bits & COLOR_BITS == BLACK.Code()
    }

    predicate IsRoot() {
      bits & COLOR_BITS == ROOT.Code()
    }

    predicate IsLeft() {
      bits & RELA_BITS == LEFT.Code()
    }

    predicate IsRight() {
      bits & RELA_BITS == RIGHT.Code()
    }

    /** The decoded relation. */
    function Rela(): (r: Rela)
      requires WellFormed()
      ensures (r == LEFT) == IsLeft() && (r == RIGHT) == IsRight()
    {
      RelaFrom(bits & RELA_BITS)
    }

    /** The decoded colour. */
    function Color(): (c: Color)
      requires WellFormed()
      ensures (c == RED) == IsRed() && (c == BLACK) == IsBlack() && (c == ROOT) == IsRoot()
    {
      ColorFrom(bits & COLOR_BITS)
    }

    /** `set(flag)`: overwrite the whole byte. */
    function Set(b: bv8): (f: Flag)
      ensures f.bits == b
    {
      Flag(b)
    }

    /** `clear()`: the zero byte, as after `new`. */
    function Clear(): (f: Flag)
      ensures f.WellFormed() && f.IsRed() && f.IsLeft()
    {
      Flag(0)
    }

    /** `set_rela`: replaces bits 0-1, keeps the rest. */
    function SetRela(r: Rela): (f: Flag)
      ensures f.bits & KEEP_COLOR == bits & KEEP_COLOR
      ensures f.bits & RELA_BITS == r.Code()
      ensures WellFormed() ==> f.WellFormed() && f.Rela() == r && f.Color() == Color()
    {
      Flag((bits & KEEP_COLOR) | r.Code())
    }

    /** `set_left`. */
    function SetLeft(): (f: Flag)
      ensures f == SetRela(LEFT)
      ensures WellFormed() ==> f.WellFormed() && f.IsLeft() && f.Color() == Color()
    {
      Flag((bits & KEEP_COLOR) | LEFT.Code())
    }

    /** `set_right`. */
    function SetRight(): (f: Flag)
      ensures f == SetRela(RIGHT)
      ensures WellFormed() ==> f.WellFormed() && f.IsRight() && f.Color() == Color()
    {
      Flag((bits & KEEP_COLOR) | RIGHT.Code())
    }

    /**
     * `set_color` as the source writes it: the mask 0b11110000 clears bits 0-3,
     * so the relation is reset to LEFT as well.
     */
    function SetColorAsWritten(c: Color): (f: Flag)
      ensures f.bits & 0xF0 == bits & 0xF0
      ensures f.WellFormed() && f.Color() == c && f.Rela() == LEFT
    {
      Flag((bits & 0xF0) | c.Code())
    }

    /** `set_color` with the mask the other colour setters use: only bits 2-3 change. */
    function SetColor(c: Color): (f: Flag)
      ensures f.bits & KEEP_RELA == bits & KEEP_RELA
      ensures f.bits & COLOR_BITS == c.Code()
      ensures WellFormed() ==> f.WellFormed() && f.Color() == c && f.Rela() == Rela()
    {
      Flag((bits & KEEP_RELA) | c.Code())
    }

    /** `set_red`. */
    function SetRed(): (f: Flag)
      ensures f == SetColor(RED)
      ensures WellFormed() ==> f.WellFormed() && f.IsRed() && f.Rela() == Rela()
    {
      Flag((bits & KEEP_RELA) | RED.Code())
    }

    /** `set_black`. */
    function SetBlack(): (f: Flag)
      ensures f == SetColor(BLACK)
      ensures WellFormed() ==> f.WellFormed() && f.IsBlack() && f.Rela() == Rela()
    {
      Flag((bits & KEEP_RELA) | BLACK.Code())
    }

    /** `set_root`. */
    function SetRoot(): (f: Flag)
      ensures f == SetColor(ROOT)
      ensures WellFormed() ==> f.WellFormed() && f.IsRoot() && f.Rela() == Rela()
    {
      Flag((bits & KEEP_RELA) | ROOT.Code())
    }
  }

  /** `Flag::new`: the zero byte, which is also what a zeroed allocation holds. */
  function NewFlag(): (f: Flag)
    ensures f.WellFormed() && f.Color() == RED && f.Rela() == LEFT
  {
    Flag(0)
  }

  /** A flag built from a relation and a colour decodes back to them. */
  function MakeFlag(r: Rela, c: Color): (f: Flag)
    ensures f.WellFormed() && f.Rela() == r && f.Color() == c
  {
    NewFlag().SetRela(r).SetColor(c)
  }

  /** Toggling a relation twice gives it back; the same for colours. */
  lemma ToggleInvolution(r: Rela, c: Color)
    ensures r.Toggle().Toggle() == r
    ensures c.Toggle().Toggle() == c
  {
  }

  /** On a well-formed flag exactly one colour predicate holds, and LEFT and RIGHT exclude each other. */
  lemma {:induction false} ExactlyOneColor(f: Flag)
    requires f.WellFormed()
    ensures f.IsRed() || f.IsBlack() || f.IsRoot()
    ensures !(f.IsRed() && f.IsBlack()) && !(f.IsRed() && f.IsRoot()) && !(f.IsBlack() && f.IsRoot())
    ensures !(f.IsLeft() && f.IsRight())
  {
    var c := f.bits & COLOR_BITS;
    assert c == 0 || c == 4 || c == 8;
  }

  /** Decoding inverts encoding: `Rela::from(r.into()) == r` and `Color::from(c.into()) == c`. */
  lemma {:induction false} DecodeEncode(r: Rela, c: Color)
    ensures RelaFrom(r.Code()) == r && ColorFrom(c.Code()) == c
    ensures r.Code() == (match r case LEFT => 0 case RIGHT => 1 case PARENT => 2)
    ensures c.Code() == (match c case RED => 0 case BLACK => 4 case ROOT => 8)
  {
  }

  /** Encoding inverts decoding on every accepted code. */
  lemma {:induction false} EncodeDecode(b: bv8)
    ensures IsRelaCode(b) ==> RelaFrom(b).Code() == b
    ensures IsColorCode(b) ==> ColorFrom(b).Code() == b
  {
  }

  /** The as-written `set_color` loses the relation: a black right child painted red reads as a left child. */
  lemma SetColorAsWrittenLosesRela()
    ensures Flag(0x05).WellFormed() && Flag(0x05).Rela() == RIGHT
    ensures Flag(0x05).SetColorAsWritten(RED).Rela() == LEFT
    ensures Flag(0x05).SetColor(RED).Rela() == RIGHT
  {
  }
}
