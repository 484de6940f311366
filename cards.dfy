/** The `Card` value object: a value symbol and a suit symbol, both one-character strings in
    practice ("6".."9", "0" for ten, "F" for a face card; "R"/"B" for red/black number cards
    or a suit letter for face cards, "?" for the unknown sentinel). */
module Cards {

  datatype Card = Card(value: string, suit: string) {

    /** The identifier the program stores in `self.id`. */
    function Id(): string {
      value + suit
    }

    predicate IsFace() {
      value == "F"
    }

    predicate IsNumber() {
      !(value == "F")
    }

    predicate IsRed() {
      suit == "R"
    }
  }

  /** The card an exact match returns when nothing matches. */
  const Unknown := Card("?", "?")

  /** The identifier splits back into value and suit. */
  lemma IdSplits(c: Card)
    ensures |c.Id()| == |c.value| + |c.suit|
    ensures c.Id()[..|c.value|] == c.value && c.Id()[|c.value|..] == c.suit
  {
  }

  /** For one-character values (every card the program builds) the identifier determines the
      card: two cards with the same id are the same card. */
  lemma IdInjective(c: Card, d: Card)
    requires |c.value| == 1 && |d.value| == 1
    ensures c.Id() == d.Id() <==> c == d
  {
    if c.Id() == d.Id() {
      IdSplits(c);
      IdSplits(d);
    }
  }

  /** `is_number` is the negation of `is_face`. */
  lemma NumberIsNotFace(c: Card)
    ensures c.IsNumber() <==> !c.IsFace()
    ensures c.IsFace() <==> c.value == "F"
    ensures c.IsRed() <==> c.suit == "R"
  {
  }
}
