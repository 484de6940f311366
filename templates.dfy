/** The nine built-in 12x12 templates of the fuzzy matcher, each twelve packed row words
    (twelve 2-bit levels per word, first column in the most significant bits), and their
    display names, in catalogue order. */
module Templates {
  import opened Packing

  const Num6: seq<nat> := [
    0xFE417F, 0xF4001F, 0xE01907, 0xD07E03,
    0xC069BF, 0xC0400B, 0xC01403, 0xC07E02,
    0xC0BF02, 0xD07E02, 0xE00003, 0xF8001F
  ]

  const Num7: seq<nat> := [
    0xC00002, 0xC00002, 0xC00007, 0xFFF40F,
    0xFFE02F, 0xFFC07F, 0xFF80BF, 0xFF00FF,
    0xFE02FF, 0xFD02FF, 0xFC03FF, 0xFC03FF
  ]

  const Num8: seq<nat> := [
    0xFD01BF, 0xF4001F, 0xD0240B, 0xD07D07,
    0xD07D07, 0xF5002F, 0xF5002F, 0xD02807,
    0xC07D03, 0xC07D03, 0xD00007, 0xF4001F
  ]

  const Num9: seq<nat> := [
    0xF900BF, 0xE0001F, 0xC0240B, 0x80FD03,
    0x80FE03, 0x807803, 0xD00003, 0xF80503,
    0xD5FD03, 0xC07C07, 0xE0000F, 0xF4002F
  ]

  const Num10: seq<nat> := [
    0xFFA0BF, 0xF900BF, 0xD000BF, 0xD000BF,
    0xFF40BF, 0xFF40BF, 0xFF40BF, 0xFF40BF,
    0xFF40BF, 0xFA41BF, 0xD00003, 0xD00003
  ]

  const Club: seq<nat> := [
    0xFF80BF, 0xFE002F, 0xF8000B, 0xFD001F,
    0xCF407C, 0x03D1F0, 0x00F3C0, 0x001100,
    0x001100, 0x00F3C0, 0x03F3F0, 0xDFD1FD
  ]

  const Diamond: seq<nat> := [
    0xFFE1FF, 0xFF807F, 0xFE001F, 0xF80007,
    0xE00001, 0x800000, 0x000000, 0x000000,
    0x000000, 0x000000, 0x800000, 0xE00003
  ]

  const Heart: seq<nat> := [
    0xFFFFFF, 0xFFBFFF, 0xFD2FFF, 0xF40BFD,
    0xD002F4, 0x400090, 0x000000, 0x800000,
    0xE00000, 0xF80000, 0xFE0000, 0xFF8000
  ]

  const Spade: seq<nat> := [
    0xFFF02F, 0xFFD00B, 0xFF4002, 0xFD0000,
    0xF40000, 0xD00000, 0x400000, 0x000000,
    0x000000, 0x801890, 0xE03CA4, 0xF8B87D
  ]

  /** `CARDS`. */
  const Cards: seq<seq<nat>> := [Num6, Num7, Num8, Num9, Num10, Club, Diamond, Heart, Spade]

  /** `NAMES`: the OCR name reported for each template. */
  const Names: seq<string> := ["6", "7", "8", "9", "10", "C", "D", "H", "S"]

  /** Every template is a 12x12 pattern: twelve words, each fitting in 24 bits, and there is one
      name per template. */
  lemma TemplatesWellFormed()
    ensures |Cards| == |Names| == 9
    ensures forall i :: 0 <= i < |Cards| ==> |Cards[i]| == 12
    ensures forall i, j :: 0 <= i < |Cards| && 0 <= j < |Cards[i]| ==> Cards[i][j] < Pow4(12)
  {
    assert Pow4(12) == 0x100_0000;
  }
}
