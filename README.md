# EXAPUNKS solitaire bot: card recognition and board geometry

This project is a Dafny model of the part of the EXAPUNKS solitaire bot that turns a
screenshot into cards and cards into mouse targets. It covers:

- **`Card`** (module `Cards`): the value object with its id and its three predicates.
- **`CardBitmap`** (modules `Packing`, `Templates`, `CardBitmap`):
  - `to_bitmap` quantizes an N×N intensity sample into four levels per pixel and packs each
    row into one word, two bits per column, with the first column in the high bits.
  - `to_grayscale` and `to_bytes` unpack 12-column words into gray values.
  - `difference` slides a template over the packed capture and scores each offset by XOR,
    2-bit group sums and a per-row weight. It returns early on a near-exact match; otherwise
    it keeps the minimum.
  - `compare` scores every template and keeps the first index of the smallest score.
  - The nine built-in 12×12 templates and their names.
- **`Gui` helpers** (module `Gui`):
  - `Screenshot.scale`, `card_marginx`, `card_marginy`, `card_bbox`, `bbox_scale` and
    `to_old_card`.
  - The grid loop of `detect_cards` and its field `ocr_result`.
- **`Board`** (module `BoardLayout`):
  - The class constants and the 9×4 grid of sample squares built by `__init__`.
  - The exact matcher `get_card`.
  - The mouse targets `get_rank_x`, `get_stack_front_y`, `get_stack_back_y`,
    `get_back_stack_position` and `get_front_stack_position`.

How the model represents things:

- Pixel data is a plain `seq<int>`.
- Words are `nat`, and bit operations are written as arithmetic:
  - `w << 2 | a` is `w * 4 + a`;
  - `>> 2k` is `Shr2`;
  - `& (4^m - 1)` is `% Pow4(m)`, proved equal to `Low`, the low m groups;
  - `^` is a base-4 `Xor`.
- The float weight table of `difference` is scaled by ten, so scores are integer tenths.
  The early-exit test `diff < M` becomes `tenths < 10 * M`, and the start value
  `4 * M * M` becomes `40 * M * M`.
- The Gui geometry is computed over exact reals:
  - `math.ceil` is `Ceil`;
  - Python's `round` is `RoundHalfEven`;
  - `int()` of a float is `Trunc` (toward zero).
- The screenshot is a `Shot`: no image, or an image of a given size.
- Cropping and resizing a slot is a `capture: Bbox -> Sample` parameter that returns the
  red and blue channels.
- In `Board`, the game a mouse target looks at is `Option<seq<RankState>>`. A `RankState`
  holds the rank's total cards and the length of its top stack.

Methods are proved equal to specification functions, and the lemmas state what those
functions mean:

| method | specification function |
|---|---|
| `ToBitmap` | `Quantize` |
| `SumGroups` | `GroupSum` |
| `OffsetDifference` | `OffsetScore` |
| `Difference` | `DifferenceOf` (the scans `ScanDx`/`ScanDy` follow the two loops) |
| `Compare` | `TemplateScores` and `ArgMin` |
| `FirstArgMin` | `ArgMin` |
| `MaskedRowDiff` | `RowDiff` |
| `ReadColumn`, `ReadSlotAt` | `StackReadings` |
| `DetectCards` | `Readings` |
| `GetCard` | `MatchedCard` |

## Model

| member | source | states |
|---|---|---|
| Cards.Card.Id | Card.py:9-12 | `self.id = value + suit`; IdSplits and IdInjective give its meaning |
| Cards.Card.IsFace | Card.py:17-18 | `value == "F"`; NumberIsNotFace relates it to the other two predicates |
| Cards.Card.IsNumber | Card.py:20-21 | `not value == "F"`; NumberIsNotFace proves it is the negation of `IsFace` |
| Cards.Card.IsRed | Card.py:23-24 | `suit == "R"`; NumberIsNotFace states it |
| Cards.IdSplits | Card.py:9-12 | the id is the value followed by the suit and splits back into both |
| Cards.IdInjective | Card.py:9-12 | for one-character values, two cards have the same id exactly when they are the same card |
| Cards.NumberIsNotFace | Card.py:17-24 | `is_number` is the negation of `is_face`; `is_face` holds iff the value is "F"; `is_red` holds iff the suit is "R" |
| Packing.PackDigits | Card.py:179 | packing n levels below 4 gives a word below 4^n whose group n-1-i (counted from the low end) is level i |
| Packing.PackOfDigits | Card.py:179-187 | unpacking a word below 4^n into n groups and packing them again gives the word back |
| Packing.XorGroup | Card.py:224 | the XOR of two 2-bit groups is below 4 and is 0 exactly when they are equal |
| Packing.XorSelf | Card.py:224 | a word XOR itself is 0 |
| Packing.GroupSumZero | Card.py:226-229 | the sum of the 2-bit groups is 0 exactly when the word is 0 |
| Packing.GroupSumBound | Card.py:226-229 | a word of n groups has a group sum of at most 3n |
| Templates.TemplatesWellFormed | Card.py:30-166 | there are 9 templates and 9 names; every template has 12 words and every word is below 2^24 |
| CardBitmap.MinMaxAttained | Card.py:172-173 | `min` and `max` of a non-empty sample are values of the sample |
| CardBitmap.Level | Card.py:177-178 | because `amax = max + 1`, every normalised level is in 0..3 |
| CardBitmap.Quantize | Card.py:169-183 | the packed rows of levels that `to_bitmap` returns; QuantizeShape, QuantizedLevel and the level lemmas give its meaning |
| CardBitmap.ToBitmap | Card.py:169-183 | the nested row/column loop computes `Quantize`: one packed word of levels per row |
| CardBitmap.QuantizeShape | Card.py:169-183 | `to_bitmap` returns `height` words, each below 4^width |
| CardBitmap.QuantizedLevel | Card.py:177-179 | the level of pixel `image[r*height+col]` is group `width-1-col` of word r |
| CardBitmap.MinimumIsLevelZero | Card.py:172-178 | the darkest pixel gets level 0 |
| CardBitmap.LevelMonotone | Card.py:177-178 | p <= q implies level(p) <= level(q) |
| CardBitmap.MaximumIsLevelThree | Card.py:172-178 | when the sample spans at least 3, the brightest pixel gets level 3 |
| CardBitmap.QuantizeShiftInvariant | Card.py:172-178 | adding one constant to every pixel leaves the bitmap unchanged, since normalisation is per sample |
| CardBitmap.ToGrayscale | Card.py:186-187 | one row of 12 gray values per word |
| CardBitmap.GrayscaleShades | Card.py:187 | every gray value is 0, 85, 170 or 255 |
| CardBitmap.GrayscaleOfBitmap | Card.py:169-187 | for a 12x12 sample, gray value (r, col) is 85 times the level of that pixel |
| CardBitmap.GrayscaleRoundTrip | Card.py:186-187 | dividing the gray values by 85 and repacking them gives a 24-bit word back |
| CardBitmap.ToBytes | Card.py:189-193 | the gray rows flattened to bytes; ToBytesAt states where each byte comes from |
| CardBitmap.ToBytesAt | Card.py:190-193 | `to_bytes` yields 12 bytes per word in row-major order |
| CardBitmap.Low | Card.py:214-221 | the low m groups of a word, which `& mask` keeps, are below 4^m |
| CardBitmap.LowIsMask | Card.py:214-221 | keeping the low m groups is the remainder modulo 4^m, which is `& ((1 << 2m) - 1)` |
| CardBitmap.LowPack | Card.py:214-221 | the low m groups of a packed row are the packing of its last m levels |
| CardBitmap.Window | Card.py:214-221 | the masked window `w >> 2dx & mask` is below 4^M |
| CardBitmap.WindowOfPackedRow | Card.py:214-221 | in a packed row, the window at dx holds the levels of columns [n-dx-M, n-dx), so dx = 0 is the rightmost M columns |
| CardBitmap.SumGroups | Card.py:226-229 | the `while d > 0` loop computes the group sum of d |
| CardBitmap.OffsetDifference | Card.py:218-230 | the row loop computes the weighted score of one offset |
| CardBitmap.MaskedRowDiff | Card.py:221-229 | one row pass (mask the shifted capture row, xor with the template row, sum the groups) gives that row's unweighted difference |
| CardBitmap.DifferenceOf | Card.py:207-211 | the result is "raised" exactly when N < M |
| CardBitmap.Difference | Card.py:207-236 | the dx/dy loops with early return and running minimum compute `DifferenceOf` |
| CardBitmap.DifferenceBounded | Card.py:207-236 | it raises iff N < M; otherwise the score is at most the starting `4*M*M` |
| CardBitmap.MatchBelowThreshold | Card.py:216-233 | if any offset scores below M, the result is below M |
| CardBitmap.FirstMatchWins | Card.py:216-233 | the first offset in dx-outer, dy-inner order that scores below M gives exactly the result |
| CardBitmap.NoMatchGivesMinimum | Card.py:215-236 | when no offset scores below M, the result is at most every score, and is one of them or `4*M*M` |
| CardBitmap.EmbeddedScoresZero | Card.py:218-230 | an offset whose every window equals the template's row scores 0 |
| CardBitmap.EmbeddedTemplateMatches | Card.py:218-233 | a template found verbatim at a valid offset gives a result below M |
| CardBitmap.CaptureContainingTemplate | Card.py:169-233 | a capture whose quantized levels contain the template's levels in some M×M block matches that template |
| CardBitmap.ArgMin | Card.py:200-203 | for a non-empty list the kept index is in range |
| CardBitmap.ArgMinIsFirstMinimum | Card.py:200-203 | the kept entry is at most every entry and strictly below every earlier one (strict `<`) |
| CardBitmap.ArgMinIsTheFirstMinimum | Card.py:200-203 | an index is the first minimum exactly when it is the one `argmin` keeps |
| CardBitmap.FirstArgMin | Card.py:200-203 | the loop, which replaces the kept index only on a strictly smaller score, ends with `ArgMin` of the scores |
| CardBitmap.TemplateScores | Card.py:199 | one score per template |
| CardBitmap.Compare | Card.py:196-204 | raises iff some template is larger than the capture; otherwise returns the bitmap's scores in template order and their first-wins argmin |
| CardBitmap.ComparedMeaning | Card.py:196-204 | the returned template scores no worse than any other and strictly better than every earlier one |
| Gui.Ceil | Gui.py:493 | `math.ceil`: the least integer not below x |
| Gui.Trunc | Gui.py:508-515 | `int()` truncates toward zero |
| Gui.RoundHalfEven | Gui.py:496-503 | `round`: within 0.5, and even on a tie |
| Gui.RoundIsNearest | Gui.py:496-503 | no integer is nearer to x than `round(x)` |
| Gui.Scale | Gui.py:76-79 | (1.0, 1.0) without an image, otherwise (w/1920, h/1080) |
| Gui.ReferenceScreenMapsToImage | Gui.py:76-79 | scaling the 1920x1080 screen by the image's factors gives the image's own rectangle |
| Gui.ScaleCoordTruncates | Gui.py:508-515 | each scaled coordinate is its exact product truncated toward zero |
| Gui.ScaleCoordMonotone | Gui.py:508-515 | with a non-negative factor, scaling keeps coordinates in order |
| Gui.BboxScale | Gui.py:507-515 | each coordinate is `int()` of its product with the axis factor; ScaleCoordTruncates, BboxScaleIdentity and BboxScaleKeepsOrder give its meaning |
| Gui.BboxScaleIdentity | Gui.py:508-515 | scale (1, 1) is the identity on integer boxes |
| Gui.BboxScaleKeepsOrder | Gui.py:508-515 | with non-negative factors (indices 0 and 2 use scale[0], 1 and 3 use scale[1]) a well-ordered box stays well-ordered |
| Gui.Rows | Gui.py:493 | the row count is exactly ceil(36/ranks) |
| Gui.RowsHoldTheDeck | Gui.py:493 | the ranks × rows slots hold all 36 cards, and no row is wholly empty |
| Gui.CardMarginX | Gui.py:484-488 | `(dw - cw) / (ranks - 1) - cw`, defined for ranks != 1; MarginXSpreadsColumns states what it achieves |
| Gui.MarginXSpreadsColumns | Gui.py:484-488 | (ranks-1)·(marginx + cw) == dw - cw |
| Gui.MarginExample | Gui.py:484-488 | cw = 100, ranks = 9, dw = 900 gives marginx = 0 |
| Gui.CardMarginY | Gui.py:490-494 | `(dh - ch) / (rows - 1)`, defined when there is more than one row; MarginYSpreadsRows states what it achieves |
| Gui.MarginYSpreadsRows | Gui.py:490-494 | (rows-1)·marginy == dh - ch |
| Gui.SlotsSpanTheDesk | Gui.py:484-503 | the first slot starts at the desk's left/top edge; the last column's and last row's cards end at its right/bottom edge |
| Gui.SlotStep | Gui.py:496-503 | neighbouring slots are card width plus margin apart horizontally and `marginy` apart vertically |
| Gui.CardBbox | Gui.py:496-505 | the box is a square of side `ocr_n` |
| Gui.CardBboxNearest | Gui.py:496-505 | the box's corner is the integer point nearest to the slot's exact position |
| Gui.DefaultGeometry | Gui.py:124-141 | the default settings give 4 rows, marginx 13.75 and marginy 30 |
| Gui.ToOldCard | Gui.py:547-553 | for any non-empty name: a one-character value and suit; a number card exactly for "6".."10", coloured by the flag; otherwise a face card whose suit is the name's first character |
| Gui.OldCardsOfNames | Gui.py:547-553 | "6".."9" keep their digit and "10" becomes "0", coloured R/B by the flag; suit names become `Card("F", name)`; the name can be recovered from the card |
| Gui.OldCardsDistinct | Gui.py:547-553 | different recognised names give different cards, and a number card keeps its colour |
| Gui.IsRedSample | Gui.py:530-532 | `sum(red) / len(red) > 200`; RedIffSumAbove and UniformRed give its meaning |
| Gui.RedIffSumAbove | Gui.py:530-531 | average > 200 iff the channel sum exceeds 200 per pixel |
| Gui.UniformRed | Gui.py:530-531 | a uniform channel is red iff its value exceeds 200, so exactly 200 is black |
| Gui.SlotScores | Gui.py:533-534 | one `difference` score per built-in template |
| Gui.SlotReading | Gui.py:528-535 | a slot's name is one of the template names |
| Gui.ReadSlot | Gui.py:528-540 | the inner loop body reads the slot's colour and its `compare` name |
| Gui.ReadSlotAt | Gui.py:527-540 | pass y of the inner loop crops slot (x, y) and reads exactly entry y of column x's stack |
| Gui.ReadColumn | Gui.py:525-540 | the inner loop builds column x's stack, top row first |
| Gui.StackReadings | Gui.py:525-540 | every stack has ceil(36/ranks) entries |
| Gui.Readings | Gui.py:524-541 | the grid has one stack per column (none for a negative column count) |
| Gui.Gui.constructor | Gui.py:124-141 | the GUI starts with its default settings and no OCR result |
| Gui.Gui.DetectCards | Gui.py:517-544 | without a screenshot: [] and `ocr_result` untouched; otherwise returns and stores the column-major grid of readings |
| Gui.ReadingsShape | Gui.py:519-541 | `ranks` stacks of ceil(36/ranks) readings, covering the 36 cards |
| Gui.SlotColour | Gui.py:528-531 | slot (x, y) is red iff its red channel sums to more than 200 per pixel |
| Gui.SlotName | Gui.py:533-535 | slot (x, y) is named after the first template with the lowest score |
| BoardLayout.FirstMatch | Board.py:63-69 | the index found matches and no earlier reference does |
| BoardLayout.FirstMatchComplete | Board.py:63-70 | the search finds nothing exactly when no reference matches |
| BoardLayout.FirstMatchAt | Board.py:63-69 | the search stops at the first matching reference |
| BoardLayout.MatchedCard | Board.py:61-70 | value and suit from the first matching name, or the unknown card; MatchedCardSentinel and MatchedCardId give its meaning |
| BoardLayout.GetCard | Board.py:60-70 | the loop returns the card named by the first matching reference, else the unknown card |
| BoardLayout.MatchedCardSentinel | Board.py:66-70 | no match gives `Card("?","?")`; with a match, the result is `Card("?","?")` exactly when the first matching name starts with "??" |
| BoardLayout.MatchedCardId | Board.py:66-69 | the card's id is the matched name's first two characters |
| BoardLayout.GridBox | Board.py:52-57 | the sample square of column c, row r; GridBoxesAreSquares, GridBoxesIncrease and GridBoxesDisjoint give its meaning |
| BoardLayout.GridBoxes | Board.py:48-58 | `starting_cols` columns of `starting_rows` boxes |
| BoardLayout.GridBoxesAreSquares | Board.py:52-57 | every box is a 15-pixel square |
| BoardLayout.GridBoxesIncrease | Board.py:20-57 | boxes start strictly further right along columns and strictly further down along rows |
| BoardLayout.GridBoxesDisjoint | Board.py:20-57 | two different boxes never overlap |
| BoardLayout.Board.constructor | Board.py:42-58 | no game, 4 rows, 9 columns, and the list of boxes equals the grid |
| BoardLayout.Board.RankX | Board.py:101-104 | `left_offset + rank_idx * horizontal_spacing + card_width / 2`; RankXIncreasing gives its meaning |
| BoardLayout.Board.RankXIncreasing | Board.py:101-104 | rank targets are strictly increasing in the rank index, one spacing apart |
| BoardLayout.Board.StackFrontY | Board.py:106-114 | None exactly when there is no game |
| BoardLayout.Board.StackBackY | Board.py:116-127 | None exactly when there is no game |
| BoardLayout.Board.BackNotBelowFront | Board.py:106-127 | with a top stack of length >= 1, back_y <= front_y, and they are (len-1) spacings apart |
| BoardLayout.Board.BackStackPosition | Board.py:129-133 | the hand for rank -1, else the rank's x and `StackBackY`; HandExactlyForMinusOne and TargetsOfOneRank give its meaning |
| BoardLayout.Board.FrontStackPosition | Board.py:135-139 | the hand for rank -1, else the rank's x and `StackFrontY`; HandExactlyForMinusOne and TargetsOfOneRank give its meaning |
| BoardLayout.Board.HandExactlyForMinusOne | Board.py:129-139 | with the built-in offsets, both targets are the hand exactly when the rank index is -1 |
| BoardLayout.Board.TargetsOfOneRank | Board.py:129-139 | a rank's two targets share its x, and the back one is not below the front one |

## Left out

- The Tkinter UI and drawing (`Gui.__init__` widgets, `render_canvas`, `redraw_canvas`, `get_fitted_size`), the solving threads and stop flag, the pyautogui automation and its timing statistics, `make_game`, `make_game_by_boxes` and `update_board`: UI, concurrency and foreign calls, and `Game`, `Rank` and `Stack` are not part of this model.
- Screen capture and image handling (`capture_window`, `get_window_by_name`, `select_image`, `Screenshot.transform` with its Lanczos resize, `getdata`, `get_flattened_data`, `os.listdir`, `Image.open`): foreign calls. Samples arrive as integer sequences. The crop-and-resize of a slot is the `capture` parameter, and the reference directory is a sequence of (name, pixels) pairs in listing order.
- Debug `print`s, the level strings `s`/`ss` in `to_bitmap`, `Card.__str__` (it returns the id), the unused `Card.numb_lookup`, and `Board.values`, `Board.suits` and `default_delay`.
- CardBitmap.Level: `int((v - amin) / (amax - amin) * 4)` is modelled as the exact integer quotient `4(v - amin) / (amax - amin)`; floating-point rounding of that quotient is not modelled.
- CardBitmap.DifferenceOf: the weights are exact tenths, so a score that equals the threshold or the minimum under exact arithmetic may compare differently in floating point.
- CardBitmap.DifferenceOf: requires M <= 12 only when the template fits (N >= M); a longer template that does not fit gives the size exception like any other, while one that fits makes the source raise IndexError on `WEIGHT[12]`, which is not modelled. `Difference`, `DifferenceBounded` and `Compare` require the same.
- CardBitmap.ToBitmap: requires a non-empty sample, `width == height` and `width*height` pixels. The source raises on an empty sample (`min`), indexes `image[row * height + col]`, and raises IndexError on a short sample.
- Gui.CardBbox: computed over exact reals. Python's `round` on a float that is not exactly representable may round a value near .5 the other way.
- Gui.BboxScale: computed over exact reals. Where the exact product is a whole number, the program's double product can land just below it, so its `int()` is one less than the model's coordinate (a 1923-pixel-wide image gives `int(1920 * (1923 / 1920)) == 1922` in doubles).
- Gui.ReferenceScreenMapsToImage: holds over exact reals only. For the program's doubles the scaled reference width can be one less than the image width, as in the line above.
- Gui.Gui.DetectCards: requires, with a screenshot, either ranks < 0 (no column is read, so nothing else is needed) or 2 <= ranks < 36 (which gives at least two rows, a fact the requirement also spells out) together with `ocr_n >= 12` and a capture that returns n·n pixels per channel. The other column counts raise ZeroDivisionError: ranks == 0 in `detect_cards` itself (`math.ceil(36 / ranks)`, Gui.py:521), ranks == 1 in `card_marginx`, and ranks >= 36 (one row) in `card_marginy`. With columns to read, a smaller `ocr_n` makes `compare` raise; the spin box limits it to 12..20 (Gui.py:284).
- Gui.Gui.constructor: the source does not set `ocr_result` in `__init__`; the model starts it as the empty grid.
- Gui.ToOldCard requires a non-empty name, as `face[0]` raises on an empty one; every recognised name is non-empty.
- BoardLayout.GetCard: requires the first matching reference's name, the only one read, to have at least two characters; the source raises IndexError otherwise.
- BoardLayout.Board.StackFrontY and BoardLayout.Board.StackBackY: `Game.get_rank` is not part of this model. It is taken as indexing, with the rank index required to be in range when a game exists, and `not self.game` is taken as "no game".
- `Board.card_height`, `newgame_x` and `newgame_y` are declared as constants; no modelled operation reads them.
