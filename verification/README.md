# Advent of Code solutions, modelled in Dafny

This project models four Advent of Code solutions, originally written in Rust, and proves what their code promises.

- **Day 2 of 2023, cube game** (`cube_game.dfy`, `cube_game_render.dfy`).
  - Lines such as `Game 7: 3 blue, 4 red; 1 green` are parsed into games made of cube sets.
  - Part one sums the ids of the games possible with 12 red, 13 green and 14 blue cubes.
  - Part two sums, over the games, the product of the largest red, green and blue counts.
  - The test helper that writes games back out as lines is modelled, with its round trip.
- **Day 2 of 2015, present packaging** (`gift_packaging.dfy`).
  - Each `LxWxH` line becomes a `Gift` whose `Packaging` holds the paper and ribbon it needs.
  - The needs are computed from the dimensions sorted in place.
  - The totals are accumulated with `+=` on a `Packaging` object.
- **Day 1 of 2023, calibration values** (`calibration.dfy`).
  - Each line contributes its first number times ten plus its last number.
  - A number is an ASCII digit or a spelled-out word `one` … `nine`.
  - The first number is found by a scan with a five-character window.
  - The last number is found by the same scan over the reversed line, with reversed words.
- **Day 3 of 2015, present delivery** (`gift_delivery.dfy`).
  - Santa and Robo-Santa alternately follow `^v<>` moves.
  - Presents are counted per house in a map.
  - The answer is the number of houses that receive at least one present.

Shared pieces:

- `results.dfy` holds `Option`, `Result` and the error kind `InvalidData`. It also holds `TryMap`, the `?`-in-a-loop pattern that stops at the first error.
- `text.dfy` models the Rust string operations used: `split`, `contains`, `parse`, `pop`, `rev` and joining.
- `seqs.dfy` models filtering a sequence, and removing indices in descending order.

Modelling conventions:

- Rust `u32`/`i32` values are unbounded `nat`/`int`.
- A `&mut` parameter of value type (a coordinate pair, a `HashMap`, a `Vec<Game>`) becomes a value passed in and returned updated.
- `Packaging` and `Gift` are classes, because `add_assign` updates fields in place.
- The sort inside `Gift::new` works on an `array`, and so does the `[Cube; 3]` array of part two.
- A panic (an `unwrap` on a malformed number, slicing an empty string) becomes a precondition.
- Errors the code returns (`InvalidData`) are modelled as `Result` values.

The maxima of part two start at `Red(0)`, `Green(0)` and `Blue(0)`, so a game in which a colour never appears has power 0 (`AbsentColourPowerZero`).

The line-writing helper of the tests pops the last character after each set and once more at the end. For a game without sets or with an empty set, a pop removes a character already written: the header's `:` or the previous set's `;` (`ReconstructedLineWithoutSets`). Games that `parse_line` produces have neither (`ParsedGameRenderable`).

## Model

| member | source | states |
|---|---|---|
| CubeGame.Name | 2023/aoc_2023_2/src/main.rs:171-177 | the colour word of a cube is `red`, `green` or `blue` |
| CubeGame.IsSameType | 2023/aoc_2023_2/src/main.rs:29-31 | two cubes have the same variant exactly when they have the same colour name |
| CubeGame.GetCount | 2023/aoc_2023_2/src/main.rs:35-39 | every variant yields `Some` of its own count |
| CubeGame.ExceedsLimitsIff | 2023/aoc_2023_2/src/main.rs:115-119 | the `any` over the three limits fires exactly when the cube's count is above the limit of its own colour (12, 13, 14) |
| CubeGame.AllWithinLimits | 2023/aoc_2023_2/src/main.rs:116-125 | the early-return loop is true iff every cube is within the limit of its colour |
| CubeGame.IsCubeSetValid | 2023/aoc_2023_2/src/main.rs:114-126 | a set is valid iff every cube's count is at most its colour's limit |
| CubeGame.ParseCube | 2023/aoc_2023_2/src/main.rs:76-89 | succeeds iff the last token is `red`, `green` or `blue`; then the cube has that colour and the count parsed from the first token after the leading character; otherwise `InvalidData` |
| CubeGame.ParseCubeSet | 2023/aoc_2023_2/src/main.rs:64-70 | one cube per `,`-separated item, in order; fails iff some item fails |
| CubeGame.ParsedLine | 2023/aoc_2023_2/src/main.rs:54-74 | the id is the number after `Game ` before `:`; one set per `;`-separated part after `:`, in order; fails iff some set fails |
| CubeGame.ReadCubeSet | 2023/aoc_2023_2/src/main.rs:63-69 | the inner loop with early `?` return computes `ParseCubeSet`: every cube of the set in order, or the error of the first cube of unknown colour |
| CubeGame.ParseLine | 2023/aoc_2023_2/src/main.rs:54-74 | the outer loop with early `?` return computes `ParsedLine` |
| CubeGame.InvalidIndices | 2023/aoc_2023_2/src/main.rs:93-107 | the collected indices are exactly those of the invalid games, strictly increasing |
| CubeGame.RemoveInvalidGames | 2023/aoc_2023_2/src/main.rs:92-112 | removing those indices in reverse leaves exactly the valid games, in their original order |
| Seqs.RemoveAtDescending | 2023/aoc_2023_2/src/main.rs:109-111 | removing increasing rejected indices from the last to the first leaves the `Filter` of the sequence: no removal shifts a pending index |
| Seqs.FilterMembers | 2023/aoc_2023_2/src/main.rs:92-112 | an element survives the filter iff it was present and is accepted |
| CubeGame.SumOfValidIds | 2023/aoc_2023_2/src/main.rs:128-132 | summing ids over the filtered games equals adding each valid game's id |
| CubeGame.SumOfIds | 2023/aoc_2023_2/src/main.rs:131 | the fold of the ids is at least the id of every game |
| CubeGame.NoValidGameSumsToZero | 2023/aoc_2023_2/src/main.rs:128-132 | with no valid game part one is 0 |
| CubeGame.PartOne | 2023/aoc_2023_2/src/main.rs:128-132 | the answer is the sum of ids of valid games; the caller's games are a value and are not changed |
| CubeGame.TryUpdateHighestOfType | 2023/aoc_2023_2/src/main.rs:150-157 | each slot of the same variant as the new cube is raised to it when its count is smaller; every other slot is unchanged |
| CubeGame.MaxOfTypeIsMaximum | 2023/aoc_2023_2/src/main.rs:136-142 | the tracked value bounds every cube of the colour and, unless 0, is attained by one |
| CubeGame.MaxOfTypeAbsent | 2023/aoc_2023_2/src/main.rs:136 | with no cube of a colour its maximum stays 0 |
| CubeGame.RaiseTracksMaxima | 2023/aoc_2023_2/src/main.rs:138-142 | one update keeps the three slots equal to the per-colour maxima of the cubes seen |
| CubeGame.CountProduct | 2023/aoc_2023_2/src/main.rs:144-146 | the product fold is 0 iff some slot has count 0 |
| CubeGame.PowerIsProductOfMaxima | 2023/aoc_2023_2/src/main.rs:134-148 | a game's power is max red × max green × max blue |
| CubeGame.AbsentColourPowerZero | 2023/aoc_2023_2/src/main.rs:136 | a colour missing from a game makes its power 0 |
| CubeGame.RaiseForCubeSet | 2023/aoc_2023_2/src/main.rs:139-141 | after the cubes of one set the slots hold the per-colour maxima of every cube seen so far |
| CubeGame.GamePower | 2023/aoc_2023_2/src/main.rs:136-146 | the nested loops over the slot array compute the game's power |
| CubeGame.PartTwo | 2023/aoc_2023_2/src/main.rs:134-148 | the answer is the sum of the games' powers |
| CubeGameRender.RenderCube | 2023/aoc_2023_2/src/main.rs:187-191 | a cube is written with a leading space and only spaces, digits and colour letters, so it holds no `,`, `;` or `:` |
| CubeGameRender.ParsedGameRenderable | 2023/aoc_2023_2/src/main.rs:54-74 | every parsed game has at least one set and no empty set |
| CubeGameRender.ParseRenderCube | 2023/aoc_2023_2/src/main.rs:187-191 | a cube written as ` n colour` parses back to itself |
| CubeGameRender.ParseRenderSet | 2023/aoc_2023_2/src/main.rs:185-195 | a non-empty set written out parses back to itself |
| CubeGameRender.RoundTrip | 2023/aoc_2023_2/src/main.rs:204-214 | parsing a written-out game yields the game back |
| CubeGameRender.RenderParseRender | 2023/aoc_2023_2/src/main.rs:204-214 | writing out, parsing and writing out again gives the same line |
| CubeGameRender.AppendCubes | 2023/aoc_2023_2/src/main.rs:186-192 | the inner loop appends each cube as written, each followed by `,` |
| CubeGameRender.SetsWrittenTerminated | 2023/aoc_2023_2/src/main.rs:185-196 | when no set is empty, each pop removes the `,` after a set's last cube, so every set is followed by `;` |
| CubeGameRender.ReconstructedLineRenders | 2023/aoc_2023_2/src/main.rs:183-199 | for a game with at least one set and no empty set, the line built is exactly the written-out line |
| CubeGameRender.ReconstructedLineWithoutSets | 2023/aoc_2023_2/src/main.rs:183-199 | for a game without sets the final pop removes the header's `:` |
| CubeGameRender.ReconstructParsedLine | 2023/aoc_2023_2/src/main.rs:204-214 | a line written out from a game parses, and the line rebuilt from the parsed game is that line |
| CubeGameRender.ReconstructLine | 2023/aoc_2023_2/src/main.rs:183-199 | the loop of pops and `;` builds, for every game, the line `ReconstructedLine` defines: each set's cubes followed by `,`, the last character replaced by `;`, the final character dropped |
| CubeGameRender.ReconstructInput | 2023/aoc_2023_2/src/main.rs:180-202 | one line per game, in order, each the line built for that game; for a game with at least one set and no empty set, its written-out form |
| Text.SplitJoinsBack | 2023/aoc_2023_2/src/main.rs:55-64 | the pieces of `split(pat)`, joined again with `pat` between them, give back the string that was split |
| Text.SplitPiecesFree | 2023/aoc_2023_2/src/main.rs:55-64 | no piece of `split(pat)` contains the pattern |
| Text.SplitJoin | 2023/aoc_2023_2/src/main.rs:55-64 | splitting a join at a separator absent from the parts gives the parts back |
| Results.TryMapOk | 2023/aoc_2023_2/src/main.rs:66-68 | the `?` loop succeeds with the element-wise results when every element parses |
| GiftPackaging.RectangleArea | 2015/aoc_2015_2/src/main.rs:68-70 | a face's area is 0 iff one of its sides is 0 |
| GiftPackaging.CuboidSurfaceArea | 2015/aoc_2015_2/src/main.rs:72-74 | the surface is even and at least twice the area of each face |
| GiftPackaging.SurfaceSymmetric | 2015/aoc_2015_2/src/main.rs:68-74 | the surface is `2wl + 2wh + 2lh` and does not depend on the order of the sides |
| GiftPackaging.Product | 2015/aoc_2015_2/src/main.rs:58 | the fold `acc * x` from 1 is 0 iff some dimension is 0 |
| GiftPackaging.ProductOfThree | 2015/aoc_2015_2/src/main.rs:58 | the fold `acc * x` from 1 over three dimensions is their product |
| GiftPackaging.Min3 | 2015/aoc_2015_2/src/main.rs:49-61 | the smallest of three values: below each and equal to one |
| GiftPackaging.WrappingPaper | 2015/aoc_2015_2/src/main.rs:49-54 | at least the surface; on sorted dimensions, surface plus `d0*d1` is the surface plus the smallest face |
| GiftPackaging.Ribbon | 2015/aoc_2015_2/src/main.rs:56-61 | at least the volume; on sorted dimensions, `2*(d0+d1)` plus the fold is the smallest perimeter plus the volume |
| GiftPackaging.NeedsSymmetric | 2015/aoc_2015_2/src/main.rs:33-43 | paper and ribbon do not depend on which side is called which |
| GiftPackaging.IsOrderOfMultiset | 2015/aoc_2015_2/src/main.rs:34-35 | a reordering of three dimensions has the same multiset |
| GiftPackaging.NeedsOfAnyOrder | 2015/aoc_2015_2/src/main.rs:33-43 | any reordering of the dimensions needs the same paper and ribbon |
| GiftPackaging.SortDimensions | 2015/aoc_2015_2/src/main.rs:34-35 | the array is sorted in place and is a reordering of its old contents |
| GiftPackaging.Packaging.Default | 2015/aoc_2015_2/src/main.rs:12-19 | starts with 0 paper and 0 ribbon |
| GiftPackaging.Packaging.constructor | 2015/aoc_2015_2/src/main.rs:37-40 | holds the given paper and ribbon |
| GiftPackaging.Packaging.AddAssign | 2015/aoc_2015_2/src/main.rs:21-26 | `+=` adds paper and ribbon component-wise and changes nothing else |
| GiftPackaging.Gift.constructor | 2015/aoc_2015_2/src/main.rs:33-43 | the gift's packaging holds the paper and ribbon the dimensions need, whatever their order |
| GiftPackaging.Gift.NewArr | 2015/aoc_2015_2/src/main.rs:45-47 | the same from a three-element array |
| GiftPackaging.LineDimensions | 2015/aoc_2015_2/src/main.rs:81-85 | three dimensions: the `x`-separated parts parsed in order, positions not supplied 0 |
| GiftPackaging.ParseDimensions | 2015/aoc_2015_2/src/main.rs:81-85 | the loop fills a fresh zeroed array with `LineDimensions` |
| GiftPackaging.LineDimensionsOfThree | 2015/aoc_2015_2/src/main.rs:81-85 | `AxBxC` yields `[A, B, C]` |
| GiftPackaging.LineDimensionsOfTwo | 2015/aoc_2015_2/src/main.rs:81-85 | `AxB` yields `[A, B, 0]` |
| GiftPackaging.GiftOfLine | 2015/aoc_2015_2/src/main.rs:80-87 | a fresh gift with the paper and ribbon the line's dimensions need |
| GiftPackaging.CreateGifts | 2015/aoc_2015_2/src/main.rs:76-89 | the gifts already present are kept, and one gift per line is appended, in order |
| GiftPackaging.TotalPackaging | 2015/aoc_2015_2/src/main.rs:95-98 | the accumulated packaging holds the sums of paper and of ribbon over the gifts |
| GiftPackaging.PaperOfLines | 2015/aoc_2015_2/src/main.rs:91-98 | the gifts' paper total is the sum of the paper each line needs |
| GiftPackaging.RibbonOfLines | 2015/aoc_2015_2/src/main.rs:91-98 | the gifts' ribbon total is the sum of the ribbon each line needs |
| GiftPackaging.Solve | 2015/aoc_2015_2/src/main.rs:91-103 | the printed totals are the sums over the lines of the paper and of the ribbon each needs |
| Calibration.NumberWordsFit | 2023/aoc_2023_1/src/main.rs:7-17 | every word has 3 to 5 letters and a value below 10 |
| Calibration.WordEndingAt | 2023/aoc_2023_1/src/main.rs:56-60 | finds no value iff no listed word ends at the position |
| Calibration.FirstNumberIsEarliest | 2023/aoc_2023_1/src/main.rs:39-67 | fails iff no position holds a digit or the end of a word; otherwise the value is that of the earliest such position |
| Calibration.FirstHitFromIsDigit | 2023/aoc_2023_1/src/main.rs:45-47 | with words of value below 10, the value found is below 10 |
| Calibration.WindowStart | 2023/aoc_2023_1/src/main.rs:49-54 | the window keeps at most the last 5 characters |
| Calibration.WindowContains | 2023/aoc_2023_1/src/main.rs:49-60 | while nothing was found earlier, the window contains a word iff the word ends at the current character: nothing is missed |
| Calibration.FirstNumberIn | 2023/aoc_2023_1/src/main.rs:39-67 | the window scan returns the first digit or word, or `InvalidData` |
| Calibration.WordStartingAt | 2023/aoc_2023_1/src/main.rs:22-37 | finds no value iff no listed word starts at the position |
| Calibration.ReversedWordsAreReversed | 2023/aoc_2023_1/src/main.rs:23-33 | the reversed table spells each word backwards with the same value |
| Calibration.EndsAtReverse | 2023/aoc_2023_1/src/main.rs:35-36 | a reversed word ends at `i` of the reversed line iff the word starts at the mirrored position |
| Calibration.FirstHitOfReverse | 2023/aoc_2023_1/src/main.rs:35-36 | scanning the reversed line forwards is scanning the line backwards |
| Calibration.LastHitBelowIsLatest | 2023/aoc_2023_1/src/main.rs:22-37 | fails iff no position holds a digit or the start of a word; otherwise the value is that of the latest such position |
| Calibration.FirstNumInString | 2023/aoc_2023_1/src/main.rs:6-20 | the first number of the line |
| Calibration.LastNumInString | 2023/aoc_2023_1/src/main.rs:22-37 | the last number of the line |
| Calibration.CalibrationValue | 2023/aoc_2023_1/src/main.rs:69-71 | first times ten plus last, failing if either lookup fails |
| Calibration.CalibrationInRange | 2023/aoc_2023_1/src/main.rs:69-71 | a calibration value is below 100 |
| Calibration.FirstAndLastFailTogether | 2023/aoc_2023_1/src/main.rs:69-71 | the first lookup fails iff the last one does, iff the line has no digit or word |
| Calibration.CalibrationFails | 2023/aoc_2023_1/src/main.rs:69-71 | a line has no calibration value iff it has no digit or word |
| Calibration.CalibrationExamples | 2023/aoc_2023_1/src/main.rs:93-103 | `two1nine` 29, `eighttwothree` 83, `abcone2threexyz` 13, `xtwoone3four` 24 |
| Calibration.FirstNumberIsWord | 2023/aoc_2023_1/src/main.rs:39-67 | when no position before p completes a number, p holds no digit and the k-th word is the first in the table ending at p, the first number is that word's value |
| Calibration.FirstNumberIsWordByLetters | 2023/aoc_2023_1/src/main.rs:39-67 | the same, with the conditions read off the letters: no digit and no two letters ending a word before p, and the two letters ending at p ending no earlier word |
| Calibration.LastNumberIsWord | 2023/aoc_2023_1/src/main.rs:22-37 | when no position after p starts a number, p holds no digit and the k-th word is the first in the table starting at p, the last number is that word's value |
| Calibration.LastNumberIsWordByLetters | 2023/aoc_2023_1/src/main.rs:22-37 | the same, with the conditions read off the letters: no digit and no two letters beginning a word after p, and the two letters starting at p beginning no earlier word |
| Calibration.TotalOfStep | 2023/aoc_2023_1/src/main.rs:77-81 | one more line adds its value to the total, or makes the total fail |
| Calibration.Total | 2023/aoc_2023_1/src/main.rs:77-81 | the sum of the lines' calibration values, or the first failure |
| GiftDelivery.UpdateCoords | 2015/aoc_2015_3/src/main.rs:6-14 | the coordinates after one move: `^` y+1, `<` x−1, `v` y−1, `>` x+1, anything else no change |
| GiftDelivery.MoveUndone | 2015/aoc_2015_3/src/main.rs:6-14 | the opposite move undoes every move |
| GiftDelivery.MoveAdjacent | 2015/aoc_2015_3/src/main.rs:6-14 | an arrow moves to a neighbouring house; any other character stays put |
| GiftDelivery.Delivered | 2015/aoc_2015_3/src/main.rs:16-19 | the house gains an entry if missing; its count goes up by one and every other count is unchanged |
| GiftDelivery.DeliverGift | 2015/aoc_2015_3/src/main.rs:16-19 | `entry(..).or_insert(0)` then `+= 1` is that delivery |
| GiftDelivery.SumCountsRemove | 2015/aoc_2015_3/src/main.rs:16-19 | the total of the counts does not depend on the order the houses are summed in |
| GiftDelivery.DeliveredSum | 2015/aoc_2015_3/src/main.rs:16-19 | a delivery adds exactly one present to the total |
| GiftDelivery.WalkersFollowAlternateMoves | 2015/aoc_2015_3/src/main.rs:26-35 | Santa follows exactly the characters at even indices and Robo-Santa those at odd indices |
| GiftDelivery.WalkersStep | 2015/aoc_2015_3/src/main.rs:27-33 | a character moves only the walker whose turn it is |
| GiftDelivery.VisitedIsOccupied | 2015/aoc_2015_3/src/main.rs:25-35 | the houses with presents are exactly those either walker ever stood on, the origin included |
| GiftDelivery.HousesStep | 2015/aoc_2015_3/src/main.rs:33-34 | each character delivers one present at the mover's new position |
| GiftDelivery.HousesStart | 2015/aoc_2015_3/src/main.rs:24-25 | the origin starts with count 2 and no other house has an entry |
| GiftDelivery.HousesSum | 2015/aoc_2015_3/src/main.rs:25-35 | after n characters the counts add up to 2 + n |
| GiftDelivery.HousesCount | 2015/aoc_2015_3/src/main.rs:37 | the number of map entries is the number of visited houses, at least 1 |
| GiftDelivery.ProcessInput | 2015/aoc_2015_3/src/main.rs:21-38 | the answer is the number of distinct houses visited, at least 1 |
| GiftDelivery.NorthSouthCount | 2015/aoc_2015_3/src/main.rs:52 | n characters alternating `^` and `v` reach n + 1 houses |
| GiftDelivery.ExampleOne | 2015/aoc_2015_3/src/main.rs:52-55 | `^v` reaches 3 houses |
| GiftDelivery.ExampleTwo | 2015/aoc_2015_3/src/main.rs:52-55 | `^>v<` reaches 3 houses |
| GiftDelivery.ExampleThree | 2015/aoc_2015_3/src/main.rs:52-55 | `^v^v^v^v^v` reaches 11 houses |

## Left out

- Reading `input.txt`, the line iterator and printing (`parse_input`, `main`, the `File::open` part of `create_gifts_from_input`): lines and strings are parameters.
- `2015/aoc_2015_4/src/main.rs`: its search relies on `md5::compute` from an external crate, which is not part of this model.
- Integer width: `u32` and `i32` arithmetic is unbounded here. Overflow in the packaging sums and products, the part-one and part-two sums, the calibration total and the delivery counts is not modelled, and neither is the `houses.len() as u32` cast.
- Panics are preconditions, not behaviour: `unwrap` on a number that does not parse, `cube_text[1..]` on an empty item, and a line of more than three `x`-separated parts, which indexes `dimensions` out of bounds. Numbers are ASCII digit strings; the leading `+` that Rust's `parse` also accepts is excluded.
- Characters are Unicode scalars but only ASCII digits are digits. `char::is_numeric` also accepts other numeric characters, and for those `parse` panics. The window length is counted in characters, which equals the byte length `len()` measures only on ASCII text.
- GiftPackaging.Gift.constructor: `get_required_packaging` is the `packaging` field itself, read directly.
- GiftPackaging.CreateGifts: the appended gifts are stated by their paper and ribbon, not as fresh objects.
- CubeGame.RemoveInvalidGames: the vector is a value passed in and returned, not a `&mut Vec` updated in place, and `Vec::remove` is a sequence splice.
- GiftDelivery.ProcessInput: the `active_santa` mutable reference chosen by index parity is a branch on the parity that updates one of two variables.
- Cloning, `Default` for other types, trait plumbing (`CubeComparison`, `AddAssign`) and `mem::discriminant` are reduced to the behaviour they give.
