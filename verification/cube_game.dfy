/** Day 2 of 2023 ("Cube Conundrum"). Each input line records one game,
    such as `Game 7: 3 blue, 4 red; 1 red, 2 green`: the game's id, then the
    sets of cubes drawn from a bag, separated by `;`, each a `,`-separated
    list of counts of one colour. Part one sums the ids of the games that
    are possible with 12 red, 13 green and 14 blue cubes; part two sums, over
    all games, the product of the largest count seen of each colour. */
module CubeGame {
  import opened Results
  import opened Text
  import opened Seqs

  datatype Cube = Red(count: nat) | Green(count: nat) | Blue(count: nat)

  datatype CubeSet = CubeSet(cubes: seq<Cube>)

  datatype Game = Game(id: nat, cubeSets: seq<CubeSet>)

  /** `get_name`: the word a cube's colour is written with. */
  function Name(c: Cube): (r: string)
    ensures r == "red" || r == "green" || r == "blue"
  {
    match c
    case Red(_) => "red"
    case Green(_) => "green"
    case Blue(_) => "blue"
  }

  /** Two cubes are of the same variant (`mem::discriminant` equality). */
  function IsSameType(a: Cube, b: Cube): (r: bool)
    ensures r <==> Name(a) == Name(b)
  {
    (a.Red? && b.Red?) || (a.Green? && b.Green?) || (a.Blue? && b.Blue?)
  }

  /** The count a cube carries; every variant has one. */
  function GetCount(c: Cube): (r: Option<nat>)
    ensures r.Some? && r.value == c.count
  {
    match c
    case Red(value) => Some(value)
    case Green(value) => Some(value)
    case Blue(value) => Some(value)
  }

  // ---------------------------------------------------------------------
  // Validation against the bag's content

  /** The bag holds 12 red, 13 green and 14 blue cubes. */
  const Limits: seq<Cube> := [Red(12), Green(13), Blue(14)]

  /** The limit that ought to apply to a cube: the one of its own colour. */
  function LimitOf(c: Cube): nat
  {
    match c
    case Red(_) => 12
    case Green(_) => 13
    case Blue(_) => 14
  }

  /** Some limit of the same variant as `cube` has a smaller count. */
  predicate ExceedsSomeLimit(cube: Cube, limits: seq<Cube>)
  {
    exists k :: 0 <= k < |limits| && IsSameType(cube, limits[k]) && GetCount(cube).value > GetCount(limits[k]).value
  }

  /** A cube is compared with the limit of its own colour only. */
  lemma ExceedsLimitsIff(cube: Cube)
    ensures ExceedsSomeLimit(cube, Limits) <==> cube.count > LimitOf(cube)
  {
    var k := match cube case Red(_) => 0 case Green(_) => 1 case Blue(_) => 2;
    assert IsSameType(cube, Limits[k]) && Limits[k].count == LimitOf(cube);
  }

  /** The loop of `is_cube_set_valid`: stop at the first cube over its limit. */
  function AllWithinLimits(cubes: seq<Cube>): (r: bool)
    ensures r <==> forall i :: 0 <= i < |cubes| ==> cubes[i].count <= LimitOf(cubes[i])
    decreases |cubes|
  {
    if |cubes| == 0 then true
    else
      ExceedsLimitsIff(cubes[0]);
      if ExceedsSomeLimit(cubes[0], Limits) then false
      else
        var rest := AllWithinLimits(cubes[1..]);
        assert forall i :: 1 <= i < |cubes| ==> cubes[i] == cubes[1..][i - 1];
        rest
  }

  /** A set is possible iff every cube's count is at most the limit of its colour. */
  function IsCubeSetValid(cubeSet: CubeSet): (r: bool)
    ensures r <==> forall i :: 0 <= i < |cubeSet.cubes| ==> cubeSet.cubes[i].count <= LimitOf(cubeSet.cubes[i])
  {
    AllWithinLimits(cubeSet.cubes)
  }

  /** A game is possible iff none of its sets is impossible. */
  predicate IsGameValid(g: Game)
  {
    forall i :: 0 <= i < |g.cubeSets| ==> IsCubeSetValid(g.cubeSets[i])
  }

  // ---------------------------------------------------------------------
  // Parsing

  /** The unwraps in `parse_cube` succeed: there is a first character to
      drop, the rest splits on spaces into at least two tokens, and the first
      token is a number. */
  predicate CubeTextParsable(text: string)
  {
    |text| >= 1 && var tokens := Split(text[1..], " "); |tokens| >= 2 && IsDecimal(tokens[0])
  }

  /** One cube such as ` 3 blue`: the count is the first token after the
      leading space, the colour the last token; an unknown colour is
      `InvalidData`. */
  function ParseCube(text: string): (r: Result<Cube>)
    requires CubeTextParsable(text)
    ensures var tokens := Split(text[1..], " ");
      && (r.Ok? <==> Last(tokens) in {"red", "green", "blue"})
      && (r.Ok? ==> Name(r.value) == Last(tokens) && r.value.count == ParseNat(tokens[0]))
  {
    var splitCube := Split(text[1..], " ");
    var numCubes := ParseNat(splitCube[0]);
    var cubeTypeText := Last(splitCube);
    if cubeTypeText == "red" then Ok(Red(numCubes))
    else if cubeTypeText == "green" then Ok(Green(numCubes))
    else if cubeTypeText == "blue" then Ok(Blue(numCubes))
    else Err(InvalidData)
  }

  /** One cube set such as ` 3 blue, 4 red`: one cube per `,`-separated
      item, in order, or the failure of the first item of unknown colour. */
  function ParseCubeSet(text: string): (r: Result<CubeSet>)
    requires DefinedUntilError(Split(text, ","), ParseCube)
    ensures var items := Split(text, ",");
      && (r.Ok? <==> OkBefore(items, ParseCube, |items|))
      && (r.Ok? ==> |r.value.cubes| == |items| && forall i :: 0 <= i < |items| ==> ParseCube(items[i]) == Ok(r.value.cubes[i]))
  {
    var cubes :- TryMap(Split(text, ","), ParseCube);
    Ok(CubeSet(cubes))
  }

  /** The text of the id: what follows `Game ` in the part before the first `:`. */
  function IdText(line: string): string
  {
    Last(Split(Split(line, ":")[0], "Game "))
  }

  /** The texts of the sets: the part after the last `:`, split on `;`. */
  function SetTexts(line: string): seq<string>
  {
    Split(Last(Split(line, ":")), ";")
  }

  /** `parse_line` does not panic on `line`: there is a `:` to split at,
      the id is a number, and each cube read before the first failure is
      well formed. */
  ghost predicate LineParsable(line: string)
  {
    |Split(line, ":")| >= 2 && IsDecimal(IdText(line)) && DefinedUntilError(SetTexts(line), ParseCubeSet)
  }

  /** What `parse_line` computes. The id is the number between `Game ` and
      `:`; there is one cube set per `;`-separated part, each parsed by
      `ParseCubeSet`, in the order of the line; the line fails exactly when
      some set does. */
  function ParsedLine(line: string): (r: Result<Game>)
    requires LineParsable(line)
    ensures var sets := SetTexts(line);
      && (r.Ok? <==> OkBefore(sets, ParseCubeSet, |sets|))
      && (r.Ok? ==> r.value.id == ParseNat(IdText(line)) && |r.value.cubeSets| == |sets| >= 1)
      && (r.Ok? ==> forall i :: 0 <= i < |sets| ==> ParseCubeSet(sets[i]) == Ok(r.value.cubeSets[i]))
  {
    var sets :- TryMap(SetTexts(line), ParseCubeSet);
    Ok(Game(ParseNat(IdText(line)), sets))
  }

  /** The inner loop of `parse_line`: pushes the cubes of one set in
      order, returning at the first cube of unknown colour. */
  method ReadCubeSet(text: string) returns (r: Result<CubeSet>)
    requires DefinedUntilError(Split(text, ","), ParseCube)
    ensures r == ParseCubeSet(text)
  {
    var cubes := Split(text, ",");
    var cubeSet: seq<Cube> := [];
    var j := 0;
    while j < |cubes|
      invariant 0 <= j <= |cubes|
      invariant DefinedUntilError(cubes[..j], ParseCube) && TryMap(cubes[..j], ParseCube) == Ok(cubeSet)
    {
      TryMapStep(cubes, ParseCube, j);
      var cube := ParseCube(cubes[j]);
      if cube.Err? {
        TryMapErrExtends(cubes, ParseCube, j + 1);
        return Err(cube.error);
      }
      cubeSet := cubeSet + [cube.value];
      j := j + 1;
    }
    assert cubes[..j] == cubes;
    r := Ok(CubeSet(cubeSet));
  }

  /** `parse_line`: builds the sets in order, each by the inner loop, and
      returns at the first cube of unknown colour. */
  method ParseLine(line: string) returns (r: Result<Game>)
    requires LineParsable(line)
    ensures r == ParsedLine(line)
  {
    var idSeparator := Split(line, ":");
    var idString := idSeparator[0];
    var id := ParseNat(Last(Split(idString, "Game ")));
    var cleanedLine := Last(idSeparator);
    var game := Split(cleanedLine, ";");
    assert game == SetTexts(line);
    var cubeSets: seq<CubeSet> := [];
    var i := 0;
    while i < |game|
      invariant 0 <= i <= |game|
      invariant DefinedUntilError(game[..i], ParseCubeSet) && TryMap(game[..i], ParseCubeSet) == Ok(cubeSets)
    {
      TryMapStep(game, ParseCubeSet, i);
      var cubeSet := ReadCubeSet(game[i]);
      if cubeSet.Err? {
        TryMapErrExtends(game, ParseCubeSet, i + 1);
        return Err(cubeSet.error);
      }
      cubeSets := cubeSets + [cubeSet.value];
      i := i + 1;
    }
    assert game[..i] == game;
    r := Ok(Game(id, cubeSets));
  }

  // ---------------------------------------------------------------------
  // Part one

  /** The possible games, in their original order. */
  function ValidGames(games: seq<Game>): seq<Game>
  {
    Filter(games, IsGameValid)
  }

  /** The first half of `remove_invalid_games`: the indices of the
      impossible games, in increasing order, and no others. */
  method InvalidIndices(games: seq<Game>) returns (indices: seq<nat>)
    ensures forall k :: 0 <= k < |indices| ==> indices[k] < |games| && !IsGameValid(games[indices[k]])
    ensures forall k, m :: 0 <= k < m < |indices| ==> indices[k] < indices[m]
    ensures forall n :: 0 <= n < |games| && !IsGameValid(games[n]) ==> n in indices
  {
    indices := [];
    for i := 0 to |games|
      invariant forall k :: 0 <= k < |indices| ==> indices[k] < i && !IsGameValid(games[indices[k]])
      invariant forall k, m :: 0 <= k < m < |indices| ==> indices[k] < indices[m]
      invariant forall n :: 0 <= n < i && !IsGameValid(games[n]) ==> n in indices
    {
      if !IsGameValid(games[i]) {
        indices := indices + [i];
      }
    }
  }

  /** `remove_invalid_games`: collects the indices of the impossible games in
      increasing order, then removes them from the back, so that no removal
      shifts an index still waiting to be removed. The games left are the
      possible ones, in their original order. */
  method RemoveInvalidGames(games: seq<Game>) returns (kept: seq<Game>)
    ensures kept == ValidGames(games)
  {
    var invalidIndices := InvalidIndices(games);
    kept := RemoveAtDescending(games, invalidIndices, IsGameValid);
  }

  /** The fold of `part_one`: the sum of the ids, which is at least each of them. */
  function SumOfIds(games: seq<Game>): (r: nat)
    ensures forall i :: 0 <= i < |games| ==> games[i].id <= r
    decreases |games|
  {
    if |games| == 0 then 0
    else
      var init := games[..|games| - 1];
      assert forall i :: 0 <= i < |init| ==> init[i] == games[i];
      SumOfIds(init) + games[|games| - 1].id
  }

  /** The answer to part one, game by game: a game adds its id if it is possible. */
  function ValidIdTotal(games: seq<Game>): nat
    decreases |games|
  {
    if |games| == 0 then 0
    else
      var last := games[|games| - 1];
      ValidIdTotal(games[..|games| - 1]) + (if IsGameValid(last) then last.id else 0)
  }

  lemma {:induction false} SumOfValidIds(games: seq<Game>)
    ensures SumOfIds(ValidGames(games)) == ValidIdTotal(games)
    decreases |games|
  {
    if |games| > 0 {
      var init := games[..|games| - 1];
      var last := games[|games| - 1];
      SumOfValidIds(init);
      if IsGameValid(last) {
        assert (ValidGames(init) + [last])[..|ValidGames(init)|] == ValidGames(init);
      } else {
        assert ValidGames(init) + [] == ValidGames(init);
      }
    }
  }

  /** With no possible game, part one's answer is 0. */
  lemma {:induction false} NoValidGameSumsToZero(games: seq<Game>)
    requires forall i :: 0 <= i < |games| ==> !IsGameValid(games[i])
    ensures ValidIdTotal(games) == 0
    decreases |games|
  {
    if |games| > 0 {
      NoValidGameSumsToZero(games[..|games| - 1]);
    }
  }

  /** `part_one`: removes the impossible games from a copy of the list and
      sums the ids of the rest; the caller's list is a value and stays as it was. */
  method PartOne(games: seq<Game>) returns (sum: nat)
    ensures sum == ValidIdTotal(games)
  {
    var gamesCopy := games;
    gamesCopy := RemoveInvalidGames(gamesCopy);
    sum := SumOfIds(gamesCopy);
    SumOfValidIds(games);
  }

  // ---------------------------------------------------------------------
  // Part two

  /** Every cube of a game, set after set. */
  function GameCubes(sets: seq<CubeSet>): seq<Cube>
    decreases |sets|
  {
    if |sets| == 0 then [] else GameCubes(sets[..|sets| - 1]) + sets[|sets| - 1].cubes
  }

  /** The largest count among the cubes of the same variant as `like`, or 0
      if there is none. */
  function MaxOfType(cubes: seq<Cube>, like: Cube): nat
    decreases |cubes|
  {
    if |cubes| == 0 then 0
    else
      var last := cubes[|cubes| - 1];
      var m := MaxOfType(cubes[..|cubes| - 1], like);
      if IsSameType(last, like) && last.count > m then last.count else m
  }

  /** `MaxOfType` is a maximum: no cube of that variant has a larger count,
      and unless it is 0 some cube of that variant has exactly that count. */
  lemma {:induction false} MaxOfTypeIsMaximum(cubes: seq<Cube>, like: Cube)
    ensures forall i :: 0 <= i < |cubes| && IsSameType(cubes[i], like) ==> cubes[i].count <= MaxOfType(cubes, like)
    ensures MaxOfType(cubes, like) == 0 ||
      exists i :: 0 <= i < |cubes| && IsSameType(cubes[i], like) && cubes[i].count == MaxOfType(cubes, like)
    decreases |cubes|
  {
    if |cubes| > 0 {
      var init := cubes[..|cubes| - 1];
      MaxOfTypeIsMaximum(init, like);
      assert forall i :: 0 <= i < |init| ==> init[i] == cubes[i];
    }
  }

  /** With no cube of the variant of `like`, its maximum stays at 0. */
  lemma {:induction false} MaxOfTypeAbsent(cubes: seq<Cube>, like: Cube)
    requires forall i :: 0 <= i < |cubes| ==> !IsSameType(cubes[i], like)
    ensures MaxOfType(cubes, like) == 0
    decreases |cubes|
  {
    if |cubes| > 0 {
      MaxOfTypeAbsent(cubes[..|cubes| - 1], like);
    }
  }

  /** The three slots of `part_two` once the cubes `seen` have been looked
      at: the largest red, green and blue counts so far, each 0 while its
      colour has not been seen. */
  function HighestSlots(seen: seq<Cube>): seq<Cube>
  {
    [Red(MaxOfType(seen, Red(0))), Green(MaxOfType(seen, Green(0))), Blue(MaxOfType(seen, Blue(0)))]
  }

  /** One slot after `try_update_highest_of_type` has met `other`: it takes
      `other` when that is of its colour and has a larger count. */
  function Raise(slot: Cube, other: Cube): Cube
  {
    if IsSameType(slot, other) && GetCount(other).value > GetCount(slot).value then other else slot
  }

  lemma MaxOfTypeSnoc(seen: seq<Cube>, c: Cube, like: Cube)
    ensures MaxOfType(seen + [c], like) ==
      if IsSameType(c, like) && c.count > MaxOfType(seen, like) then c.count else MaxOfType(seen, like)
  {
    assert (seen + [c])[..|seen|] == seen;
  }

  /** Raising each slot by the next cube keeps the slots equal to the maxima
      of the cubes seen: the loop of `part_two` computes `HighestSlots`. */
  lemma RaiseTracksMaxima(seen: seq<Cube>, other: Cube)
    ensures var h := HighestSlots(seen);
      HighestSlots(seen + [other]) == [Raise(h[0], other), Raise(h[1], other), Raise(h[2], other)]
  {
    MaxOfTypeSnoc(seen, other, Red(0));
    MaxOfTypeSnoc(seen, other, Green(0));
    MaxOfTypeSnoc(seen, other, Blue(0));
  }

  /** The fold `acc * count` over the slots, starting from 1: it is 0
      exactly when some slot holds a count of 0. */
  function CountProduct(cubes: seq<Cube>): (r: nat)
    ensures r == 0 <==> exists i :: 0 <= i < |cubes| && cubes[i].count == 0
    decreases |cubes|
  {
    if |cubes| == 0 then 1
    else
      var init := cubes[..|cubes| - 1];
      assert forall i :: 0 <= i < |init| ==> init[i] == cubes[i];
      assert cubes[|cubes| - 1].count == 0 ==> exists i :: 0 <= i < |cubes| && cubes[i].count == 0;
      CountProduct(init) * cubes[|cubes| - 1].count
  }

  /** The power of a game: the product of the three slots once every cube
      of the game has been seen. */
  function Power(g: Game): nat
  {
    CountProduct(HighestSlots(GameCubes(g.cubeSets)))
  }

  lemma CountProductOfThree(a: Cube, b: Cube, c: Cube)
    ensures CountProduct([a, b, c]) == a.count * b.count * c.count
  {
    assert [a, b, c][..2] == [a, b] && [a, b][..1] == [a] && [a][..0] == [];
    assert CountProduct([a]) == a.count;
    assert CountProduct([a, b]) == a.count * b.count;
  }

  /** The power is the product of the largest red, green and blue counts. */
  lemma PowerIsProductOfMaxima(g: Game)
    ensures var cubes := GameCubes(g.cubeSets);
      Power(g) == MaxOfType(cubes, Red(0)) * MaxOfType(cubes, Green(0)) * MaxOfType(cubes, Blue(0))
  {
    var h := HighestSlots(GameCubes(g.cubeSets));
    CountProductOfThree(h[0], h[1], h[2]);
    assert h == [h[0], h[1], h[2]];
  }

  /** The answer to part two. */
  function SumOfPowers(games: seq<Game>): nat
    decreases |games|
  {
    if |games| == 0 then 0 else SumOfPowers(games[..|games| - 1]) + Power(games[|games| - 1])
  }

  /** A colour missing from a game makes its power 0, because the slots
      start at 0. */
  lemma AbsentColourPowerZero(g: Game, like: Cube)
    requires forall i :: 0 <= i < |GameCubes(g.cubeSets)| ==> !IsSameType(GameCubes(g.cubeSets)[i], like)
    ensures Power(g) == 0
  {
    var cubes := GameCubes(g.cubeSets);
    var h := HighestSlots(cubes);
    var k, colour := match like case Red(_) => 0 case Green(_) => 1 case Blue(_) => 2,
      match like case Red(_) => Red(0) case Green(_) => Green(0) case Blue(_) => Blue(0);
    MaxOfTypeAbsent(cubes, colour);
    assert h[k].count == 0;
  }

  /** `try_update_highest_of_type`: every slot of the same variant as
      `other` whose count is smaller takes `other`; the rest stay. */
  method TryUpdateHighestOfType(currentHighest: array<Cube>, other: Cube)
    requires currentHighest.Length == 3
    modifies currentHighest
    ensures currentHighest[..] ==
      [Raise(old(currentHighest[0]), other), Raise(old(currentHighest[1]), other), Raise(old(currentHighest[2]), other)]
  {
    for k := 0 to 3
      invariant forall m :: 0 <= m < k ==> currentHighest[m] == Raise(old(currentHighest[m]), other)
      invariant forall m :: k <= m < 3 ==> currentHighest[m] == old(currentHighest[m])
    {
      if IsSameType(currentHighest[k], other) && GetCount(other).value > GetCount(currentHighest[k]).value {
        currentHighest[k] := other;
      }
    }
  }

  /** One step of the inner loop of `part_two`, as `RaiseTracksMaxima`
      states it for the cubes of a set read so far. */
  lemma RaiseNext(seen: seq<Cube>, cubes: seq<Cube>, c: nat, h: seq<Cube>)
    requires c < |cubes| && h == HighestSlots(seen + cubes[..c])
    ensures HighestSlots(seen + cubes[..c + 1]) == [Raise(h[0], cubes[c]), Raise(h[1], cubes[c]), Raise(h[2], cubes[c])]
  {
    RaiseTracksMaxima(seen + cubes[..c], cubes[c]);
    assert seen + cubes[..c + 1] == seen + cubes[..c] + [cubes[c]];
  }

  /** The inner loop of `part_two`: raises the slots by every cube of one
      set, in order. */
  method RaiseForCubeSet(highest: array<Cube>, cubes: seq<Cube>, ghost seen: seq<Cube>)
    requires highest.Length == 3 && highest[..] == HighestSlots(seen)
    modifies highest
    ensures highest[..] == HighestSlots(seen + cubes)
  {
    assert seen + cubes[..0] == seen;
    for c := 0 to |cubes|
      invariant highest[..] == HighestSlots(seen + cubes[..c])
    {
      RaiseNext(seen, cubes, c, highest[..]);
      TryUpdateHighestOfType(highest, cubes[c]);
    }
    assert cubes[..|cubes|] == cubes;
  }

  /** The closure folded over the games in `part_two`: the slots start at
      red 0, green 0, blue 0 and are raised cube by cube, set after set; the
      game's power is the product of their counts. */
  method GamePower(game: Game) returns (power: nat)
    ensures power == Power(game)
  {
    var highest := new Cube[3][Red(0), Green(0), Blue(0)];
    var sets := game.cubeSets;
    for s := 0 to |sets|
      invariant highest[..] == HighestSlots(GameCubes(sets[..s]))
    {
      RaiseForCubeSet(highest, sets[s].cubes, GameCubes(sets[..s]));
      assert sets[..s + 1][..s] == sets[..s];
    }
    assert sets[..|sets|] == sets;
    power := CountProduct(highest[..]);
  }

  /** `part_two`: the sum of the games' powers. */
  method PartTwo(games: seq<Game>) returns (total: nat)
    ensures total == SumOfPowers(games)
  {
    total := 0;
    for g := 0 to |games|
      invariant total == SumOfPowers(games[..g])
    {
      var power := GamePower(games[g]);
      assert games[..g + 1][..g] == games[..g];
      total := total + power;
    }
    assert games[..|games|] == games;
  }
}
