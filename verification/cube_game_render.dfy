/** The test helper of day 2 of 2023 that writes parsed games back out as
    input lines, and the round trip it is there to check: parsing a line
    written out from a game gives that game back. */
module CubeGameRender {
  import opened Results
  import opened Text
  import opened CubeGame

  /** One cube as the input writes it, with its leading space: ` 3 blue`.
      It holds only spaces, digits and the letters of the colour words. */
  function RenderCube(c: Cube): (r: string)
    ensures |r| >= 1 && r[0] == ' '
    ensures forall x :: x in r ==> x == ' ' || IsDigit(x) || x in "redgreenblue"
  {
    var digits := NatToString(c.count);
    assert forall x :: x in digits ==> IsDigit(x);
    assert forall x :: x in Name(c) ==> x in "redgreenblue";
    " " + digits + " " + Name(c)
  }

  function RenderCubes(cubes: seq<Cube>): seq<string>
  {
    seq(|cubes|, i requires 0 <= i < |cubes| => RenderCube(cubes[i]))
  }

  /** One set: its cubes separated by `,`. */
  function RenderSet(cubeSet: CubeSet): string
  {
    Join(RenderCubes(cubeSet.cubes), ",")
  }

  function RenderSets(sets: seq<CubeSet>): seq<string>
  {
    seq(|sets|, i requires 0 <= i < |sets| => RenderSet(sets[i]))
  }

  /** The text before the sets: `Game 7:`. */
  function GameHeader(id: nat): string
  {
    "Game " + NatToString(id) + ":"
  }

  /** A whole line: the header, then the sets separated by `;`. */
  function RenderGame(g: Game): string
  {
    GameHeader(g.id) + Join(RenderSets(g.cubeSets), ";")
  }

  /** The games that the input format can express: at least one set, and
      no empty set. */
  predicate Renderable(g: Game)
  {
    |g.cubeSets| >= 1 && forall i :: 0 <= i < |g.cubeSets| ==> |g.cubeSets[i].cubes| >= 1
  }

  /** Every game `parse_line` produces can be written out again. */
  lemma ParsedGameRenderable(line: string)
    requires LineParsable(line) && ParsedLine(line).Ok?
    ensures Renderable(ParsedLine(line).value)
  {
    var g := ParsedLine(line).value;
    var sets := SetTexts(line);
    forall i | 0 <= i < |g.cubeSets|
      ensures |g.cubeSets[i].cubes| >= 1
    {
      assert ParseCubeSet(sets[i]) == Ok(g.cubeSets[i]);
    }
  }

  // ---------------------------------------------------------------------
  // Which characters a written-out game contains

  lemma DecimalHasNo(s: string, c: char)
    requires IsDecimal(s) && !IsDigit(c)
    ensures c !in s
  {
  }

  /** A written-out cube holds only spaces, digits and the letters of its colour. */
  lemma RenderCubeHasNo(c: Cube, x: char)
    requires x != ' ' && !IsDigit(x) && x !in Name(c)
    ensures x !in RenderCube(c)
  {
    DecimalHasNo(NatToString(c.count), x);
  }

  lemma RenderSetHasNo(cubeSet: CubeSet, x: char)
    requires x != ' ' && x != ',' && !IsDigit(x) && x !in "redgreenblue"
    ensures x !in RenderSet(cubeSet)
  {
    var parts := RenderCubes(cubeSet.cubes);
    forall i | 0 <= i < |parts|
      ensures x !in parts[i]
    {
      var c := cubeSet.cubes[i];
      assert x !in Name(c) by {
        assert forall k :: 0 <= k < |Name(c)| ==> Name(c)[k] in "redgreenblue";
      }
      RenderCubeHasNo(c, x);
    }
    NotInJoin(parts, ",", x);
  }

  lemma RenderSetsHaveNo(sets: seq<CubeSet>, x: char)
    requires x != ' ' && x != ',' && !IsDigit(x) && x !in "redgreenblue"
    ensures forall i :: 0 <= i < |sets| ==> x !in RenderSets(sets)[i]
  {
    forall i | 0 <= i < |sets|
      ensures x !in RenderSets(sets)[i]
    {
      RenderSetHasNo(sets[i], x);
    }
  }

  // ---------------------------------------------------------------------
  // The round trip

  /** A written-out cube parses back to the same cube. */
  lemma ParseRenderCube(c: Cube)
    ensures CubeTextParsable(RenderCube(c)) && ParseCube(RenderCube(c)) == Ok(c)
  {
    var text := RenderCube(c);
    var digits := NatToString(c.count);
    assert text[1..] == Join([digits, Name(c)], " ");
    DecimalHasNo(digits, ' ');
    SplitJoin([digits, Name(c)], ' ');
    var r := ParseCube(text);
    assert r.Ok? && Name(r.value) == Name(c) && r.value.count == c.count;
  }

  /** A written-out non-empty set parses back to the same set. */
  lemma ParseRenderSet(cubeSet: CubeSet)
    requires |cubeSet.cubes| >= 1
    ensures DefinedUntilError(Split(RenderSet(cubeSet), ","), ParseCube)
    ensures ParseCubeSet(RenderSet(cubeSet)) == Ok(cubeSet)
  {
    var parts := RenderCubes(cubeSet.cubes);
    forall i | 0 <= i < |parts|
      ensures ',' !in parts[i]
    {
      RenderCubeHasNo(cubeSet.cubes[i], ',');
    }
    SplitJoin(parts, ',');
    forall i | 0 <= i < |parts|
      ensures CubeTextParsable(parts[i]) && ParseCube(parts[i]) == Ok(cubeSet.cubes[i])
    {
      ParseRenderCube(cubeSet.cubes[i]);
    }
    TryMapOk(parts, ParseCube, cubeSet.cubes);
  }

  /** Splitting `Game <digits>` at `Game ` leaves the digits last. */
  lemma IdOfHeader(digits: string)
    requires IsDecimal(digits)
    ensures Last(Split("Game " + digits, "Game ")) == digits
  {
    var head := "Game " + digits;
    assert MatchAt(head, "Game ", 0);
    assert head[5..] == digits;
    forall j
      ensures !MatchAt(digits, "Game ", j)
    {
      if 0 <= j < |digits| {
        assert IsDigit(digits[j]);
      }
    }
    SplitNoMatch(digits, "Game ");
    assert Split(head, "Game ") == [""] + [digits];
  }

  /** A written-out line splits at `:` into the header and the sets. */
  lemma ColonSplitOfRender(g: Game)
    ensures Split(RenderGame(g), ":") == ["Game " + NatToString(g.id), Join(RenderSets(g.cubeSets), ";")]
  {
    var digits := NatToString(g.id);
    var head := "Game " + digits;
    var body := Join(RenderSets(g.cubeSets), ";");
    DecimalHasNo(digits, ':');
    assert ':' !in head;
    RenderSetsHaveNo(g.cubeSets, ':');
    NotInJoin(RenderSets(g.cubeSets), ";", ':');
    assert RenderGame(g) == Join([head, body], ":");
    SplitJoin([head, body], ':');
  }

  /** The id and the set texts are read back from a written-out line. */
  lemma IdTextOfRender(g: Game)
    requires Renderable(g)
    ensures |Split(RenderGame(g), ":")| >= 2
    ensures IdText(RenderGame(g)) == NatToString(g.id)
    ensures SetTexts(RenderGame(g)) == RenderSets(g.cubeSets)
  {
    ColonSplitOfRender(g);
    IdOfHeader(NatToString(g.id));
    RenderSetsHaveNo(g.cubeSets, ';');
    SplitJoin(RenderSets(g.cubeSets), ';');
  }

  /** Parsing a written-out game gives the game back: the property the
      test of day 2 of 2023 checks on the puzzle input. */
  lemma RoundTrip(g: Game)
    requires Renderable(g)
    ensures LineParsable(RenderGame(g)) && ParsedLine(RenderGame(g)) == Ok(g)
  {
    var line := RenderGame(g);
    IdTextOfRender(g);
    var texts := SetTexts(line);
    forall i | 0 <= i < |texts|
      ensures ParseCubeSet.requires(texts[i]) && ParseCubeSet(texts[i]) == Ok(g.cubeSets[i])
    {
      ParseRenderSet(g.cubeSets[i]);
    }
    TryMapOk(texts, ParseCubeSet, g.cubeSets);
  }

  /** Writing a game out, parsing the line and writing the result out again
      gives the same line. */
  lemma RenderParseRender(g: Game)
    requires Renderable(g)
    ensures LineParsable(RenderGame(g)) && ParsedLine(RenderGame(g)).Ok?
    ensures RenderGame(ParsedLine(RenderGame(g)).value) == RenderGame(g)
  {
    RoundTrip(g);
  }

  lemma RenderCubesSnoc(cubes: seq<Cube>, c: nat)
    requires c < |cubes|
    ensures RenderCubes(cubes[..c + 1]) == RenderCubes(cubes[..c]) + [RenderCube(cubes[c])]
  {
    var a, b := RenderCubes(cubes[..c + 1]), RenderCubes(cubes[..c]) + [RenderCube(cubes[c])];
    forall i | 0 <= i <= c
      ensures a[i] == b[i]
    {
      assert cubes[..c + 1][i] == cubes[i];
      if i < c {
        assert cubes[..c][i] == cubes[i];
      }
    }
  }

  lemma RenderSetsSnoc(sets: seq<CubeSet>, s: nat)
    requires s < |sets|
    ensures RenderSets(sets[..s + 1]) == RenderSets(sets[..s]) + [RenderSet(sets[s])]
  {
    var a, b := RenderSets(sets[..s + 1]), RenderSets(sets[..s]) + [RenderSet(sets[s])];
    forall i | 0 <= i <= s
      ensures a[i] == b[i]
    {
      assert sets[..s + 1][i] == sets[i];
      if i < s {
        assert sets[..s][i] == sets[i];
      }
    }
  }

  /** The inner loop of `reconstruct_input`: appends each cube of a set as
      written out, followed by `,`. */
  method AppendCubes(line: string, cubes: seq<Cube>) returns (r: string)
    ensures r == line + Terminated(RenderCubes(cubes), ",")
  {
    r := line;
    for c := 0 to |cubes|
      invariant r == line + Terminated(RenderCubes(cubes[..c]), ",")
    {
      var piece := " " + NatToString(GetCount(cubes[c]).value) + " " + Name(cubes[c]) + ",";
      AppendTerminated(line, RenderCubes(cubes[..c]), RenderCube(cubes[c]), ",");
      RenderCubesSnoc(cubes, c);
      r := r + piece;
    }
    assert cubes[..|cubes|] == cubes;
  }

  /** What `reconstruct_input` has built for a game once it has written out
      the sets `sets` after `header`: for each set, every cube followed by
      `,`, then the last character dropped and a `;` added. */
  function SetsWritten(header: string, sets: seq<CubeSet>): string
    decreases |sets|
  {
    if |sets| == 0 then header
    else
      var last := sets[|sets| - 1];
      Pop(SetsWritten(header, sets[..|sets| - 1]) + Terminated(RenderCubes(last.cubes), ",")) + ";"
  }

  lemma SetsWrittenStep(header: string, sets: seq<CubeSet>, s: nat)
    requires s < |sets|
    ensures SetsWritten(header, sets[..s + 1]) ==
      Pop(SetsWritten(header, sets[..s]) + Terminated(RenderCubes(sets[s].cubes), ",")) + ";"
  {
    assert sets[..s + 1][..s] == sets[..s];
  }

  /** The line `reconstruct_input` builds for a game, whatever the game:
      the sets written out after the header, with the last character
      dropped. */
  function ReconstructedLine(g: Game): string
  {
    Pop(SetsWritten(GameHeader(g.id), g.cubeSets))
  }

  /** When no set is empty, each pop removes the `,` after the last cube of
      a set, so every set ends up followed by `;`. */
  lemma {:induction false} SetsWrittenTerminated(header: string, sets: seq<CubeSet>)
    requires forall i :: 0 <= i < |sets| ==> |sets[i].cubes| >= 1
    ensures SetsWritten(header, sets) == header + Terminated(RenderSets(sets), ";")
    decreases |sets|
  {
    if |sets| > 0 {
      var n := |sets| - 1;
      var init := sets[..n];
      var items := RenderCubes(sets[n].cubes);
      var groups := RenderSets(init);
      assert RenderSets(sets) == groups + [Join(items, ",")] by {
        RenderSetsSnoc(sets, n);
        assert sets[..n + 1] == sets;
      }
      assert SetsWritten(header, sets) == Pop(header + Terminated(groups, ";") + Terminated(items, ",")) + ";" by {
        SetsWrittenTerminated(header, init);
      }
      CloseGroup(header, groups, items, ',', ';');
    }
  }

  /** For a game the input format can express, the line rebuilt is the line
      the game is written as. */
  lemma ReconstructedLineRenders(g: Game)
    requires Renderable(g)
    ensures ReconstructedLine(g) == RenderGame(g)
  {
    SetsWrittenTerminated(GameHeader(g.id), g.cubeSets);
    PopTerminated(GameHeader(g.id), RenderSets(g.cubeSets), ';');
  }

  /** For a game without sets, the final pop removes the `:` of the header. */
  lemma ReconstructedLineWithoutSets(id: nat)
    ensures ReconstructedLine(Game(id, [])) == "Game " + NatToString(id)
  {
    assert GameHeader(id) == ("Game " + NatToString(id)) + [':'];
  }

  /** The test of day 2 of 2023 on a line of the input: parsing the line and
      rebuilding it gives the line back. */
  lemma ReconstructParsedLine(g: Game)
    requires Renderable(g)
    ensures var line := RenderGame(g);
      LineParsable(line) && ParsedLine(line).Ok? && ReconstructedLine(ParsedLine(line).value) == line
  {
    RoundTrip(g);
    ReconstructedLineRenders(g);
  }

  /** `reconstruct_input` for one game: the header, then each cube followed
      by `,`, where after each set the last character is replaced by `;`,
      and the last `;` is dropped. */
  method ReconstructLine(g: Game) returns (line: string)
    ensures line == ReconstructedLine(g)
  {
    var header := GameHeader(g.id);
    line := header;
    var sets := g.cubeSets;
    for s := 0 to |sets|
      invariant line == SetsWritten(header, sets[..s])
    {
      var cubes := sets[s].cubes;
      SetsWrittenStep(header, sets, s);
      line := AppendCubes(line, cubes);
      line := Pop(line);
      line := line + ";";
    }
    assert sets[..|sets|] == sets;
    line := Pop(line);
  }

  /** `reconstruct_input`: one line per game, in order. */
  method ReconstructInput(games: seq<Game>) returns (lines: seq<string>)
    ensures |lines| == |games|
    ensures forall i :: 0 <= i < |games| ==> lines[i] == ReconstructedLine(games[i])
    ensures forall i :: 0 <= i < |games| && Renderable(games[i]) ==> lines[i] == RenderGame(games[i])
  {
    ghost var expected := seq(|games|, k requires 0 <= k < |games| => ReconstructedLine(games[k]));
    lines := [];
    for i := 0 to |games|
      invariant lines == expected[..i]
    {
      var line := ReconstructLine(games[i]);
      lines := lines + [line];
    }
    assert expected[..|games|] == expected;
    forall i | 0 <= i < |games| && Renderable(games[i])
      ensures lines[i] == RenderGame(games[i])
    {
      ReconstructedLineRenders(games[i]);
    }
  }
}
