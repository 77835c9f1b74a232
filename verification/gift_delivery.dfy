/** Day 3 of 2015 ("Perfectly Spherical Houses in a Vacuum"), second part.
    Santa and Robo-Santa both start at the origin of an infinite grid and
    take turns following the moves `^`, `v`, `<`, `>` of one instruction
    string: the characters at even indices move Santa, those at odd indices
    move Robo-Santa. After each move the walker who moved delivers a
    present to the house it stands on. The answer is the number of houses
    that receive at least one present. */
module GiftDelivery {

  type Coordinates = (int, int)

  /** How many presents each house has received so far. */
  type HouseMap = map<Coordinates, nat>

  const Origin: Coordinates := (0, 0)

  // ---------------------------------------------------------------------
  // Moves

  /** The displacement one instruction character stands for: north, west,
      south, east, and nothing for any other character. */
  function Step(c: char): Coordinates
  {
    match c
    case '^' => (0, 1)
    case '<' => (-1, 0)
    case 'v' => (0, -1)
    case '>' => (1, 0)
    case _ => (0, 0)
  }

  function Move(c: char, p: Coordinates): Coordinates
  {
    (p.0 + Step(c).0, p.1 + Step(c).1)
  }

  function Opposite(c: char): char
  {
    match c
    case '^' => 'v'
    case 'v' => '^'
    case '<' => '>'
    case '>' => '<'
    case _ => c
  }

  predicate IsArrow(c: char)
  {
    c == '^' || c == 'v' || c == '<' || c == '>'
  }

  function Abs(x: int): nat
  {
    if x < 0 then -x else x
  }

  /** Every move can be undone by the opposite move. */
  lemma MoveUndone(c: char, p: Coordinates)
    ensures Move(Opposite(c), Move(c, p)) == p
  {
  }

  /** An arrow moves to one of the four neighbouring houses; any other
      character leaves the walker where it is. */
  lemma MoveAdjacent(c: char, p: Coordinates)
    ensures Abs(Move(c, p).0 - p.0) + Abs(Move(c, p).1 - p.1) == if IsArrow(c) then 1 else 0
  {
  }

  /** `update_coords`: applies one instruction character to a walker's
      coordinates, which it receives by mutable reference. */
  method UpdateCoords(c: char, coords: Coordinates) returns (updated: Coordinates)
    ensures updated == Move(c, coords)
  {
    updated := coords;
    match c {
      case '^' => updated := (updated.0, updated.1 + 1);
      case '<' => updated := (updated.0 + -1, updated.1);
      case 'v' => updated := (updated.0, updated.1 + -1);
      case '>' => updated := (updated.0 + 1, updated.1);
      case _ => return;
    }
  }

  // ---------------------------------------------------------------------
  // Deliveries

  /** The presents a house has received; a house missing from the map has
      received none. */
  function Count(houses: HouseMap, p: Coordinates): nat
  {
    if p in houses then houses[p] else 0
  }

  /** The map after one more present has been left at `coords`. */
  function Delivered(houses: HouseMap, coords: Coordinates): (r: HouseMap)
    ensures r.Keys == houses.Keys + {coords}
    ensures forall p :: Count(r, p) == Count(houses, p) + if p == coords then 1 else 0
  {
    houses[coords := Count(houses, coords) + 1]
  }

  /** `deliver_gift`: the entry of the house is created at 0 when missing,
      then incremented, in a map received by mutable reference. */
  method DeliverGift(coords: Coordinates, houses: HouseMap) returns (updated: HouseMap)
    ensures updated == Delivered(houses, coords)
  {
    var value := if coords in houses then houses[coords] else 0;
    value := value + 1;
    updated := houses[coords := value];
  }

  /** The number of presents in the map, over all houses. */
  ghost function SumCounts(houses: HouseMap): nat
    decreases |houses|
  {
    if houses == map[] then 0
    else
      var p :| p in houses;
      houses[p] + SumCounts(houses - {p})
  }

  /** The total does not depend on which house is counted first. */
  lemma {:induction false} SumCountsRemove(houses: HouseMap, p: Coordinates)
    requires p in houses
    ensures SumCounts(houses) == houses[p] + SumCounts(houses - {p})
    decreases |houses|
  {
    var q :| q in houses && SumCounts(houses) == houses[q] + SumCounts(houses - {q});
    if q != p {
      var rest := houses - {q} - {p};
      assert houses - {p} - {q} == rest;
      SumCountsRemove(houses - {q}, p);
      SumCountsRemove(houses - {p}, q);
    }
  }

  /** A delivery adds exactly one present to the total. */
  lemma DeliveredSum(houses: HouseMap, coords: Coordinates)
    ensures SumCounts(Delivered(houses, coords)) == SumCounts(houses) + 1
  {
    var r := Delivered(houses, coords);
    SumCountsRemove(r, coords);
    if coords in houses {
      SumCountsRemove(houses, coords);
      assert r - {coords} == houses - {coords};
    } else {
      assert r - {coords} == houses;
    }
  }

  lemma SumAfterDelivery(before: HouseMap, after: HouseMap, coords: Coordinates, total: nat)
    requires after == Delivered(before, coords) && SumCounts(before) == total
    ensures SumCounts(after) == total + 1
  {
    DeliveredSum(before, coords);
  }

  // ---------------------------------------------------------------------
  // The two walkers

  /** Where Santa and Robo-Santa stand after the first `n` characters: the
      character at index `i` moves Santa when `i` is even and Robo-Santa
      when it is odd. */
  function Walkers(input: string, n: nat): (Coordinates, Coordinates)
    requires n <= |input|
  {
    if n == 0 then (Origin, Origin)
    else
      var (santa, robo) := Walkers(input, n - 1);
      if (n - 1) % 2 == 0 then (Move(input[n - 1], santa), robo)
      else (santa, Move(input[n - 1], robo))
  }

  /** The house a single walker reaches by following `moves` from the origin. */
  function Walk(moves: string): Coordinates
  {
    if |moves| == 0 then Origin else Move(moves[|moves| - 1], Walk(moves[..|moves| - 1]))
  }

  /** The characters at even indices. */
  function Evens(s: string): string
  {
    seq((|s| + 1) / 2, k requires 0 <= k < (|s| + 1) / 2 => s[2 * k])
  }

  /** The characters at odd indices. */
  function Odds(s: string): string
  {
    seq(|s| / 2, k requires 0 <= k < |s| / 2 => s[2 * k + 1])
  }

  lemma EvensOddsSnoc(s: string, n: nat)
    requires n < |s|
    ensures n % 2 == 0 ==> Evens(s[..n + 1]) == Evens(s[..n]) + [s[n]] && Odds(s[..n + 1]) == Odds(s[..n])
    ensures n % 2 == 1 ==> Evens(s[..n + 1]) == Evens(s[..n]) && Odds(s[..n + 1]) == Odds(s[..n]) + [s[n]]
  {
  }

  /** Santa follows exactly the characters at even indices and Robo-Santa
      exactly those at odd indices, each on their own from the origin. */
  lemma {:induction false} WalkersFollowAlternateMoves(input: string, n: nat)
    requires n <= |input|
    ensures Walkers(input, n) == (Walk(Evens(input[..n])), Walk(Odds(input[..n])))
  {
    if n > 0 {
      var m := n - 1;
      WalkersFollowAlternateMoves(input, m);
      EvensOddsSnoc(input, m);
      if m % 2 == 0 {
        var e := Evens(input[..n]);
        assert e[..|e| - 1] == Evens(input[..m]);
      } else {
        var o := Odds(input[..n]);
        assert o[..|o| - 1] == Odds(input[..m]);
      }
    }
  }

  lemma WalkersStep(input: string, i: nat)
    requires i < |input|
    ensures i % 2 == 0 ==> Walkers(input, i + 1) == (Move(input[i], Walkers(input, i).0), Walkers(input, i).1)
    ensures i % 2 == 1 ==> Walkers(input, i + 1) == (Walkers(input, i).0, Move(input[i], Walkers(input, i).1))
  {
  }

  /** The house that receives the present for the character at index `i`:
      where the walker who moved now stands. */
  function DeliveredTo(input: string, i: nat): Coordinates
    requires i < |input|
  {
    var w := Walkers(input, i + 1);
    if i % 2 == 0 then w.0 else w.1
  }

  /** The houses that have received a present after `n` characters: the
      origin, where both walkers start, and every house delivered to. */
  function Visited(input: string, n: nat): set<Coordinates>
    requires n <= |input|
  {
    if n == 0 then {Origin} else Visited(input, n - 1) + {DeliveredTo(input, n - 1)}
  }

  /** The visited houses are exactly the houses either walker has stood on. */
  lemma {:induction false} VisitedIsOccupied(input: string, n: nat, p: Coordinates)
    requires n <= |input|
    ensures p in Visited(input, n) <==> exists k :: 0 <= k <= n && (Walkers(input, k).0 == p || Walkers(input, k).1 == p)
  {
    if n > 0 {
      var m := n - 1;
      VisitedIsOccupied(input, m, p);
      if p in Visited(input, n) {
        if p !in Visited(input, m) {
          assert Walkers(input, n).0 == p || Walkers(input, n).1 == p;
        }
      } else {
        forall k | 0 <= k <= n
          ensures Walkers(input, k).0 != p && Walkers(input, k).1 != p
        {
          if k == n {
            // The walker who did not move stood there after `m` characters.
            assert Walkers(input, n).0 == DeliveredTo(input, m) || Walkers(input, n).0 == Walkers(input, m).0;
            assert Walkers(input, n).1 == DeliveredTo(input, m) || Walkers(input, n).1 == Walkers(input, m).1;
          }
        }
      }
    } else {
      assert Walkers(input, 0) == (Origin, Origin);
      assert Visited(input, 0) == {Origin};
      if p == Origin {
        assert Walkers(input, 0).0 == p;
      } else {
        forall k | 0 <= k <= n
          ensures Walkers(input, k).0 != p && Walkers(input, k).1 != p
        {
          assert k == 0;
        }
      }
    }
  }

  /** How many of the first `n` characters deliver to house `p`. */
  function Visits(input: string, n: nat, p: Coordinates): nat
    requires n <= |input|
  {
    if n == 0 then 0 else Visits(input, n - 1, p) + if DeliveredTo(input, n - 1) == p then 1 else 0
  }

  /** The presents each house holds after `n` characters: the two the
      walkers leave at the origin before starting, plus one per character
      that delivers there. */
  function Houses(input: string, n: nat): (m: HouseMap)
    requires n <= |input|
  {
    map p | p in Visited(input, n) :: (if p == Origin then 2 else 0) + Visits(input, n, p)
  }

  lemma HousesKeys(input: string, n: nat)
    requires n <= |input|
    ensures Houses(input, n).Keys == Visited(input, n)
  {
  }

  lemma {:induction false} VisitsOutside(input: string, n: nat, p: Coordinates)
    requires n <= |input| && p !in Visited(input, n)
    ensures Visits(input, n, p) == 0
  {
    if n > 0 {
      VisitsOutside(input, n - 1, p);
    }
  }

  /** Each character adds one present at the house it delivers to. */
  lemma HousesStep(input: string, n: nat)
    requires n < |input|
    ensures Houses(input, n + 1) == Delivered(Houses(input, n), DeliveredTo(input, n))
  {
    var d := DeliveredTo(input, n);
    var a, b := Houses(input, n + 1), Delivered(Houses(input, n), d);
    HousesKeys(input, n);
    HousesKeys(input, n + 1);
    OriginVisited(input, n);
    forall p | p in a
      ensures a[p] == b[p]
    {
      var first := if p == Origin then 2 else 0;
      var extra := if p == d then 1 else 0;
      assert a[p] == first + Visits(input, n, p) + extra;
      assert b[p] == Count(Houses(input, n), p) + extra;
      if p in Visited(input, n) {
        assert Count(Houses(input, n), p) == first + Visits(input, n, p);
      } else {
        VisitsOutside(input, n, p);
      }
    }
  }

  /** Before the first character, only the origin holds presents: two. */
  lemma HousesStart(input: string)
    ensures Houses(input, 0) == map[Origin := 2]
  {
    assert Visited(input, 0) == {Origin};
  }

  lemma OriginOnly(input: string)
    ensures SumCounts(Houses(input, 0)) == 2
  {
    var houses := Houses(input, 0);
    HousesStart(input);
    SumCountsRemove(houses, Origin);
    assert houses - {Origin} == map[];
  }

  /** Every character delivers exactly one present: after `n` characters
      the houses hold `2 + n` presents in all. */
  lemma {:induction false} HousesSum(input: string, n: nat)
    requires n <= |input|
    ensures SumCounts(Houses(input, n)) == 2 + n
  {
    if n == 0 {
      OriginOnly(input);
    } else {
      HousesSum(input, n - 1);
      HousesStep(input, n - 1);
      SumAfterDelivery(Houses(input, n - 1), Houses(input, n), DeliveredTo(input, n - 1), n + 1);
    }
  }

  lemma OriginVisited(input: string, n: nat)
    requires n <= |input|
    ensures Origin in Visited(input, n)
  {
  }

  lemma HousesCount(input: string)
    ensures |Houses(input, |input|)| == |Visited(input, |input|)| >= 1
  {
    HousesKeys(input, |input|);
    OriginVisited(input, |input|);
  }

  /** `process_input`: the number of houses that receive at least one
      present, the origin included. */
  method ProcessInput(input: string) returns (result: nat)
    ensures result == |Visited(input, |input|)|
    ensures result >= 1
  {
    var santa, roboSanta := Origin, Origin;
    var houses: HouseMap := map[Origin := 2];
    HousesStart(input);
    for i := 0 to |input|
      invariant (santa, roboSanta) == Walkers(input, i)
      invariant houses == Houses(input, i)
    {
      var c := input[i];
      WalkersStep(input, i);
      HousesStep(input, i);
      if i % 2 == 0 {
        santa := UpdateCoords(c, santa);
        houses := DeliverGift(santa, houses);
      } else {
        roboSanta := UpdateCoords(c, roboSanta);
        houses := DeliverGift(roboSanta, houses);
      }
    }
    result := |houses|;
    HousesCount(input);
  }

  // ---------------------------------------------------------------------
  // The examples of the puzzle statement

  /** `^v` reaches three houses: the origin, one north and one south. */
  lemma ExampleOne()
    ensures |Visited("^v", 2)| == 3
  {
    var s := "^v";
    assert Walkers(s, 1) == ((0, 1), (0, 0));
    assert Walkers(s, 2) == ((0, 1), (0, -1));
    assert Visited(s, 2) == {(0, 0), (0, 1), (0, -1)};
  }

  /** `^>v<` reaches three houses: both walkers come back to the origin. */
  lemma ExampleTwo()
    ensures |Visited("^>v<", 4)| == 3
  {
    var s := "^>v<";
    assert Walkers(s, 1) == ((0, 1), (0, 0));
    assert Walkers(s, 2) == ((0, 1), (1, 0));
    assert Walkers(s, 3) == ((0, 0), (1, 0));
    assert Walkers(s, 4) == ((0, 0), (0, 0));
    assert Visited(s, 4) == {(0, 0), (0, 1), (1, 0)};
  }

  /** Instructions that alternate `^` and `v`: Santa only goes north and
      Robo-Santa only goes south. */
  predicate NorthSouth(s: string)
  {
    forall i :: 0 <= i < |s| ==> s[i] == if i % 2 == 0 then '^' else 'v'
  }

  /** The houses `(0, lo)` to `(0, hi)` of the column through the origin. */
  function Column(lo: int, hi: int): set<Coordinates>
    decreases hi - lo
  {
    if hi < lo then {} else Column(lo, hi - 1) + {(0, hi)}
  }

  lemma {:induction false} ColumnMembers(lo: int, hi: int, p: Coordinates)
    ensures p in Column(lo, hi) <==> p.0 == 0 && lo <= p.1 <= hi
    decreases hi - lo
  {
    if lo <= hi {
      ColumnMembers(lo, hi - 1, p);
    }
  }

  lemma {:induction false} ColumnSize(lo: int, hi: int)
    requires lo <= hi + 1
    ensures |Column(lo, hi)| == hi - lo + 1
    decreases hi - lo
  {
    if lo <= hi {
      ColumnSize(lo, hi - 1);
      ColumnMembers(lo, hi - 1, (0, hi));
    }
  }

  lemma {:induction false} ColumnBelow(lo: int, hi: int)
    requires lo <= hi + 1
    ensures Column(lo - 1, hi) == Column(lo, hi) + {(0, lo - 1)}
    decreases hi - lo
  {
    if lo <= hi {
      ColumnBelow(lo, hi - 1);
    } else {
      assert Column(lo - 1, hi) == Column(lo - 1, hi - 1) + {(0, hi)};
    }
  }

  lemma {:induction false} NorthSouthWalkers(s: string, n: nat)
    requires NorthSouth(s) && n <= |s|
    ensures Walkers(s, n) == ((0, (n + 1) / 2), (0, -(n / 2)))
  {
    if n > 0 {
      NorthSouthWalkers(s, n - 1);
      WalkersStep(s, n - 1);
    }
  }

  /** Under alternating `^` and `v` the walkers visit one unbroken stretch
      of the column through the origin, one new house per character. */
  lemma {:induction false} NorthSouthVisited(s: string, n: nat)
    requires NorthSouth(s) && n <= |s|
    ensures Visited(s, n) == Column(-(n / 2), (n + 1) / 2)
  {
    if n == 0 {
      assert Column(0, 0) == {Origin};
    } else {
      var m := n - 1;
      NorthSouthVisited(s, m);
      NorthSouthWalkers(s, n);
      var lo, hi := -(m / 2), (m + 1) / 2;
      assert Visited(s, n) == Column(lo, hi) + {DeliveredTo(s, m)};
      if m % 2 == 0 {
        assert DeliveredTo(s, m) == (0, hi + 1);
        assert Column(lo, hi + 1) == Column(lo, hi) + {(0, hi + 1)};
      } else {
        assert DeliveredTo(s, m) == (0, lo - 1);
        ColumnBelow(lo, hi);
      }
    }
  }

  /** So `n` such characters reach `n + 1` houses. */
  lemma NorthSouthCount(s: string, n: nat)
    requires NorthSouth(s) && n <= |s|
    ensures |Visited(s, n)| == n + 1
  {
    NorthSouthVisited(s, n);
    ColumnSize(-(n / 2), (n + 1) / 2);
  }

  /** `^v^v^v^v^v` reaches eleven houses: Santa goes five houses north and
      Robo-Santa five houses south, never meeting again. */
  lemma ExampleThree()
    ensures |Visited("^v^v^v^v^v", 10)| == 11
  {
    var s := "^v^v^v^v^v";
    assert NorthSouth(s);
    NorthSouthCount(s, 10);
  }
}
