/** Day 2 of 2015 ("I Was Told There Would Be No Math"). Each input line
    gives the dimensions of a present as `LxWxH`. A present needs wrapping
    paper for its whole surface plus the area of its smallest face, and
    ribbon for the smallest perimeter of a face plus a bow as long as its
    volume. The program totals both over all presents. */
module GiftPackaging {
  import opened Text

  // ---------------------------------------------------------------------
  // The arithmetic

  lemma MulMonotone(a: nat, b: nat, c: nat)
    requires b <= c
    ensures a * b <= a * c
  {
    assert a * c - a * b == a * (c - b);
  }

  /** `get_rectangle_area`: the area of a face, which is empty exactly when
      one of its sides is 0. */
  function RectangleArea(w: nat, l: nat): (a: nat)
    ensures a == 0 <==> w == 0 || l == 0
  {
    w * l
  }

  /** `get_cuboid_surface_area`: every face is counted twice, once for each
      of the two opposite sides of the box. */
  function CuboidSurfaceArea(w: nat, l: nat, h: nat): (s: nat)
    ensures s % 2 == 0
    ensures s >= 2 * RectangleArea(w, l) && s >= 2 * RectangleArea(w, h) && s >= 2 * RectangleArea(h, l)
  {
    2 * (RectangleArea(w, l) + RectangleArea(w, h) + RectangleArea(h, l))
  }

  /** The surface does not depend on which side is called which. */
  lemma SurfaceSymmetric(w: nat, l: nat, h: nat)
    ensures CuboidSurfaceArea(w, l, h) == CuboidSurfaceArea(l, w, h) == CuboidSurfaceArea(w, h, l)
    ensures CuboidSurfaceArea(w, l, h) == 2 * w * l + 2 * w * h + 2 * l * h
  {
    var wl, wh, lh := w * l, w * h, l * h;
    assert RectangleArea(w, l) == wl && RectangleArea(l, w) == wl;
    assert RectangleArea(w, h) == wh && RectangleArea(h, w) == wh;
    assert RectangleArea(h, l) == lh && RectangleArea(l, h) == lh;
    assert 2 * w * l == 2 * wl && 2 * w * h == 2 * wh && 2 * l * h == 2 * lh;
  }

  /** The three dimensions in increasing order. */
  predicate SortedDims(d: seq<nat>)
  {
    |d| == 3 && d[0] <= d[1] <= d[2]
  }

  function Min3(a: nat, b: nat, c: nat): (m: nat)
    ensures m <= a && m <= b && m <= c
    ensures m == a || m == b || m == c
  {
    if a <= b && a <= c then a else if b <= c then b else c
  }

  /** The paper a present needs, by its description: the whole surface plus
      the area of the smallest face. */
  function PaperFor(w: nat, l: nat, h: nat): nat
  {
    2 * w * l + 2 * w * h + 2 * l * h + Min3(w * l, w * h, l * h)
  }

  /** The ribbon a present needs, by its description: the smallest perimeter
      of a face plus its volume. */
  function RibbonFor(w: nat, l: nat, h: nat): nat
  {
    Min3(2 * (w + l), 2 * (w + h), 2 * (l + h)) + w * l * h
  }

  /** On sorted sides the first two span the smallest face. */
  lemma SmallestFace(a: nat, b: nat, c: nat)
    ensures a <= b <= c ==> a * b == Min3(a * b, a * c, b * c)
  {
    if a <= b <= c {
      MulMonotone(a, b, c);
      MulMonotone(c, a, b);
      assert a * b <= b * c by {
        assert b * c == c * b;
      }
    }
  }

  /** `get_required_wrapping_paper`: the surface, plus the slack, which is
      the product of the first two dimensions. The paper covers the whole
      surface, and on sorted dimensions the slack is the smallest face, so
      the paper computed is the paper the present needs. */
  function WrappingPaper(d: seq<nat>): (p: nat)
    requires |d| == 3
    ensures p >= CuboidSurfaceArea(d[0], d[1], d[2])
    ensures SortedDims(d) ==> p == PaperFor(d[0], d[1], d[2])
  {
    SmallestFace(d[0], d[1], d[2]);
    SurfaceSymmetric(d[0], d[1], d[2]);
    CuboidSurfaceArea(d[0], d[1], d[2]) + d[0] * d[1]
  }

  /** The fold `acc * x` over the dimensions, starting from 1: it is 0
      exactly when some dimension is. */
  function Product(d: seq<nat>): (r: nat)
    ensures r == 0 <==> exists i :: 0 <= i < |d| && d[i] == 0
    decreases |d|
  {
    if |d| == 0 then 1
    else
      var init := d[..|d| - 1];
      assert forall i :: 0 <= i < |init| ==> init[i] == d[i];
      assert d[|d| - 1] == 0 ==> exists i :: 0 <= i < |d| && d[i] == 0;
      Product(init) * d[|d| - 1]
  }

  lemma ProductOfThree(d: seq<nat>)
    requires |d| == 3
    ensures Product(d) == d[0] * d[1] * d[2]
  {
    assert d[..2][..1] == d[..1] && d[..1][..0] == [];
    assert Product(d[..1]) == d[0];
    assert Product(d[..2]) == d[0] * d[1];
  }

  /** `get_required_ribbon`: twice the sum of the first two dimensions, plus
      the product of all three. The bow is the volume, and on sorted
      dimensions the first two give the smallest perimeter, so the ribbon
      computed is the ribbon the present needs. */
  function Ribbon(d: seq<nat>): (r: nat)
    requires |d| == 3
    ensures r >= d[0] * d[1] * d[2]
    ensures SortedDims(d) ==> r == RibbonFor(d[0], d[1], d[2])
  {
    ProductOfThree(d);
    2 * (d[0] + d[1]) + Product(d)
  }

  /** The paper and ribbon needed do not depend on the order in which the
      dimensions are given. */
  lemma NeedsSymmetric(w: nat, l: nat, h: nat)
    ensures PaperFor(w, l, h) == PaperFor(l, w, h) == PaperFor(w, h, l)
    ensures RibbonFor(w, l, h) == RibbonFor(l, w, h) == RibbonFor(w, h, l)
  {
    assert w * l == l * w && w * h == h * w && l * h == h * l;
    assert w * l * h == l * w * h == w * h * l;
  }

  /** `d` holds `w`, `l` and `h` in one of their six orders. */
  predicate IsOrderOf(d: seq<nat>, w: nat, l: nat, h: nat)
  {
    || d == [w, l, h] || d == [w, h, l] || d == [l, w, h]
    || d == [l, h, w] || d == [h, w, l] || d == [h, l, w]
  }

  /** Being an order of the three values is being a permutation of them. */
  lemma IsOrderOfMultiset(d: seq<nat>, w: nat, l: nat, h: nat)
    requires IsOrderOf(d, w, l, h)
    ensures multiset(d) == multiset{w, l, h}
  {
  }

  /** Any order of the dimensions needs the same paper and ribbon. */
  lemma NeedsOfAnyOrder(d: seq<nat>, w: nat, l: nat, h: nat)
    requires IsOrderOf(d, w, l, h)
    ensures PaperFor(d[0], d[1], d[2]) == PaperFor(w, l, h)
    ensures RibbonFor(d[0], d[1], d[2]) == RibbonFor(w, l, h)
  {
    NeedsSymmetric(w, l, h);
    NeedsSymmetric(l, w, h);
    NeedsSymmetric(w, h, l);
    NeedsSymmetric(h, w, l);
  }

  /** `dimensions.sort()` on three elements: the same values, in increasing order. */
  method SortDimensions(a: array<nat>)
    requires a.Length == 3
    modifies a
    ensures SortedDims(a[..])
    ensures IsOrderOf(a[..], old(a[0]), old(a[1]), old(a[2]))
  {
    var x, y, z := a[0], a[1], a[2];
    if x > y {
      x, y := y, x;
    }
    if y > z {
      y, z := z, y;
    }
    if x > y {
      x, y := y, x;
    }
    a[0], a[1], a[2] := x, y, z;
    assert a[..] == [x, y, z];
  }

  // ---------------------------------------------------------------------
  // Packaging and presents

  /** The paper and ribbon for one present, or a running total of them. */
  class Packaging {
    var paper: nat
    var ribbon: nat

    /** `Packaging::default`: nothing yet. */
    constructor Default()
      ensures paper == 0 && ribbon == 0
    {
      paper := 0;
      ribbon := 0;
    }

    constructor (paper: nat, ribbon: nat)
      ensures this.paper == paper && this.ribbon == ribbon
    {
      this.paper := paper;
      this.ribbon := ribbon;
    }

    /** `+=`: adds the other packaging's paper and ribbon to this one's;
        the other packaging is borrowed, so it is a different object and
        stays as it was. */
    method AddAssign(rhs: Packaging)
      requires rhs != this
      modifies this
      ensures paper == old(paper) + rhs.paper
      ensures ribbon == old(ribbon) + rhs.ribbon
    {
      paper := paper + rhs.paper;
      ribbon := ribbon + rhs.ribbon;
    }
  }

  class Gift {
    /** What `get_required_packaging` hands out. */
    const packaging: Packaging

    /** `Gift::new`: sorts the dimensions, then works out paper and ribbon
        from the sorted order; the result is what the present needs,
        whatever order the dimensions came in. */
    constructor (w: nat, l: nat, h: nat)
      ensures fresh(packaging)
      ensures packaging.paper == PaperFor(w, l, h)
      ensures packaging.ribbon == RibbonFor(w, l, h)
    {
      var dimensions := new nat[3] [w, l, h];
      assert dimensions[..] == [w, l, h];
      SortDimensions(dimensions);
      var d := dimensions[..];
      NeedsOfAnyOrder(d, w, l, h);
      packaging := new Packaging(WrappingPaper(d), Ribbon(d));
    }

    /** `Gift::new_arr`: the same from an array of three dimensions. */
    static method NewArr(dimensions: array<nat>) returns (g: Gift)
      requires dimensions.Length == 3
      ensures fresh(g) && fresh(g.packaging)
      ensures g.packaging.paper == PaperFor(dimensions[0], dimensions[1], dimensions[2])
      ensures g.packaging.ribbon == RibbonFor(dimensions[0], dimensions[1], dimensions[2])
    {
      g := new Gift(dimensions[0], dimensions[1], dimensions[2]);
    }
  }

  // ---------------------------------------------------------------------
  // Reading a line

  /** The unwraps succeed on `line`: at most three `x`-separated parts, each
      a number. */
  predicate DimensionsParsable(line: string)
  {
    var parts := Split(line, "x");
    |parts| <= 3 && forall i :: 0 <= i < |parts| ==> IsDecimal(parts[i])
  }

  /** The dimensions a line gives: the `x`-separated numbers in order, and 0
      for each dimension the line does not supply. */
  function LineDimensions(line: string): (d: seq<nat>)
    requires DimensionsParsable(line)
    ensures var parts := Split(line, "x");
      && |d| == 3
      && (forall i :: 0 <= i < |parts| ==> d[i] == ParseNat(parts[i]))
      && (forall i :: |parts| <= i < 3 ==> d[i] == 0)
  {
    var parts := Split(line, "x");
    seq(3, i requires 0 <= i < 3 => if i < |parts| then ParseNat(parts[i]) else 0)
  }

  /** The loop in `create_gifts_from_input` that fills `[0; 3]` from the
      parts of a line. */
  method ParseDimensions(line: string) returns (dimensions: array<nat>)
    requires DimensionsParsable(line)
    ensures fresh(dimensions)
    ensures dimensions[..] == LineDimensions(line)
  {
    var splitLine := Split(line, "x");
    dimensions := new nat[3] [0, 0, 0];
    for i := 0 to |splitLine|
      invariant forall k :: 0 <= k < i ==> dimensions[k] == ParseNat(splitLine[k])
      invariant forall k :: i <= k < 3 ==> dimensions[k] == 0
    {
      dimensions[i] := ParseNat(splitLine[i]);
    }
  }

  /** A line written as `AxBxC` gives back `A`, `B` and `C`, in order. */
  lemma LineDimensionsOfThree(a: nat, b: nat, c: nat)
    ensures var line := NatToString(a) + "x" + NatToString(b) + "x" + NatToString(c);
      DimensionsParsable(line) && LineDimensions(line) == [a, b, c]
  {
    var parts := [NatToString(a), NatToString(b), NatToString(c)];
    var line := NatToString(a) + "x" + NatToString(b) + "x" + NatToString(c);
    forall i | 0 <= i < 3
      ensures 'x' !in parts[i]
    {
      assert forall k :: 0 <= k < |parts[i]| ==> IsDigit(parts[i][k]);
    }
    JoinThree(parts[0], parts[1], parts[2], "x");
    SplitJoin(parts, 'x');
    assert Split(line, "x") == parts;
    assert IsDecimal(parts[0]) && IsDecimal(parts[1]) && IsDecimal(parts[2]);
    var d := LineDimensions(line);
    assert d[0] == a && d[1] == b && d[2] == c;
  }

  /** A line with only `AxB` leaves the third dimension at 0. */
  lemma LineDimensionsOfTwo(a: nat, b: nat)
    ensures var line := NatToString(a) + "x" + NatToString(b);
      DimensionsParsable(line) && LineDimensions(line) == [a, b, 0]
  {
    var parts := [NatToString(a), NatToString(b)];
    forall i | 0 <= i < 2
      ensures 'x' !in parts[i]
    {
      assert forall k :: 0 <= k < |parts[i]| ==> IsDigit(parts[i][k]);
    }
    JoinCons(parts[0], [parts[1]], "x");
    assert [parts[0]] + [parts[1]] == parts;
    SplitJoin(parts, 'x');
  }

  // ---------------------------------------------------------------------
  // All presents

  /** The paper the present described by `line` needs. */
  function LinePaper(line: string): nat
    requires DimensionsParsable(line)
  {
    var d := LineDimensions(line);
    PaperFor(d[0], d[1], d[2])
  }

  /** The ribbon the present described by `line` needs. */
  function LineRibbon(line: string): nat
    requires DimensionsParsable(line)
  {
    var d := LineDimensions(line);
    RibbonFor(d[0], d[1], d[2])
  }

  /** Each present needs what the line at the same position calls for. */
  predicate Describes(gifts: seq<Gift>, lines: seq<string>)
    reads Packagings(gifts)
  {
    && |gifts| == |lines|
    && (forall i :: 0 <= i < |lines| ==> DimensionsParsable(lines[i]))
    && forall i :: 0 <= i < |gifts| ==>
      gifts[i].packaging.paper == LinePaper(lines[i]) && gifts[i].packaging.ribbon == LineRibbon(lines[i])
  }

  /** The body of the loop in `create_gifts_from_input`: the present one
      line describes. */
  method GiftOfLine(line: string) returns (gift: Gift)
    requires DimensionsParsable(line)
    ensures fresh(gift)
    ensures gift.packaging.paper == LinePaper(line)
    ensures gift.packaging.ribbon == LineRibbon(line)
  {
    var dimensions := ParseDimensions(line);
    gift := Gift.NewArr(dimensions);
  }

  /** `create_gifts_from_input`, with the lines of the input given: pushes
      one new present per line onto `gifts`, each needing what the
      dimensions on its line call for. */
  method CreateGifts(gifts: seq<Gift>, lines: seq<string>) returns (result: seq<Gift>)
    requires forall i :: 0 <= i < |lines| ==> DimensionsParsable(lines[i])
    ensures |result| == |gifts| + |lines|
    ensures result[..|gifts|] == gifts
    ensures forall i :: |gifts| <= i < |result| ==>
      && result[i].packaging.paper == LinePaper(lines[i - |gifts|])
      && result[i].packaging.ribbon == LineRibbon(lines[i - |gifts|])
  {
    result := gifts;
    for n := 0 to |lines|
      invariant |result| == |gifts| + n
      invariant result[..|gifts|] == gifts
      invariant forall i :: |gifts| <= i < |result| ==>
        && result[i].packaging.paper == LinePaper(lines[i - |gifts|])
        && result[i].packaging.ribbon == LineRibbon(lines[i - |gifts|])
    {
      var gift := GiftOfLine(lines[n]);
      result := result + [gift];
    }
  }

  /** The packagings of the presents. */
  function Packagings(gifts: seq<Gift>): set<Packaging>
  {
    set i | 0 <= i < |gifts| :: gifts[i].packaging
  }

  /** The paper the presents need, added up. */
  function PaperTotal(gifts: seq<Gift>): nat
    reads Packagings(gifts)
    decreases |gifts|
  {
    if |gifts| == 0 then 0
    else
      assert Packagings(gifts[..|gifts| - 1]) <= Packagings(gifts);
      PaperTotal(gifts[..|gifts| - 1]) + gifts[|gifts| - 1].packaging.paper
  }

  /** The ribbon the presents need, added up. */
  function RibbonTotal(gifts: seq<Gift>): nat
    reads Packagings(gifts)
    decreases |gifts|
  {
    if |gifts| == 0 then 0
    else
      assert Packagings(gifts[..|gifts| - 1]) <= Packagings(gifts);
      RibbonTotal(gifts[..|gifts| - 1]) + gifts[|gifts| - 1].packaging.ribbon
  }

  /** The totals loop of `main`: starting from the default packaging, adds
      every present's packaging in turn. */
  method TotalPackaging(gifts: seq<Gift>) returns (total: Packaging)
    ensures fresh(total)
    ensures total.paper == PaperTotal(gifts)
    ensures total.ribbon == RibbonTotal(gifts)
  {
    total := new Packaging.Default();
    for n := 0 to |gifts|
      invariant fresh(total)
      invariant total !in Packagings(gifts)
      invariant total.paper == PaperTotal(gifts[..n])
      invariant total.ribbon == RibbonTotal(gifts[..n])
    {
      assert gifts[..n + 1][..n] == gifts[..n];
      assert Packagings(gifts[..n]) <= Packagings(gifts);
      total.AddAssign(gifts[n].packaging);
    }
    assert gifts[..|gifts|] == gifts;
  }

  /** The paper all the lines call for, added up. */
  function LinesPaper(lines: seq<string>): nat
    requires forall i :: 0 <= i < |lines| ==> DimensionsParsable(lines[i])
    decreases |lines|
  {
    if |lines| == 0 then 0
    else LinesPaper(lines[..|lines| - 1]) + LinePaper(lines[|lines| - 1])
  }

  /** The ribbon all the lines call for, added up. */
  function LinesRibbon(lines: seq<string>): nat
    requires forall i :: 0 <= i < |lines| ==> DimensionsParsable(lines[i])
    decreases |lines|
  {
    if |lines| == 0 then 0
    else LinesRibbon(lines[..|lines| - 1]) + LineRibbon(lines[|lines| - 1])
  }

  lemma DescribesPrefix(gifts: seq<Gift>, lines: seq<string>, n: nat)
    requires Describes(gifts, lines) && n <= |gifts|
    ensures Describes(gifts[..n], lines[..n])
  {
    assert forall i :: 0 <= i < n ==> gifts[..n][i] == gifts[i] && lines[..n][i] == lines[i];
    assert Packagings(gifts[..n]) <= Packagings(gifts);
  }

  /** Presents made one per line need, together, the paper the lines call for. */
  lemma {:induction false} PaperOfLines(gifts: seq<Gift>, lines: seq<string>)
    requires Describes(gifts, lines)
    ensures PaperTotal(gifts) == LinesPaper(lines)
    decreases |gifts|
  {
    if |gifts| > 0 {
      var n := |gifts| - 1;
      DescribesPrefix(gifts, lines, n);
      PaperOfLines(gifts[..n], lines[..n]);
      assert gifts[n].packaging.paper == LinePaper(lines[n]);
    }
  }

  /** Presents made one per line need, together, the ribbon the lines call for. */
  lemma {:induction false} RibbonOfLines(gifts: seq<Gift>, lines: seq<string>)
    requires Describes(gifts, lines)
    ensures RibbonTotal(gifts) == LinesRibbon(lines)
    decreases |gifts|
  {
    if |gifts| > 0 {
      var n := |gifts| - 1;
      DescribesPrefix(gifts, lines, n);
      RibbonOfLines(gifts[..n], lines[..n]);
      assert gifts[n].packaging.ribbon == LineRibbon(lines[n]);
    }
  }

  /** The computation `main` performs on the lines of the input: the paper
      and ribbon totals it prints are what the listed presents need. */
  method Solve(lines: seq<string>) returns (paper: nat, ribbon: nat)
    requires forall i :: 0 <= i < |lines| ==> DimensionsParsable(lines[i])
    ensures paper == LinesPaper(lines)
    ensures ribbon == LinesRibbon(lines)
  {
    var gifts := CreateGifts([], lines);
    assert Describes(gifts, lines) by {
      assert forall i :: 0 <= i < |gifts| ==> gifts[i - 0] == gifts[i] && lines[i - 0] == lines[i];
    }
    var totalPackaging := TotalPackaging(gifts);
    PaperOfLines(gifts, lines);
    RibbonOfLines(gifts, lines);
    paper := totalPackaging.paper;
    ribbon := totalPackaging.ribbon;
  }
}
