/** Geohashes by bisection: what the loop returns, what it denotes, and how the two determine each other.

    Coordinates are real numbers, so the rounding of floating point midpoints is not modelled. */
module Geohash {
  const ALPHABET := "0123456789bcdefghjkmnpqrstuvwxyz"

  // ------------------------------------------------------------------
  // Cells and their halves
  // ------------------------------------------------------------------

  datatype Box = Box(south: real, north: real, west: real, east: real)

  const WORLD := Box(-90.0, 90.0, -180.0, 180.0)

  predicate IsBox(b: Box) {
    -90.0 <= b.south < b.north <= 90.0 && -180.0 <= b.west < b.east <= 180.0
  }

  predicate OnEarth(lat: real, lon: real) {
    -90.0 <= lat <= 90.0 && -180.0 <= lon <= 180.0
  }

  /** Even bits halve the longitude, odd bits the latitude. */
  function Refine(b: Box, even: bool, upper: bool): Box {
    var midLon, midLat := (b.west + b.east) / 2.0, (b.south + b.north) / 2.0;
    if even then if upper then b.(west := midLon) else b.(east := midLon)
    else if upper then b.(south := midLat) else b.(north := midLat)
  }

  predicate IsUpper(b: Box, even: bool, lat: real, lon: real) {
    if even then lon >= (b.west + b.east) / 2.0 else lat >= (b.south + b.north) / 2.0
  }

  /** Cells are closed below and open above, except at the pole and the date line. */
  predicate Inside(b: Box, lat: real, lon: real) {
    && b.south <= lat && (lat < b.north || lat == b.north == 90.0)
    && b.west <= lon && (lon < b.east || lon == b.east == 180.0)
  }

  /** A point lies in one half of a cell exactly when it lies in the cell and the test picks that half. */
  lemma InsideHalf(b: Box, even: bool, upper: bool, lat: real, lon: real)
    requires IsBox(b)
    ensures IsBox(Refine(b, even, upper))
    ensures Inside(Refine(b, even, upper), lat, lon) <==> Inside(b, lat, lon) && IsUpper(b, even, lat, lon) == upper
  {
  }

  // ------------------------------------------------------------------
  // Characters
  // ------------------------------------------------------------------

  /** The character of ALPHABET at one position; the letters a, i, l and o are left out. */
  function Digit(v: nat): (c: char)
    requires v < 32
    ensures IsDigit(c)
  {
    if v < 10 then '0' + v as char
    else if v < 17 then 'b' + (v - 10) as char
    else if v < 19 then 'j' + (v - 17) as char
    else if v < 21 then 'm' + (v - 19) as char
    else 'p' + (v - 21) as char
  }

  predicate IsDigit(c: char) {
    '0' <= c <= '9' || 'b' <= c <= 'h' || 'j' <= c <= 'k' || 'm' <= c <= 'n' || 'p' <= c <= 'z'
  }

  /** The position of a character among the geohash digits. */
  function Index(c: char): (v: nat)
    requires IsDigit(c)
    ensures v < 32 && Digit(v) == c
  {
    if c <= '9' then (c - '0') as int
    else if c <= 'h' then 10 + (c - 'b') as int
    else if c <= 'k' then 17 + (c - 'j') as int
    else if c <= 'n' then 19 + (c - 'm') as int
    else 21 + (c - 'p') as int
  }

  lemma IndexOfDigit(v: nat)
    requires v < 32
    ensures Index(Digit(v)) == v
  {
  }

  method Character(v: nat) returns (c: char)
    requires v < 32
    ensures c == Digit(v)
  {
    c := ALPHABET[v];
  }

  predicate IsGeohash(hash: string) {
    forall i :: 0 <= i < |hash| ==> IsDigit(hash[i])
  }

  // ------------------------------------------------------------------
  // The five bits of one character
  // ------------------------------------------------------------------

  /** The parity of the j-th bit of a character whose first bit has the given parity. */
  predicate Turn(even: bool, j: nat) {
    if j == 0 then even else !Turn(even, j - 1)
  }

  function Weight(j: nat): nat
    requires j < 5
  {
    match j case 0 => 16 case 1 => 8 case 2 => 4 case 3 => 2 case 4 => 1
  }

  /** What is left of v below its first j bits. */
  function Rest(v: nat, j: nat): (r: nat)
    requires j <= 5
    ensures r <= v
    decreases v, j, 0
  {
    if j == 0 then v else if HasBit(v, j - 1) then Rest(v, j - 1) - Weight(j - 1) else Rest(v, j - 1)
  }

  predicate HasBit(v: nat, j: nat)
    requires j < 5
    decreases v, j, 1
  {
    Rest(v, j) >= Weight(j)
  }

  /** Where a point has got to after j halvings of b. */
  function Part(b: Box, even: bool, lat: real, lon: real, j: nat): Box {
    if j == 0 then b
    else
      var before := Part(b, even, lat, lon, j - 1);
      Refine(before, Turn(even, j - 1), IsUpper(before, Turn(even, j - 1), lat, lon))
  }

  predicate PartBit(b: Box, even: bool, lat: real, lon: real, j: nat) {
    IsUpper(Part(b, even, lat, lon, j), Turn(even, j), lat, lon)
  }

  /** The value collected in those j halvings. */
  function Collected(b: Box, even: bool, lat: real, lon: real, j: nat): nat
    requires j <= 5
  {
    if j == 0 then 0
    else Collected(b, even, lat, lon, j - 1) + if PartBit(b, even, lat, lon, j - 1) then Weight(j - 1) else 0
  }

  /** The cell that the first j bits of v cut out of b. */
  function Child(b: Box, even: bool, v: nat, j: nat): Box
    requires j <= 5
  {
    if j == 0 then b else Refine(Child(b, even, v, j - 1), Turn(even, j - 1), HasBit(v, j - 1))
  }

  /** The point's first j choices are the bits of v. */
  ghost predicate Agree(b: Box, even: bool, lat: real, lon: real, v: nat, j: nat)
    requires j <= 5
  {
    forall i :: 0 <= i < j ==> PartBit(b, even, lat, lon, i) == HasBit(v, i)
  }

  lemma {:induction false} InsideChild(b: Box, even: bool, lat: real, lon: real, v: nat, j: nat)
    requires IsBox(b) && j <= 5
    ensures IsBox(Child(b, even, v, j))
    ensures Inside(Child(b, even, v, j), lat, lon) <==> Inside(b, lat, lon) && Agree(b, even, lat, lon, v, j)
    ensures Agree(b, even, lat, lon, v, j) ==> Child(b, even, v, j) == Part(b, even, lat, lon, j)
  {
    if j > 0 {
      InsideChild(b, even, lat, lon, v, j - 1);
      InsideHalf(Child(b, even, v, j - 1), Turn(even, j - 1), HasBit(v, j - 1), lat, lon);
      AgreeStep(b, even, lat, lon, v, j);
    }
  }

  lemma AgreeStep(b: Box, even: bool, lat: real, lon: real, v: nat, j: nat)
    requires 0 < j <= 5
    ensures Agree(b, even, lat, lon, v, j) <==>
            Agree(b, even, lat, lon, v, j - 1) && PartBit(b, even, lat, lon, j - 1) == HasBit(v, j - 1)
  {
  }

  function Bit(b: bool): nat { if b then 1 else 0 }

  lemma Binary(v: nat)
    requires v < 32
    ensures v == 16 * Bit(HasBit(v, 0)) + 8 * Bit(HasBit(v, 1)) + 4 * Bit(HasBit(v, 2)) + 2 * Bit(HasBit(v, 3)) + Bit(HasBit(v, 4))
  {
    assert Rest(v, 1) == v - 16 * Bit(HasBit(v, 0)) && Rest(v, 1) < 16;
    assert Rest(v, 2) == Rest(v, 1) - 8 * Bit(HasBit(v, 1)) && Rest(v, 2) < 8;
    assert Rest(v, 3) == Rest(v, 2) - 4 * Bit(HasBit(v, 2)) && Rest(v, 3) < 4;
    assert Rest(v, 4) == Rest(v, 3) - 2 * Bit(HasBit(v, 3)) && Rest(v, 4) < 2;
  }

  lemma SameSum(a0: bool, a1: bool, a2: bool, a3: bool, a4: bool, b0: bool, b1: bool, b2: bool, b3: bool, b4: bool)
    requires 16 * Bit(a0) + 8 * Bit(a1) + 4 * Bit(a2) + 2 * Bit(a3) + Bit(a4)
             == 16 * Bit(b0) + 8 * Bit(b1) + 4 * Bit(b2) + 2 * Bit(b3) + Bit(b4)
    ensures a0 == b0 && a1 == b1 && a2 == b2 && a3 == b3 && a4 == b4
  {
  }

  lemma CollectedIsSum(b: Box, even: bool, lat: real, lon: real)
    ensures Collected(b, even, lat, lon, 5) ==
            16 * Bit(PartBit(b, even, lat, lon, 0)) + 8 * Bit(PartBit(b, even, lat, lon, 1))
            + 4 * Bit(PartBit(b, even, lat, lon, 2)) + 2 * Bit(PartBit(b, even, lat, lon, 3)) + Bit(PartBit(b, even, lat, lon, 4))
  {
    assert Collected(b, even, lat, lon, 1) == 16 * Bit(PartBit(b, even, lat, lon, 0));
    assert Collected(b, even, lat, lon, 2) == Collected(b, even, lat, lon, 1) + 8 * Bit(PartBit(b, even, lat, lon, 1));
    assert Collected(b, even, lat, lon, 3) == Collected(b, even, lat, lon, 2) + 4 * Bit(PartBit(b, even, lat, lon, 2));
    assert Collected(b, even, lat, lon, 4) == Collected(b, even, lat, lon, 3) + 2 * Bit(PartBit(b, even, lat, lon, 3));
  }

  lemma AgreeFive(b: Box, even: bool, lat: real, lon: real, v: nat)
    ensures Agree(b, even, lat, lon, v, 5) <==>
            && PartBit(b, even, lat, lon, 0) == HasBit(v, 0) && PartBit(b, even, lat, lon, 1) == HasBit(v, 1)
            && PartBit(b, even, lat, lon, 2) == HasBit(v, 2) && PartBit(b, even, lat, lon, 3) == HasBit(v, 3)
            && PartBit(b, even, lat, lon, 4) == HasBit(v, 4)
  {
  }

  /** Five choices and their value determine each other. */
  lemma CollectedAgrees(b: Box, even: bool, lat: real, lon: real, v: nat)
    requires v < 32
    ensures Collected(b, even, lat, lon, 5) == v <==> Agree(b, even, lat, lon, v, 5)
  {
    CollectedIsSum(b, even, lat, lon);
    AgreeFive(b, even, lat, lon, v);
    Binary(v);
    if Collected(b, even, lat, lon, 5) == v {
      SameSum(PartBit(b, even, lat, lon, 0), PartBit(b, even, lat, lon, 1), PartBit(b, even, lat, lon, 2),
              PartBit(b, even, lat, lon, 3), PartBit(b, even, lat, lon, 4),
              HasBit(v, 0), HasBit(v, 1), HasBit(v, 2), HasBit(v, 3), HasBit(v, 4));
    }
  }

  /** A point of the world falls into the child of b numbered by the value it collects. */
  lemma InsideByValue(b: Box, even: bool, lat: real, lon: real, v: nat)
    requires IsBox(b) && v < 32
    ensures IsBox(Child(b, even, v, 5))
    ensures Inside(Child(b, even, v, 5), lat, lon) <==> Inside(b, lat, lon) && Collected(b, even, lat, lon, 5) == v
    ensures Collected(b, even, lat, lon, 5) == v ==> Child(b, even, v, 5) == Part(b, even, lat, lon, 5)
  {
    InsideChild(b, even, lat, lon, v, 5);
    CollectedAgrees(b, even, lat, lon, v);
  }

  // ------------------------------------------------------------------
  // Whole hashes
  // ------------------------------------------------------------------

  /** Characters have five bits, so their first bits alternate in parity as well. */
  predicate Even(n: nat) {
    n == 0 || !Even(n - 1)
  }

  /** The cell a point has been narrowed down to after n characters. */
  function Reach(lat: real, lon: real, n: nat): Box {
    if n == 0 then WORLD else Part(Reach(lat, lon, n - 1), Even(n - 1), lat, lon, 5)
  }

  function NextValue(lat: real, lon: real, n: nat): (v: nat)
    ensures v < 32
  {
    CollectedIsSum(Reach(lat, lon, n), Even(n), lat, lon);
    Collected(Reach(lat, lon, n), Even(n), lat, lon, 5)
  }

  /** `encode_geohash` as a function of a valid point. */
  function Hash(lat: real, lon: real, precision: nat): (hash: string)
    ensures |hash| == precision && IsGeohash(hash)
  {
    if precision == 0 then "" else Hash(lat, lon, precision - 1) + [Digit(NextValue(lat, lon, precision - 1))]
  }

  /** The cell denoted by the first n characters of a hash. */
  function CellOf(hash: string, n: nat): Box
    requires IsGeohash(hash) && n <= |hash|
  {
    if n == 0 then WORLD else Child(CellOf(hash, n - 1), Even(n - 1), Index(hash[n - 1]), 5)
  }

  lemma {:induction false} PointInCell(lat: real, lon: real, hash: string, n: nat)
    requires OnEarth(lat, lon) && IsGeohash(hash) && n <= |hash|
    ensures IsBox(CellOf(hash, n))
    ensures Hash(lat, lon, n) == hash[..n] <==> Inside(CellOf(hash, n), lat, lon)
    ensures Hash(lat, lon, n) == hash[..n] ==> CellOf(hash, n) == Reach(lat, lon, n)
  {
    if n > 0 {
      PointInCell(lat, lon, hash, n - 1);
      assert Reach(lat, lon, n) == Part(Reach(lat, lon, n - 1), Even(n - 1), lat, lon, 5);
      InsideByValue(CellOf(hash, n - 1), Even(n - 1), lat, lon, Index(hash[n - 1]));
      LastCharacter(lat, lon, hash, n);
    }
  }

  lemma LastCharacter(lat: real, lon: real, hash: string, n: nat)
    requires IsGeohash(hash) && 0 < n <= |hash|
    ensures Hash(lat, lon, n) == hash[..n] <==>
            && Hash(lat, lon, n - 1) == hash[..n - 1]
            && Collected(Reach(lat, lon, n - 1), Even(n - 1), lat, lon, 5) == Index(hash[n - 1])
  {
    var h, c := Hash(lat, lon, n - 1), Digit(NextValue(lat, lon, n - 1));
    IndexOfDigit(NextValue(lat, lon, n - 1));
    assert (h + [c])[..n - 1] == h && (h + [c])[n - 1] == c;
    assert hash[..n][..n - 1] == hash[..n - 1] && hash[..n] == hash[..n - 1] + [hash[n - 1]];
  }

  lemma Turns(even: bool)
    ensures Turn(even, 1) == Turn(even, 3) == Turn(even, 5) == !even && Turn(even, 2) == Turn(even, 4) == even
  {
    assert Turn(even, 1) == !even;
    assert Turn(even, 2) == even;
    assert Turn(even, 3) == !even;
    assert Turn(even, 4) == even;
  }

  /** The state of the encoder after some characters and some bits of the next one. */
  ghost predicate Progress(lat: real, lon: real, hash: string, bit: nat, ch: nat, cell: Box, evenBit: bool) {
    var base, first := Reach(lat, lon, |hash|), Even(|hash|);
    && bit <= 5 && hash == Hash(lat, lon, |hash|)
    && cell == Part(base, first, lat, lon, bit) && evenBit == Turn(first, bit)
    && ch == Collected(base, first, lat, lon, bit)
  }

  lemma OneBitMore(lat: real, lon: real, hash: string, bit: nat, ch: nat, cell: Box, evenBit: bool)
    requires Progress(lat, lon, hash, bit, ch, cell, evenBit) && bit < 5
    ensures var upper := IsUpper(cell, evenBit, lat, lon);
            Progress(lat, lon, hash, bit + 1, ch + (if upper then Weight(bit) else 0), Refine(cell, evenBit, upper), !evenBit)
  {
  }

  lemma OneCharacterMore(lat: real, lon: real, hash: string, ch: nat, cell: Box, evenBit: bool)
    requires Progress(lat, lon, hash, 5, ch, cell, evenBit)
    ensures ch < 32 && Progress(lat, lon, hash + [Digit(ch)], 0, 0, cell, evenBit)
  {
    assert NextValue(lat, lon, |hash|) == ch;
    Turns(Even(|hash|));
    assert |hash + [Digit(ch)]| == |hash| + 1;
  }

  datatype Encoded = Encoded(hash: string) | Invalid

  /** `encode_geohash`: bisects both intervals, a bit at a time. The `|=` of a weight whose bit is
      still clear is an addition. */
  method Encode(lat: real, lon: real, precision: int) returns (r: Encoded)
    ensures r == if OnEarth(lat, lon) && precision > 0 then Encoded(Hash(lat, lon, precision)) else Invalid
  {
    if !(-90.0 <= lat <= 90.0) || !(-180.0 <= lon <= 180.0) || precision <= 0 {
      return Invalid;
    }
    var cell := WORLD; // the two intervals
    var hash, evenBit := "", true;
    var bit: nat, ch: nat := 0, 0;
    while |hash| < precision
      invariant |hash| <= precision && 0 <= bit <= 4 && (|hash| == precision ==> bit == 0)
      invariant Progress(lat, lon, hash, bit, ch, cell, evenBit)
      decreases precision - |hash|, 4 - bit
    {
      OneBitMore(lat, lon, hash, bit, ch, cell, evenBit);
      if evenBit {
        var mid := (cell.west + cell.east) / 2.0;
        if lon >= mid {
          ch := ch + Weight(bit);
          cell := cell.(west := mid);
        } else {
          cell := cell.(east := mid);
        }
      } else {
        var mid := (cell.south + cell.north) / 2.0;
        if lat >= mid {
          ch := ch + Weight(bit);
          cell := cell.(south := mid);
        } else {
          cell := cell.(north := mid);
        }
      }
      evenBit := !evenBit;
      if bit < 4 {
        bit := bit + 1;
      } else {
        OneCharacterMore(lat, lon, hash, ch, cell, evenBit);
        var c := Character(ch);
        hash := hash + [c];
        bit, ch := 0, 0;
      }
    }
    r := Encoded(hash);
  }

  // ------------------------------------------------------------------
  // Results
  // ------------------------------------------------------------------

  /** A point encodes to a hash exactly when it lies in the hash's cell: the cells of one length tile the map. */
  lemma EncodesToItsCell(lat: real, lon: real, hash: string)
    requires OnEarth(lat, lon) && IsGeohash(hash)
    ensures Hash(lat, lon, |hash|) == hash <==> Inside(CellOf(hash, |hash|), lat, lon)
  {
    PointInCell(lat, lon, hash, |hash|);
    assert hash[..|hash|] == hash;
  }

  /** The lower corner of any hash's cell encodes to that hash. */
  lemma CornerRoundTrips(hash: string)
    requires IsGeohash(hash)
    ensures Hash(CellOf(hash, |hash|).south, CellOf(hash, |hash|).west, |hash|) == hash
  {
    var b := CellOf(hash, |hash|);
    PointInCell(0.0, 0.0, hash, |hash|);
    EncodesToItsCell(b.south, b.west, hash);
  }

  /** A shorter encoding of a point is a prefix of a longer one. */
  lemma {:induction false} ShorterIsPrefix(lat: real, lon: real, n: nat, m: nat)
    requires n <= m
    ensures Hash(lat, lon, m)[..n] == Hash(lat, lon, n)
    decreases m
  {
    if n < m {
      ShorterIsPrefix(lat, lon, n, m - 1);
      assert Hash(lat, lon, m)[..n] == Hash(lat, lon, m - 1)[..n];
    }
  }

  /** Two points share their first n characters exactly when they lie in the same cell of that length. */
  lemma SharedPrefixIsSharedCell(lat: real, lon: real, lat': real, lon': real, n: nat, m: nat)
    requires OnEarth(lat, lon) && OnEarth(lat', lon') && n <= m
    ensures Hash(lat, lon, m)[..n] == Hash(lat', lon', m)[..n] <==> Inside(CellOf(Hash(lat, lon, n), n), lat', lon')
  {
    ShorterIsPrefix(lat, lon, n, m);
    ShorterIsPrefix(lat', lon', n, m);
    EncodesToItsCell(lat', lon', Hash(lat, lon, n));
  }

  function HalvedTimes(whole: real, n: nat): real {
    if n == 0 then whole else HalvedTimes(whole, n - 1) / 2.0
  }

  /** How many of a character's first j bits halve the longitude; the others halve the latitude. */
  function LonBits(even: bool, j: nat): (k: nat)
    ensures k <= j
  {
    if j == 0 then 0 else LonBits(even, j - 1) + if Turn(even, j - 1) then 1 else 0
  }

  lemma {:induction false} ChildSize(b: Box, even: bool, v: nat, j: nat)
    requires j <= 5
    ensures Child(b, even, v, j).east - Child(b, even, v, j).west == HalvedTimes(b.east - b.west, LonBits(even, j))
    ensures Child(b, even, v, j).north - Child(b, even, v, j).south == HalvedTimes(b.north - b.south, j - LonBits(even, j))
  {
    if j > 0 {
      ChildSize(b, even, v, j - 1);
    }
  }

  lemma {:induction false} HalvedAgain(whole: real, n: nat, k: nat)
    ensures HalvedTimes(HalvedTimes(whole, n), k) == HalvedTimes(whole, n + k)
  {
    if k > 0 {
      HalvedAgain(whole, n, k - 1);
    }
  }

  lemma Narrowed(b: Box, even: bool, v: nat, lonBits: nat, latBits: nat)
    requires b.east - b.west == HalvedTimes(360.0, lonBits) && b.north - b.south == HalvedTimes(180.0, latBits)
    ensures var c := Child(b, even, v, 5);
            && c.east - c.west == HalvedTimes(360.0, lonBits + LonBits(even, 5))
            && c.north - c.south == HalvedTimes(180.0, latBits + (5 - LonBits(even, 5)))
  {
    ChildSize(b, even, v, 5);
    HalvedAgain(360.0, lonBits, LonBits(even, 5));
    HalvedAgain(180.0, latBits, 5 - LonBits(even, 5));
  }

  /** The longitude bits of a hash of n characters. */
  function AllLonBits(n: nat): (k: nat)
    ensures k <= 5 * n
  {
    if n == 0 then 0 else AllLonBits(n - 1) + LonBits(Even(n - 1), 5)
  }

  lemma FiveTurns(even: bool)
    ensures LonBits(even, 5) == if even then 3 else 2
  {
    assert LonBits(even, 2) == 1;
    assert LonBits(even, 4) == 2;
  }

  lemma {:induction false} LonBitsAreHalf(n: nat)
    ensures Even(n) <==> n % 2 == 0
    ensures AllLonBits(n) == (5 * n + 1) / 2 && 5 * n - AllLonBits(n) == 5 * n / 2
  {
    if n > 0 {
      LonBitsAreHalf(n - 1);
      FiveTurns(Even(n - 1));
      var q := (n - 1) / 2;
      if Even(n - 1) {
        assert n == 2 * q + 1 && (5 * n + 1) / 2 == 5 * q + 3 && (5 * (n - 1) + 1) / 2 == 5 * q;
      } else {
        assert n == 2 * q + 2 && (5 * n + 1) / 2 == 5 * q + 5 && (5 * (n - 1) + 1) / 2 == 5 * q + 3;
      }
    }
  }

  /** The cell of n characters is 360 by 180 degrees, each side halved once for each of its bits:
      ceil(5n/2) times and floor(5n/2) times by LonBitsAreHalf. */
  lemma {:induction false} CellSize(hash: string, n: nat)
    requires IsGeohash(hash) && n <= |hash|
    ensures CellOf(hash, n).east - CellOf(hash, n).west == HalvedTimes(360.0, AllLonBits(n))
    ensures CellOf(hash, n).north - CellOf(hash, n).south == HalvedTimes(180.0, 5 * n - AllLonBits(n))
  {
    if n > 0 {
      CellSize(hash, n - 1);
      Narrowed(CellOf(hash, n - 1), Even(n - 1), Index(hash[n - 1]), AllLonBits(n - 1), 5 * (n - 1) - AllLonBits(n - 1));
    }
  }
}
