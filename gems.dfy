/**
  Token colours and token-count dictionaries.

  The Python engine keys every token dictionary by the strings "white", "blue",
  "green", "red", "black" and "gold". Here a colour is a datatype value and a
  token dictionary is a `map<Color, int>`; `Name` and `Parse` translate to and
  from the Python strings.
*/
module Gems {
  import opened Wrappers

  datatype Color = White | Blue | Green | Red | Black | Gold

  /** The five colours a card can cost, grant as a bonus or be required in. */
  type GemColor = c: Color | c != Gold witness White

  const GemColors: seq<GemColor> := [White, Blue, Green, Red, Black]
  const Colors: seq<Color> := [White, Blue, Green, Red, Black, Gold]
  const GemColorSet: set<Color> := set c: Color | c != Gold
  const ColorSet: set<Color> := set c: Color | true

  lemma ColorsListed(c: Color)
    ensures c in ColorSet && c in Colors
    ensures c != Gold ==> c in GemColorSet && c in GemColors
  {
  }

  function Name(c: Color): string {
    match c
    case White => "white"
    case Blue => "blue"
    case Green => "green"
    case Red => "red"
    case Black => "black"
    case Gold => "gold"
  }

  function Parse(s: string): (r: Option<Color>)
    ensures r.Some? ==> Name(r.value) == s
  {
    if s == "white" then Some(White)
    else if s == "blue" then Some(Blue)
    else if s == "green" then Some(Green)
    else if s == "red" then Some(Red)
    else if s == "black" then Some(Black)
    else if s == "gold" then Some(Gold)
    else None
  }

  lemma ParseName(c: Color)
    ensures Parse(Name(c)) == Some(c)
  {
  }

  /** A token dictionary that holds an entry for every colour, as the bank and every player's gems do. */
  predicate Full(m: map<Color, int>) {
    forall c: Color :: c in m
  }

  /** Two token dictionaries that hold every colour and agree on each are the same dictionary. */
  lemma FullMapsEqual(m: map<Color, int>, m': map<Color, int>)
    requires Full(m) && Full(m') && forall c :: m[c] == m'[c]
    ensures m == m'
  {
    assert m.Keys == m'.Keys;
  }

  /** Two full token dictionaries that differ from `base` by the same multiple of `off` are equal. */
  lemma OffsetMapsEqual(m: map<Color, int>, m': map<Color, int>, base: map<Color, int>, off: map<Color, int>, sign: int)
    requires Full(m) && Full(m') && Full(base) && Full(off)
    requires forall c :: m[c] == base[c] + sign * off[c]
    requires forall c :: m'[c] == base[c] + sign * off[c]
    ensures m == m'
  {
    FullMapsEqual(m, m');
  }

  /** `d.get(c, 0)`. */
  function Get(m: map<Color, int>, c: Color): int {
    if c in m then m[c] else 0
  }

  /** The sum of the entries of `m` for the colours listed in `cs`. */
  function SumOver(m: map<Color, int>, cs: seq<Color>): int {
    if cs == [] then 0 else SumOver(m, cs[..|cs| - 1]) + Get(m, cs[|cs| - 1])
  }

  /** `sum(d.values())` for a dictionary whose keys are colours. */
  function Total(m: map<Color, int>): (r: int)
    ensures (forall c :: Get(m, c) >= 0) ==> r >= 0
  {
    TotalOfSix(m);
    SumOver(m, Colors)
  }

  /** `sum(d.values())` is the sum of the six colour entries, an absent colour counting zero. */
  lemma TotalOfSix(m: map<Color, int>)
    ensures SumOver(m, Colors) == Get(m, White) + Get(m, Blue) + Get(m, Green) + Get(m, Red) + Get(m, Black) + Get(m, Gold)
  {
    var cs := Colors;
    assert SumOver(m, cs[..1]) == Get(m, White) by { assert cs[..1][..0] == []; }
    assert SumOver(m, cs[..2]) == SumOver(m, cs[..1]) + Get(m, Blue) by { assert cs[..2][..1] == cs[..1]; }
    assert SumOver(m, cs[..3]) == SumOver(m, cs[..2]) + Get(m, Green) by { assert cs[..3][..2] == cs[..2]; }
    assert SumOver(m, cs[..4]) == SumOver(m, cs[..3]) + Get(m, Red) by { assert cs[..4][..3] == cs[..3]; }
    assert SumOver(m, cs[..5]) == SumOver(m, cs[..4]) + Get(m, Black) by { assert cs[..5][..4] == cs[..4]; }
    assert cs[..6] == cs;
  }

  /** Raising one colour of a dictionary by one raises a sum over a list by the times that colour is listed. */
  lemma {:induction false} SumOverBump(m: map<Color, int>, m': map<Color, int>, cs: seq<Color>, x: Color)
    requires forall c :: Get(m, c) == Get(m', c) + (if c == x then 1 else 0)
    ensures SumOver(m, cs) == SumOver(m', cs) + Count(cs, x)
  {
    if cs != [] {
      SumOverBump(m, m', cs[..|cs| - 1], x);
    }
  }

  lemma {:induction false} SumOverZero(m: map<Color, int>, cs: seq<Color>)
    requires forall c :: Get(m, c) == 0
    ensures SumOver(m, cs) == 0
  {
    if cs != [] {
      SumOverZero(m, cs[..|cs| - 1]);
    }
  }

  lemma TotalBump(m: map<Color, int>, m': map<Color, int>, x: Color)
    requires forall c :: Get(m, c) == Get(m', c) + (if c == x then 1 else 0)
    ensures Total(m) == Total(m') + 1
  {
    SumOverBump(m, m', Colors, x);
    CountDistinct(Colors, x);
    ColorsListed(x);
  }

  /** How often `x` occurs in `s`. */
  function Count<T(==)>(s: seq<T>, x: T): nat {
    if s == [] then 0 else Count(s[..|s| - 1], x) + (if s[|s| - 1] == x then 1 else 0)
  }

  /** A sequence that lists no element twice occurs each of its elements once. */
  lemma {:induction false} CountDistinct<T>(s: seq<T>, x: T)
    requires forall i, j :: 0 <= i < j < |s| ==> s[i] != s[j]
    ensures Count(s, x) == if x in s then 1 else 0
  {
    if s != [] {
      var init := s[..|s| - 1];
      CountDistinct(init, x);
      assert x in s <==> x in init || s[|s| - 1] == x;
      assert s[|s| - 1] == x ==> x !in init;
    }
  }
}
