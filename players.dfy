/**
  Players (splender/player.py): the tokens, cards, nobles and score one seat
  holds, the bonus discount its purchased cards give, and the affordability and
  payment rule: bonuses discount first, then coloured gems pay, then gold covers
  what is still missing.
*/
module Players {
  import opened Wrappers
  import opened Gems
  import opened Values
  import opened Components

  /** The value a `Player` object holds; `Player.Record` reads it off the fields. */
  datatype PlayerRecord = PlayerRecord(
    id: int, name: string, gems: map<Color, int>,
    cards: seq<Card>, reserved: seq<Card>, nobles: seq<Noble>, score: int)

  function Digits(n: nat): (s: string)
    ensures |s| > 0
  {
    var d := ['0', '1', '2', '3', '4', '5', '6', '7', '8', '9'][n % 10];
    if n < 10 then [d] else Digits(n / 10) + [d]
  }

  /** `f"Player_{player_id}"`, the name a player gets when none (or an empty one) is given. */
  function DefaultName(id: int): (s: string)
    ensures s != ""
  {
    "Player_" + (if id < 0 then "-" + Digits(-id) else Digits(id))
  }

  /** Every colour at zero: a new player's gems and the empty payment record. */
  function ZeroGems(): (m: map<Color, int>)
    ensures Full(m) && forall c :: m[c] == 0
  {
    map c | c in ColorSet :: 0
  }

  // ---------------------------------------------------------------------------
  // Bonuses

  /** How many of `cards` grant a bonus in colour `g`. */
  function CountBonus(cards: seq<Card>, g: Color): (n: nat)
    ensures n <= |cards|
    ensures n == 0 <==> forall i :: 0 <= i < |cards| ==> cards[i].bonus != g
  {
    if cards == [] then 0
    else CountBonus(cards[..|cards| - 1], g) + (if cards[|cards| - 1].bonus == g then 1 else 0)
  }

  /** The `bonuses` property: the five gem colours, each with the number of purchased cards of that bonus. */
  function Bonuses(cards: seq<Card>): (b: map<Color, int>)
    ensures b.Keys == GemColorSet
    ensures forall c :: c in b ==> b[c] == CountBonus(cards, c)
  {
    map c | c in GemColorSet :: CountBonus(cards, c)
  }

  /** Every purchased card contributes to exactly one colour: the bonus counts add up to the number of cards. */
  lemma {:induction false} BonusesSumToCardCount(cards: seq<Card>)
    ensures Total(Bonuses(cards)) == |cards|
  {
    if cards != [] {
      var init := cards[..|cards| - 1];
      var last := cards[|cards| - 1];
      BonusesSumToCardCount(init);
      var b, b' := Bonuses(cards), Bonuses(init);
      forall c: Color ensures Get(b, c) == Get(b', c) + (if c == last.bonus then 1 else 0) {
        assert cards[..|cards| - 1] == init;
      }
      TotalBump(b, b', last.bonus);
    } else {
      SumOverZero(Bonuses(cards), Colors);
    }
  }

  // ---------------------------------------------------------------------------
  // Affordability (`can_buy`) and payment (`pay_for_card`)

  function Max0(x: int): int { if x < 0 then 0 else x }
  function Min(x: int, y: int): int { if x < y then x else y }

  /** A colour the loops over `card.cost.items()` do not skip: present with a non-zero price. */
  predicate Priced(cost: map<GemColor, int>, g: GemColor) {
    g in cost && cost[g] != 0
  }

  /** `cost_after_bonus`: the price of colour `g` once the bonuses are subtracted, never below zero. */
  function Due(cost: map<GemColor, int>, bon: map<Color, int>, g: GemColor): int {
    if Priced(cost, g) then Max0(cost[g] - Get(bon, g)) else 0
  }

  /** What `can_buy` adds to `missing_gems` for colour `g`. */
  function Shortfall(cost: map<GemColor, int>, bon: map<Color, int>, gems: map<Color, int>, g: GemColor): int
    requires Full(gems)
  {
    if Priced(cost, g) && gems[g] < Due(cost, bon, g) then Due(cost, bon, g) - gems[g] else 0
  }

  function MissingOver(cost: map<GemColor, int>, bon: map<Color, int>, gems: map<Color, int>, cs: seq<GemColor>): (r: int)
    requires Full(gems)
    ensures r >= 0
    ensures r == 0 <==> forall i :: 0 <= i < |cs| ==> Shortfall(cost, bon, gems, cs[i]) == 0
  {
    if cs == [] then 0
    else MissingOver(cost, bon, gems, cs[..|cs| - 1]) + Shortfall(cost, bon, gems, cs[|cs| - 1])
  }

  /** `missing_gems`: the tokens the coloured gems cannot cover, summed over the cost colours. */
  function Missing(cost: map<GemColor, int>, bon: map<Color, int>, gems: map<Color, int>): (r: int)
    requires Full(gems)
    ensures r >= 0
    ensures r == 0 <==> forall g: GemColor :: Shortfall(cost, bon, gems, g) == 0
  {
    assert (forall g: GemColor :: Shortfall(cost, bon, gems, g) == 0) <==>
           (forall i :: 0 <= i < |GemColors| ==> Shortfall(cost, bon, gems, GemColors[i]) == 0) by {
      if forall i :: 0 <= i < |GemColors| ==> Shortfall(cost, bon, gems, GemColors[i]) == 0 {
        forall g: GemColor ensures Shortfall(cost, bon, gems, g) == 0 {
          assert g == GemColors[0] || g == GemColors[1] || g == GemColors[2] || g == GemColors[3] || g == GemColors[4];
        }
      }
    }
    MissingOver(cost, bon, gems, GemColors)
  }

  /** `can_buy`: the gold held covers everything the coloured gems cannot. */
  predicate CanAfford(cost: map<GemColor, int>, bon: map<Color, int>, gems: map<Color, int>)
    requires Full(gems)
    ensures CanAfford(cost, bon, gems) ==> gems[Gold] >= 0
    ensures (forall g: GemColor :: Shortfall(cost, bon, gems, g) == 0) ==> (CanAfford(cost, bon, gems) <==> gems[Gold] >= 0)
  {
    Missing(cost, bon, gems) <= gems[Gold]
  }

  /** `gems_to_pay`: the coloured tokens spent on colour `g`. */
  function GemPay(cost: map<GemColor, int>, bon: map<Color, int>, gems: map<Color, int>, g: GemColor): int
    requires Full(gems)
  {
    if Priced(cost, g) then Min(gems[g], Due(cost, bon, g)) else 0
  }

  /** `gold_needed` when positive: the gold spent on colour `g`. */
  function GoldPay(cost: map<GemColor, int>, bon: map<Color, int>, gems: map<Color, int>, g: GemColor): int
    requires Full(gems)
  {
    var needed := Due(cost, bon, g) - GemPay(cost, bon, gems, g);
    if Priced(cost, g) && needed > 0 then needed else 0
  }

  function GoldOver(cost: map<GemColor, int>, bon: map<Color, int>, gems: map<Color, int>, cs: seq<GemColor>): int
    requires Full(gems)
  {
    if cs == [] then 0
    else GoldOver(cost, bon, gems, cs[..|cs| - 1]) + GoldPay(cost, bon, gems, cs[|cs| - 1])
  }

  /** The `paid_tokens` record `pay_for_card` returns: coloured tokens per colour, and all the gold spent. */
  function Payment(cost: map<GemColor, int>, bon: map<Color, int>, gems: map<Color, int>): (paid: map<Color, int>)
    requires Full(gems)
    ensures Full(paid)
  {
    var gold := GoldOver(cost, bon, gems, GemColors);
    map c: Color | c in ColorSet :: if c == Gold then gold else GemPay(cost, bon, gems, c)
  }

  /** Gold pays exactly what `can_buy` counts as missing, colour by colour. */
  lemma {:induction false} GoldOverIsMissingOver(cost: map<GemColor, int>, bon: map<Color, int>, gems: map<Color, int>, cs: seq<GemColor>)
    requires Full(gems)
    ensures GoldOver(cost, bon, gems, cs) == MissingOver(cost, bon, gems, cs)
  {
    if cs != [] {
      GoldOverIsMissingOver(cost, bon, gems, cs[..|cs| - 1]);
    }
  }

  /** The gold in the payment record is the shortfall `can_buy` compares against the gold held. */
  lemma GoldPaidIsShortfall(cost: map<GemColor, int>, bon: map<Color, int>, gems: map<Color, int>)
    requires Full(gems)
    ensures Payment(cost, bon, gems)[Gold] == Missing(cost, bon, gems)
  {
    GoldOverIsMissingOver(cost, bon, gems, GemColors);
  }

  /** `can_buy` holds exactly when paying leaves the gold count non-negative. */
  lemma CanBuyIffGoldCovers(cost: map<GemColor, int>, bon: map<Color, int>, gems: map<Color, int>)
    requires Full(gems)
    ensures CanAfford(cost, bon, gems) <==> gems[Gold] - Payment(cost, bon, gems)[Gold] >= 0
  {
    GoldPaidIsShortfall(cost, bon, gems);
  }

  /** Paying for an affordable card from non-negative holdings leaves every count, gold included, non-negative. */
  lemma PaymentKeepsGemsNonNegative(cost: map<GemColor, int>, bon: map<Color, int>, gems: map<Color, int>)
    requires Full(gems) && forall c :: gems[c] >= 0
    requires CanAfford(cost, bon, gems)
    ensures forall c :: gems[c] - Payment(cost, bon, gems)[c] >= 0
  {
    GoldPaidIsShortfall(cost, bon, gems);
  }

  lemma {:induction false} CoveredGoldOverIsZero(cost: map<GemColor, int>, bon: map<Color, int>, gems: map<Color, int>, cs: seq<GemColor>)
    requires Full(gems) && forall c :: gems[c] >= 0
    requires forall g: GemColor :: g in cost ==> cost[g] <= Get(bon, g)
    ensures GoldOver(cost, bon, gems, cs) == 0
  {
    if cs != [] {
      CoveredGoldOverIsZero(cost, bon, gems, cs[..|cs| - 1]);
    }
  }

  /**
    A card whose price the bonuses cover costs nothing: the payment record is
    all zeros (for non-negative holdings; `min` with a negative count pays a
    negative amount).
  */
  lemma BonusCoveredCardIsFree(cost: map<GemColor, int>, bon: map<Color, int>, gems: map<Color, int>)
    requires Full(gems) && forall c :: gems[c] >= 0
    requires forall g: GemColor :: g in cost ==> cost[g] <= Get(bon, g)
    ensures forall c :: Payment(cost, bon, gems)[c] == 0
  {
    CoveredGoldOverIsZero(cost, bon, gems, GemColors);
  }

  /** The entry for colour `c` of the payment record once the loop has visited the first `n` gem colours. */
  function PaidSoFar(cost: map<GemColor, int>, bon: map<Color, int>, gems: map<Color, int>, n: nat, c: Color): int
    requires Full(gems) && n <= |GemColors|
  {
    if c == Gold then GoldOver(cost, bon, gems, GemColors[..n])
    else if c in GemColors[..n] then GemPay(cost, bon, gems, c)
    else 0
  }

  /** One turn of the payment loop: colour `GemColors[n]` is paid in its own tokens, the rest in gold. */
  lemma PaidSoFarStep(cost: map<GemColor, int>, bon: map<Color, int>, gems: map<Color, int>, n: nat)
    requires Full(gems) && n < |GemColors|
    ensures PaidSoFar(cost, bon, gems, n, GemColors[n]) == 0
    ensures forall c :: (PaidSoFar(cost, bon, gems, n + 1, c) ==
      PaidSoFar(cost, bon, gems, n, c)
      + (if c == GemColors[n] then GemPay(cost, bon, gems, GemColors[n]) else 0)
      + (if c == Gold then GoldPay(cost, bon, gems, GemColors[n]) else 0))
  {
    var g := GemColors[n];
    assert GemColors[..n + 1] == GemColors[..n] + [g];
    assert g !in GemColors[..n];
  }

  /** The loop invariant of `PayForCard` after `n` colours: what has been paid, and that it left `gems`. */
  predicate PaidInvariant(cost: map<GemColor, int>, bon: map<Color, int>, before: map<Color, int>, n: nat,
                          paid: map<Color, int>, gems: map<Color, int>)
    requires Full(before) && n <= |GemColors|
  {
    && Full(paid) && (forall c :: paid[c] == PaidSoFar(cost, bon, before, n, c))
    && Full(gems) && (forall c :: gems[c] + paid[c] == before[c])
  }

  /**
    One turn of the payment loop keeps the invariant: colour `g = GemColors[n]`
    moves `gp` of its own tokens and the gold moves `gl`, nothing else changes.
  */
  lemma PayColourStep(cost: map<GemColor, int>, bon: map<Color, int>, before: map<Color, int>, n: nat,
                      paid: map<Color, int>, gems: map<Color, int>, gp: int, gl: int,
                      paid': map<Color, int>, gems': map<Color, int>)
    requires Full(before) && n < |GemColors|
    requires PaidInvariant(cost, bon, before, n, paid, gems)
    requires gp == GemPay(cost, bon, gems, GemColors[n]) && gl == GoldPay(cost, bon, gems, GemColors[n])
    requires Full(paid') && Full(gems')
    requires paid'[GemColors[n]] == paid[GemColors[n]] + gp && gems'[GemColors[n]] == gems[GemColors[n]] - gp
    requires paid'[Gold] == paid[Gold] + gl && gems'[Gold] == gems[Gold] - gl
    requires forall c :: c != GemColors[n] && c != Gold ==> paid'[c] == paid[c] && gems'[c] == gems[c]
    ensures PaidInvariant(cost, bon, before, n + 1, paid', gems')
  {
    PaidSoFarStep(cost, bon, before, n);
    var g := GemColors[n];
    assert gems[g] == before[g];
    assert GemPay(cost, bon, gems, g) == GemPay(cost, bon, before, g);
    assert GoldPay(cost, bon, gems, g) == GoldPay(cost, bon, before, g);
    forall c ensures paid'[c] == PaidSoFar(cost, bon, before, n + 1, c) {
    }
  }

  lemma PaidSoFarEnd(cost: map<GemColor, int>, bon: map<Color, int>, gems: map<Color, int>, paid: map<Color, int>)
    requires Full(gems) && Full(paid)
    requires forall c :: paid[c] == PaidSoFar(cost, bon, gems, |GemColors|, c)
    ensures paid == Payment(cost, bon, gems)
  {
    assert GemColors[..|GemColors|] == GemColors;
    forall c: Color ensures paid[c] == Payment(cost, bon, gems)[c] {
      ColorsListed(c);
    }
  }

  // ---------------------------------------------------------------------------
  // Dictionary form

  const PlayerKeys: set<string> := {"id", "name", "gems", "cards", "reserved", "nobles", "score"}

  function EncodePlayer(p: PlayerRecord): (v: Value)
    ensures v.VDict? && v.fields.Keys == PlayerKeys
  {
    VDict(map[
      "id" := VInt(p.id), "name" := VStr(p.name), "gems" := EncodeCounts(p.gems),
      "cards" := VList(CardsToList(p.cards)), "reserved" := VList(CardsToList(p.reserved)),
      "nobles" := VList(NoblesToList(p.nobles)), "score" := VInt(p.score)])
  }

  /** `name if name else f"Player_{player_id}"` on the stored name. */
  function NameOf(v: Value, id: int): (r: Result<string, DecodeError>)
    ensures r.Success? ==> r.value != ""
  {
    match v
    case VNone => Success(DefaultName(id))
    case VStr(s) => Success(if s != "" then s else DefaultName(id))
    case _ => Failure(WrongType("name"))
  }

  /** `Player.from_dict`, read in the order the source reads the keys. */
  function DecodePlayer(v: Value): (r: Result<PlayerRecord, DecodeError>)
    ensures r.Success? ==> r.value.name != "" && Full(r.value.gems)
    ensures r.Success? ==> v.VDict? && PlayerKeys <= v.fields.Keys
    ensures r.Success? ==>
      v.fields["id"] == VInt(r.value.id) && v.fields["score"] == VInt(r.value.score) &&
      r.value.name == (if v.fields["name"].VStr? && v.fields["name"].s != "" then v.fields["name"].s else DefaultName(r.value.id))
    ensures r.Success? ==> v.fields["gems"].VDict? && forall c: Color ::
      Name(c) in v.fields["gems"].fields && v.fields["gems"].fields[Name(c)] == VInt(r.value.gems[c])
    ensures r.Success? ==>
      v.fields["cards"].VList? && CardsFromList(v.fields["cards"].items) == Success(r.value.cards) &&
      v.fields["reserved"].VList? && CardsFromList(v.fields["reserved"].items) == Success(r.value.reserved) &&
      v.fields["nobles"].VList? && NoblesFromList(v.fields["nobles"].items) == Success(r.value.nobles)
    ensures v.VDict? && "id" !in v.fields ==> r == Failure(MissingKey("id"))
  {
    var id :- IntField(v, "id");
    var nameValue :- Field(v, "name");
    var name :- NameOf(nameValue, id);
    var gemsValue :- Field(v, "gems");
    var gems :- DecodeCounts(gemsValue, "gems");
    if !Full(gems) then Failure(MissingColor("gems"))
    else
      var cardValues :- ListField(v, "cards");
      var cards :- CardsFromList(cardValues);
      var reservedValues :- ListField(v, "reserved");
      var reserved :- CardsFromList(reservedValues);
      var nobleValues :- ListField(v, "nobles");
      var nobles :- NoblesFromList(nobleValues);
      var score :- IntField(v, "score");
      Success(PlayerRecord(id, name, gems, cards, reserved, nobles, score))
  }

  /** Reading back what `to_dict` wrote reproduces every field of a player. */
  lemma PlayerRoundTrip(p: PlayerRecord)
    requires p.name != "" && Full(p.gems)
    ensures DecodePlayer(EncodePlayer(p)) == Success(p)
  {
    var v := EncodePlayer(p);
    assert IntField(v, "id") == Success(p.id);
    assert NameOf(v.fields["name"], p.id) == Success(p.name);
    CountsRoundTrip(p.gems, "gems");
    assert ListField(v, "cards") == Success(CardsToList(p.cards));
    CardsRoundTrip(p.cards);
    assert ListField(v, "reserved") == Success(CardsToList(p.reserved));
    CardsRoundTrip(p.reserved);
    assert ListField(v, "nobles") == Success(NoblesToList(p.nobles));
    NoblesRoundTrip(p.nobles);
    assert IntField(v, "score") == Success(p.score);
  }

  // ---------------------------------------------------------------------------
  // The player object

  class Player {
    var id: int
    var name: string
    var gems: map<Color, int>
    var cards: seq<Card>
    var reserved: seq<Card>
    var nobles: seq<Noble>
    var score: int

    /** Every player has a name and holds an entry for every colour. */
    ghost predicate Valid()
      reads this
    {
      name != "" && Full(gems)
    }

    function Record(): PlayerRecord
      reads this
    {
      PlayerRecord(id, name, gems, cards, reserved, nobles, score)
    }

    /** `Player(player_id, name)`; an empty `name` stands for Python's `None`. */
    constructor (id: int, name: string)
      ensures Valid()
      ensures this.id == id && this.name == (if name != "" then name else DefaultName(id))
      ensures gems == ZeroGems() && cards == [] && reserved == [] && nobles == [] && score == 0
    {
      this.id := id;
      this.name := if name != "" then name else DefaultName(id);
      gems := ZeroGems();
      cards := [];
      reserved := [];
      nobles := [];
      score := 0;
    }

    /** `can_buy`: true exactly when the gold `pay_for_card` would spend is gold the player holds. */
    predicate CanBuy(card: Card)
      reads this
      requires Full(gems)
      ensures CanBuy(card) <==> Payment(card.cost, Bonuses(cards), gems)[Gold] <= gems[Gold]
    {
      CanBuyIffGoldCovers(card.cost, Bonuses(cards), gems);
      CanAfford(card.cost, Bonuses(cards), gems)
    }

    /**
      `pay_for_card`: spends tokens for `card` and returns what was spent.
      Only the gems change; the payment is whatever the rule gives, so gold
      can go negative when `can_buy` did not hold, as in the source.
    */
    method PayForCard(card: Card) returns (paid: map<Color, int>)
      requires Full(gems)
      modifies this`gems
      ensures paid == Payment(card.cost, Bonuses(cards), old(gems))
      ensures Full(gems) && forall c :: gems[c] + paid[c] == old(gems[c])
    {
      var bon := Bonuses(cards);
      ghost var before := gems;
      paid := ZeroGems();
      var i := 0;
      while i < |GemColors|
        invariant 0 <= i <= |GemColors|
        invariant PaidInvariant(card.cost, bon, before, i, paid, gems)
      {
        var color: GemColor := GemColors[i];
        ghost var paid0, gems0 := paid, gems;
        paid := PayColour(card.cost, bon, color, paid);
        PayColourStep(card.cost, bon, before, i, paid0, gems0,
          GemPay(card.cost, bon, gems0, color), GoldPay(card.cost, bon, gems0, color), paid, gems);
        i := i + 1;
      }
      PaidSoFarEnd(card.cost, bon, before, paid);
    }

    /**
      The body of the loop over `card.cost.items()` for one colour: pay what
      the own tokens cover, then take the rest from gold when it is positive.
    */
    method PayColour(cost: map<GemColor, int>, bon: map<Color, int>, color: GemColor, paid: map<Color, int>)
      returns (paid': map<Color, int>)
      requires Full(gems) && Full(paid)
      modifies this`gems
      ensures Full(gems) && Full(paid')
      ensures paid'[color] == paid[color] + GemPay(cost, bon, old(gems), color)
      ensures gems[color] == old(gems[color]) - GemPay(cost, bon, old(gems), color)
      ensures paid'[Gold] == paid[Gold] + GoldPay(cost, bon, old(gems), color)
      ensures gems[Gold] == old(gems[Gold]) - GoldPay(cost, bon, old(gems), color)
      ensures forall c :: c != color && c != Gold ==> paid'[c] == paid[c] && gems[c] == old(gems[c])
    {
      paid' := paid;
      if color in cost && cost[color] != 0 {
        var due := Max0(cost[color] - Get(bon, color));
        var toPay := Min(gems[color], due);
        gems := gems[color := gems[color] - toPay];
        paid' := paid'[color := paid'[color] + toPay];
        var goldNeeded := due - toPay;
        if goldNeeded > 0 {
          gems := gems[Gold := gems[Gold] - goldNeeded];
          paid' := paid'[Gold := paid'[Gold] + goldNeeded];
        }
      }
    }

    function ToDict(): (v: Value)
      reads this
      ensures v.VDict? && v.fields.Keys == PlayerKeys
    {
      EncodePlayer(Record())
    }

    /** `Player.from_dict`: a fresh player holding what the dictionary describes. */
    static method FromDict(v: Value) returns (r: Result<Player, DecodeError>)
      ensures r.Success? <==> DecodePlayer(v).Success?
      ensures r.Success? ==> fresh(r.value) && r.value.Valid() && r.value.Record() == DecodePlayer(v).value
    {
      var d := DecodePlayer(v);
      if d.Failure? {
        return Failure(d.error);
      }
      var p := new Player(d.value.id, d.value.name);
      p.gems := d.value.gems;
      p.cards := d.value.cards;
      p.reserved := d.value.reserved;
      p.nobles := d.value.nobles;
      p.score := d.value.score;
      return Success(p);
    }
  }
}
