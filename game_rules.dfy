/**
  What one turn of `GameState.step` (splender/game.py) does to the table, as
  functions on values.

  A `Table` holds the fields a turn reads and writes: the bank, the decks and
  the face-up cards per tier, the noble pool, and the record of the player
  whose turn it is. Each step of the turn pipeline is a function here; the
  `GameState` class in game.dfy performs the same steps in place and is
  proved to agree with these functions, and the lemmas at the end state the
  bookkeeping laws they keep.

  Python raises on a bad tier (KeyError), on a card id that is not found
  (StopIteration from `next`), on an empty deck (IndexError from `pop`) and on
  a missing discard entry (ValueError); here these are `StepError` values.
*/
module GameRules {
  import opened Wrappers
  import opened Gems
  import opened Components
  import opened Players

  /** The `type` of an action dictionary, with the entries that type reads. */
  datatype Move =
    | TakeDiff(colors: seq<Color>)
    | TakeSame(color: Color)
    | ReservePublic(tier: int, cardId: string)
    | ReserveBlind(tier: int)
      /** `fromBoard` is `source == 'board'`; any other source reads the reserved cards. */
    | Purchase(tier: int, cardId: string, fromBoard: bool)
    | Pass
      /** A type none of the branches of `_execute_main_action` names: nothing happens. */
    | Unlisted

  /** An action dictionary: its move and its optional `discard` entry. */
  datatype Action = Action(move: Move, discard: Option<map<Color, int>>)

  datatype StepError =
    | UnknownTier(tier: int)
    | CardNotFound(cardId: string)
    | EmptyDeck(tier: int)
    | MissingDiscard

  /** How `step` (or one of its stages) ended: normally, or by raising. */
  datatype Status = Done | Raised(error: StepError)

  datatype Table = Table(
    bank: map<Color, int>,
    decks: map<int, seq<Card>>,
    board: map<int, seq<Card>>,
    nobles: seq<Noble>,
    player: PlayerRecord)

  const Tiers: set<int> := {1, 2, 3}

  /** What every table the engine builds satisfies: all token counts present, decks and board over the same tiers. */
  predicate TableOk(t: Table) {
    Full(t.bank) && Full(t.player.gems) && t.decks.Keys == t.board.Keys
  }

  /** `{2: 4, 3: 5, 4: 7}[num_players]`: the starting count of each non-gold colour. */
  function InitialGemCount(numPlayers: int): int
    requires 2 <= numPlayers <= 4
  {
    if numPlayers == 2 then 4 else if numPlayers == 3 then 5 else 7
  }

  /** The starting bank. */
  function InitialBank(numPlayers: int): (bank: map<Color, int>)
    requires 2 <= numPlayers <= 4
    ensures Full(bank)
  {
    map c: Color | c in ColorSet :: if c == Gold then 5 else InitialGemCount(numPlayers)
  }

  // ---------------------------------------------------------------------------
  // The stages of a turn

  /** `bank[c] -= k; player.gems[c] += k`. */
  function Transfer(t: Table, c: Color, k: int): (r: Table)
    requires TableOk(t)
    ensures TableOk(r)
    ensures r.decks == t.decks && r.board == t.board && r.nobles == t.nobles
    ensures r.player == t.player.(gems := r.player.gems)
  {
    t.(bank := t.bank[c := t.bank[c] - k], player := t.player.(gems := t.player.gems[c := t.player.gems[c] + k]))
  }

  /** The `take_diff` loop over `colors`: one token of each listed colour, in list order. */
  function TakeEach(t: Table, colors: seq<Color>): (r: Table)
    requires TableOk(t)
    ensures TableOk(r)
    ensures r.decks == t.decks && r.board == t.board && r.nobles == t.nobles
    ensures r.player == t.player.(gems := r.player.gems)
    ensures forall c :: r.bank[c] == t.bank[c] - Count(colors, c) && r.player.gems[c] == t.player.gems[c] + Count(colors, c)
  {
    if colors == [] then t
    else Transfer(TakeEach(t, colors[..|colors| - 1]), colors[|colors| - 1], 1)
  }

  /** Token counts once one token of each colour in `taken` has moved from the bank to the player. */
  predicate TakenSoFar(t: Table, taken: seq<Color>, bank: map<Color, int>, gems: map<Color, int>)
    requires TableOk(t)
  {
    Full(bank) && Full(gems) &&
    forall c :: bank[c] == t.bank[c] - Count(taken, c) && gems[c] == t.player.gems[c] + Count(taken, c)
  }

  /** One turn of the `take_diff` loop. */
  lemma TakeOneMore(t: Table, taken: seq<Color>, x: Color, bank: map<Color, int>, gems: map<Color, int>)
    requires TableOk(t) && TakenSoFar(t, taken, bank, gems)
    ensures TakenSoFar(t, taken + [x], bank[x := bank[x] - 1], gems[x := gems[x] + 1])
  {
    assert (taken + [x])[..|taken|] == taken;
  }

  /** A table whose token counts are those of `TakeEach` is the table `TakeEach` gives. */
  lemma TakeEachByCounts(t: Table, colors: seq<Color>, bank: map<Color, int>, gems: map<Color, int>)
    requires TableOk(t) && TakenSoFar(t, colors, bank, gems)
    ensures t.(bank := bank, player := t.player.(gems := gems)) == TakeEach(t, colors)
  {
    var r := TakeEach(t, colors);
    var counts := map c: Color | c in ColorSet :: Count(colors, c);
    OffsetMapsEqual(bank, r.bank, t.bank, counts, -1);
    OffsetMapsEqual(gems, r.player.gems, t.player.gems, counts, 1);
  }

  /** `_replenish_board`: the last card of the deck, if any, joins the end of the face-up row. */
  function Replenish(decks: map<int, seq<Card>>, board: map<int, seq<Card>>, tier: int)
    : (r: (map<int, seq<Card>>, map<int, seq<Card>>))
    requires tier in decks && tier in board
    ensures r.0.Keys == decks.Keys && r.1.Keys == board.Keys
    ensures forall u :: u in decks && u != tier ==> r.0[u] == decks[u]
    ensures forall u :: u in board && u != tier ==> r.1[u] == board[u]
    ensures multiset(r.0[tier]) + multiset(r.1[tier]) == multiset(decks[tier]) + multiset(board[tier])
    ensures |r.1[tier]| == |board[tier]| + (if decks[tier] == [] then 0 else 1)
  {
    var deck := decks[tier];
    if deck == [] then (decks, board)
    else
      assert deck == deck[..|deck| - 1] + [deck[|deck| - 1]];
      (decks[tier := deck[..|deck| - 1]], board[tier := board[tier] + [deck[|deck| - 1]]])
  }

  function ReplenishTable(t: Table, tier: int): (r: Table)
    requires tier in t.decks && tier in t.board
    ensures r.bank == t.bank && r.nobles == t.nobles && r.player == t.player
  {
    var piles := Replenish(t.decks, t.board, tier);
    t.(decks := piles.0, board := piles.1)
  }

  /** `_take_gold_if_available`. */
  function TakeGold(t: Table): (r: Table)
    requires TableOk(t)
    ensures TableOk(r)
    ensures r.decks == t.decks && r.board == t.board && r.nobles == t.nobles
    ensures r.player == t.player.(gems := r.player.gems)
  {
    if t.bank[Gold] > 0 then Transfer(t, Gold, 1) else t
  }

  /** `reserve_public`: the card with that id leaves the row for the reserved cards, the row is refilled, gold is taken. */
  function ReserveFromBoard(t: Table, tier: int, id: string): (r: Result<Table, StepError>)
    requires TableOk(t)
    ensures r.Success? ==> TableOk(r.value)
  {
    if tier !in t.board then Failure(UnknownTier(tier))
    else match FindById(t.board[tier], id)
      case None => Failure(CardNotFound(id))
      case Some(k) =>
        var card := t.board[tier][k];
        var t1 := t.(board := t.board[tier := RemoveFirst(t.board[tier], card)],
                     player := t.player.(reserved := t.player.reserved + [card]));
        Success(TakeGold(ReplenishTable(t1, tier)))
  }

  /** `reserve_blind`: the last card of the deck goes to the reserved cards, gold is taken. */
  function ReserveFromDeck(t: Table, tier: int): (r: Result<Table, StepError>)
    requires TableOk(t)
    ensures r.Success? ==> TableOk(r.value)
  {
    if tier !in t.decks then Failure(UnknownTier(tier))
    else if t.decks[tier] == [] then Failure(EmptyDeck(tier))
    else
      var deck := t.decks[tier];
      Success(TakeGold(t.(decks := t.decks[tier := deck[..|deck| - 1]],
                          player := t.player.(reserved := t.player.reserved + [deck[|deck| - 1]]))))
  }

  /** `pay_for_card` followed by the loop that hands every paid token to the bank. */
  function PayAndReturn(t: Table, card: Card): (r: Table)
    requires TableOk(t)
    ensures TableOk(r)
  {
    var paid := Payment(card.cost, Bonuses(t.player.cards), t.player.gems);
    t.(bank := map c: Color | c in ColorSet :: t.bank[c] + paid[c],
       player := t.player.(gems := map c: Color | c in ColorSet :: t.player.gems[c] - paid[c]))
  }

  /** A table whose token counts are those of `PayAndReturn` is the table `PayAndReturn` gives. */
  lemma PayAndReturnByCounts(t: Table, card: Card, paid: map<Color, int>, bank: map<Color, int>, gems: map<Color, int>)
    requires TableOk(t) && paid == Payment(card.cost, Bonuses(t.player.cards), t.player.gems)
    requires Full(bank) && Full(gems)
    requires forall c :: bank[c] == t.bank[c] + paid[c] && gems[c] + paid[c] == t.player.gems[c]
    ensures t.(bank := bank, player := t.player.(gems := gems)) == PayAndReturn(t, card)
  {
    var r := PayAndReturn(t, card);
    OffsetMapsEqual(bank, r.bank, t.bank, paid, 1);
    OffsetMapsEqual(gems, r.player.gems, t.player.gems, paid, -1);
  }

  /** `purchase`: find the card on the board (removing it and refilling) or among the reserved cards, then pay. */
  function Buy(t: Table, tier: int, id: string, fromBoard: bool): (r: Result<Table, StepError>)
    requires TableOk(t)
    ensures r.Success? ==> TableOk(r.value)
  {
    if fromBoard then
      if tier !in t.board then Failure(UnknownTier(tier))
      else match FindById(t.board[tier], id)
        case None => Failure(CardNotFound(id))
        case Some(k) =>
          var card := t.board[tier][k];
          var t1 := t.(board := t.board[tier := RemoveFirst(t.board[tier], card)]);
          Success(PayAndReturn(ReplenishTable(t1, tier), card))
    else match FindById(t.player.reserved, id)
      case None => Failure(CardNotFound(id))
      case Some(k) => Success(PayAndReturn(t, t.player.reserved[k]))
  }

  /** `Buy` once the card has been found, stated on the table it is paid from. */
  lemma BuyFound(t: Table, tier: int, id: string, fromBoard: bool, card: Card, t2: Table)
    requires TableOk(t)
    requires fromBoard ==>
      && tier in t.board && FindById(t.board[tier], id).Some?
      && card == t.board[tier][FindById(t.board[tier], id).value]
      && t2 == ReplenishTable(t.(board := t.board[tier := RemoveFirst(t.board[tier], card)]), tier)
    requires !fromBoard ==>
      && FindById(t.player.reserved, id).Some?
      && card == t.player.reserved[FindById(t.player.reserved, id).value] && t2 == t
    ensures TableOk(t2) && Buy(t, tier, id, fromBoard) == Success(PayAndReturn(t2, card))
  {
  }

  /** `_execute_main_action`. A failure leaves the table as it was: every branch raises before it changes anything. */
  function MainAction(t: Table, m: Move): (r: Result<Table, StepError>)
    requires TableOk(t)
    ensures r.Success? ==> TableOk(r.value) && r.value.decks.Keys == t.decks.Keys
  {
    match m
    case TakeDiff(colors) => Success(TakeEach(t, colors))
    case TakeSame(c) => Success(Transfer(t, c, 2))
    case ReservePublic(tier, id) => ReserveFromBoard(t, tier, id)
    case ReserveBlind(tier) => ReserveFromDeck(t, tier)
    case Purchase(tier, id, fromBoard) => Buy(t, tier, id, fromBoard)
    case Pass => Success(t)
    case Unlisted => Success(t)
  }

  /** A stage as `step` sees it: the new table, or the raised error with the table as it was. */
  function Outcome(r: Result<Table, StepError>, t: Table): (Status, Table) {
    if r.Success? then (Done, r.value) else (Raised(r.error), t)
  }

  /** `_execute_discard`: every discarded amount goes from the player back to the bank. */
  function Discard(t: Table, d: map<Color, int>): (r: Table)
    requires TableOk(t)
    ensures TableOk(r)
  {
    t.(bank := map c: Color | c in ColorSet :: t.bank[c] + Get(d, c),
       player := t.player.(gems := map c: Color | c in ColorSet :: t.player.gems[c] - Get(d, c)))
  }

  /** Token counts once the entries of `d` outside `rest` have been handed back. */
  predicate DiscardedSoFar(t: Table, d: map<Color, int>, rest: set<Color>, bank: map<Color, int>, gems: map<Color, int>)
    requires TableOk(t)
  {
    Full(bank) && Full(gems) &&
    forall c :: bank[c] == t.bank[c] + (if c in rest then 0 else Get(d, c)) && gems[c] == t.player.gems[c] - (if c in rest then 0 else Get(d, c))
  }

  /** One turn of the `_execute_discard` loop. */
  lemma DiscardOneMore(t: Table, d: map<Color, int>, rest: set<Color>, bank: map<Color, int>, gems: map<Color, int>, c: Color)
    requires TableOk(t) && c in rest && rest <= d.Keys && DiscardedSoFar(t, d, rest, bank, gems)
    ensures DiscardedSoFar(t, d, rest - {c}, bank[c := bank[c] + d[c]], gems[c := gems[c] - d[c]])
  {
  }

  /** A table whose token counts are those of `Discard` is the table `Discard` gives. */
  lemma DiscardByCounts(t: Table, d: map<Color, int>, bank: map<Color, int>, gems: map<Color, int>)
    requires TableOk(t) && DiscardedSoFar(t, d, {}, bank, gems)
    ensures t.(bank := bank, player := t.player.(gems := gems)) == Discard(t, d)
  {
    var r := Discard(t, d);
    var returned := map c: Color | c in ColorSet :: Get(d, c);
    OffsetMapsEqual(bank, r.bank, t.bank, returned, 1);
    OffsetMapsEqual(gems, r.player.gems, t.player.gems, returned, -1);
  }

  /** The test in `_get_eligible_nobles`: every requirement is met by the bonus of that colour (0 if none). */
  predicate Eligible(n: Noble, bon: map<Color, int>)
    ensures n.requirements == map[] ==> Eligible(n, bon)
    ensures Eligible(n, bon) ==> forall c :: c in n.requirements && c !in bon ==> n.requirements[c] <= 0
  {
    forall c :: c in n.requirements ==> Get(bon, c) >= n.requirements[c]
  }

  /** `_get_eligible_nobles`: the eligible nobles in pool order. */
  function EligibleNobles(ns: seq<Noble>, bon: map<Color, int>): (r: seq<Noble>)
    ensures forall x :: x in r <==> x in ns && Eligible(x, bon)
    ensures |r| <= |ns|
  {
    if ns == [] then []
    else
      var last := ns[|ns| - 1];
      assert ns == ns[..|ns| - 1] + [last];
      EligibleNobles(ns[..|ns| - 1], bon) + (if Eligible(last, bon) then [last] else [])
  }

  /** The position in the pool of the first eligible noble, if there is one. */
  function FirstEligible(ns: seq<Noble>, bon: map<Color, int>): (r: Option<nat>)
    ensures r.Some? ==> r.value < |ns| && Eligible(ns[r.value], bon)
    ensures r.Some? ==> forall j :: 0 <= j < r.value ==> !Eligible(ns[j], bon)
    ensures r.None? ==> forall j :: 0 <= j < |ns| ==> !Eligible(ns[j], bon)
  {
    if ns == [] then None
    else match FirstEligible(ns[..|ns| - 1], bon)
      case Some(k) => Some(k)
      case None => if Eligible(ns[|ns| - 1], bon) then Some(|ns| - 1) else None
  }

  /** The noble visit of `step`: the first eligible noble, if any, joins the player and leaves the pool. */
  function AwardNoble(t: Table): (r: Table)
    requires TableOk(t)
    ensures TableOk(r)
    ensures r.bank == t.bank && r.player.gems == t.player.gems
  {
    var eligible := EligibleNobles(t.nobles, Bonuses(t.player.cards));
    if eligible == [] then t
    else
      var chosen := eligible[0];
      t.(nobles := RemoveFirst(t.nobles, chosen),
         player := t.player.(nobles := t.player.nobles + [chosen], score := t.player.score + chosen.points))
  }

  /** `step` on the table, up to the turn advance: main action, the ten-token check, the noble visit. */
  function StepSpec(t: Table, a: Action): (r: (Status, Table))
    requires TableOk(t)
    ensures TableOk(r.1) && r.1.decks.Keys == t.decks.Keys
  {
    match MainAction(t, a.move)
    case Failure(e) => (Raised(e), t)
    case Success(t1) =>
      if Total(t1.player.gems) > 10 && a.discard.None? then (Raised(MissingDiscard), t1)
      else
        var t2 := if Total(t1.player.gems) > 10 then Discard(t1, a.discard.value) else t1;
        (Done, AwardNoble(t2))
  }

  /** `(current_player_idx + 1) % num_players`. */
  function NextPlayer(idx: int, numPlayers: int): (r: int)
    requires numPlayers > 0
    ensures 0 <= r < numPlayers
    ensures 0 <= idx < numPlayers - 1 ==> r == idx + 1
    ensures idx == numPlayers - 1 ==> r == 0
  {
    (idx + 1) % numPlayers
  }

  // ---------------------------------------------------------------------------
  // Laws of a turn

  /** Tokens only move between the bank and the player: per colour their sum is unchanged. */
  predicate Conserves(t: Table, r: Table)
    requires TableOk(t) && TableOk(r)
  {
    forall c :: r.bank[c] + r.player.gems[c] == t.bank[c] + t.player.gems[c]
  }

  lemma TakeGoldConserves(t: Table)
    requires TableOk(t)
    ensures Conserves(t, TakeGold(t))
  {
  }

  lemma PayAndReturnConserves(t: Table, card: Card)
    requires TableOk(t)
    ensures Conserves(t, PayAndReturn(t, card))
  {
  }

  /** A table that holds the same tokens as `t` conserves what `t` conserves. */
  lemma SameTokens(t: Table, t': Table, r: Table)
    requires TableOk(t) && TableOk(t') && TableOk(r)
    requires t'.bank == t.bank && t'.player.gems == t.player.gems && Conserves(t', r)
    ensures Conserves(t, r)
  {
  }

  lemma ReserveFromBoardConserves(t: Table, tier: int, id: string)
    requires TableOk(t) && ReserveFromBoard(t, tier, id).Success?
    ensures Conserves(t, ReserveFromBoard(t, tier, id).value)
  {
    var row := t.board[tier];
    var card := row[FindById(row, id).value];
    var t1 := t.(board := t.board[tier := RemoveFirst(row, card)],
                 player := t.player.(reserved := t.player.reserved + [card]));
    var t2 := ReplenishTable(t1, tier);
    TakeGoldConserves(t2);
    SameTokens(t, t2, TakeGold(t2));
  }

  lemma ReserveFromDeckConserves(t: Table, tier: int)
    requires TableOk(t) && ReserveFromDeck(t, tier).Success?
    ensures Conserves(t, ReserveFromDeck(t, tier).value)
  {
    var deck := t.decks[tier];
    var t1 := t.(decks := t.decks[tier := deck[..|deck| - 1]],
                 player := t.player.(reserved := t.player.reserved + [deck[|deck| - 1]]));
    TakeGoldConserves(t1);
    SameTokens(t, t1, TakeGold(t1));
  }

  lemma BuyConserves(t: Table, tier: int, id: string, fromBoard: bool)
    requires TableOk(t) && Buy(t, tier, id, fromBoard).Success?
    ensures Conserves(t, Buy(t, tier, id, fromBoard).value)
  {
    if fromBoard {
      var row := t.board[tier];
      var card := row[FindById(row, id).value];
      var t2 := ReplenishTable(t.(board := t.board[tier := RemoveFirst(row, card)]), tier);
      PayAndReturnConserves(t2, card);
      SameTokens(t, t2, PayAndReturn(t2, card));
    } else {
      PayAndReturnConserves(t, t.player.reserved[FindById(t.player.reserved, id).value]);
    }
  }

  lemma MainActionConserves(t: Table, m: Move)
    requires TableOk(t) && MainAction(t, m).Success?
    ensures Conserves(t, MainAction(t, m).value)
  {
    match m
    case TakeDiff(colors) =>
    case TakeSame(c) =>
    case ReservePublic(tier, id) => ReserveFromBoardConserves(t, tier, id);
    case ReserveBlind(tier) => ReserveFromDeckConserves(t, tier);
    case Purchase(tier, id, fromBoard) => BuyConserves(t, tier, id, fromBoard);
    case Pass =>
    case Unlisted =>
  }

  /** Whatever `step` does, and wherever it stops, no token is created or lost. */
  lemma StepConserves(t: Table, a: Action)
    requires TableOk(t)
    ensures Conserves(t, StepSpec(t, a).1)
  {
    var main := MainAction(t, a.move);
    if main.Success? {
      var t1 := main.value;
      MainActionConserves(t, a.move);
      if Total(t1.player.gems) > 10 && a.discard.Some? {
        DiscardReturns(t1, a.discard.value);
        var t2 := Discard(t1, a.discard.value);
        assert Conserves(t, t2);
        assert StepSpec(t, a).1 == AwardNoble(t2);
      }
    }
  }

  /** `take_diff` with distinct colours: one token of each listed colour, none of any other. */
  lemma TakeDiffDistinct(t: Table, colors: seq<Color>)
    requires TableOk(t)
    requires forall i, j :: 0 <= i < j < |colors| ==> colors[i] != colors[j]
    ensures var r := TakeEach(t, colors);
      forall c :: && r.bank[c] == t.bank[c] - (if c in colors then 1 else 0)
                  && r.player.gems[c] == t.player.gems[c] + (if c in colors then 1 else 0)
  {
    forall c: Color {
      CountDistinct(colors, c);
    }
  }

  /** `take_same`: two tokens of that colour and nothing else. */
  lemma TakeSameMovesTwo(t: Table, c: Color)
    requires TableOk(t)
    ensures var r := MainAction(t, TakeSame(c)).value;
      && r.bank[c] == t.bank[c] - 2 && r.player.gems[c] == t.player.gems[c] + 2
      && (forall x :: x != c ==> r.bank[x] == t.bank[x] && r.player.gems[x] == t.player.gems[x])
      && r.decks == t.decks && r.board == t.board && r.nobles == t.nobles
  {
  }

  /** Both reservations grant one gold exactly when the bank has gold, and move no other token. */
  lemma ReserveGrantsGold(t: Table, m: Move)
    requires TableOk(t) && (m.ReservePublic? || m.ReserveBlind?)
    requires MainAction(t, m).Success?
    ensures var r := MainAction(t, m).value;
      var g := if t.bank[Gold] > 0 then 1 else 0;
      && r.player.gems[Gold] == t.player.gems[Gold] + g && r.bank[Gold] == t.bank[Gold] - g
      && (forall c :: c != Gold ==> r.bank[c] == t.bank[c] && r.player.gems[c] == t.player.gems[c])
  {
    var t1;
    if m.ReservePublic? {
      var row := t.board[m.tier];
      var card := row[FindById(row, m.cardId).value];
      t1 := ReplenishTable(t.(board := t.board[m.tier := RemoveFirst(row, card)],
                              player := t.player.(reserved := t.player.reserved + [card])), m.tier);
    } else {
      var deck := t.decks[m.tier];
      t1 := t.(decks := t.decks[m.tier := deck[..|deck| - 1]],
               player := t.player.(reserved := t.player.reserved + [deck[|deck| - 1]]));
    }
    assert t1.bank == t.bank && t1.player.gems == t.player.gems;
    assert MainAction(t, m).value == TakeGold(t1);
  }

  /**
    Taking the card at the first position `k` holding it out of a face-up row
    and refilling the row: the row loses that card and gains the deck's last
    card when there is one; deck and row together lose just that card, and
    other tiers are untouched.
  */
  lemma TakeFromRow(decks: map<int, seq<Card>>, board: map<int, seq<Card>>, tier: int, k: nat)
    requires tier in decks && tier in board && k < |board[tier]|
    requires forall j :: 0 <= j < k ==> board[tier][j] != board[tier][k]
    ensures var row := board[tier];
      var piles := Replenish(decks, board[tier := RemoveFirst(row, row[k])], tier);
      && piles.1[tier] == RemoveAt(row, k) + (if decks[tier] == [] then [] else [decks[tier][|decks[tier]| - 1]])
      && multiset(piles.0[tier]) + multiset(piles.1[tier]) + multiset{row[k]} == multiset(decks[tier]) + multiset(row)
      && (forall u :: u in board && u != tier ==> piles.1[u] == board[u])
      && (forall u :: u in decks && u != tier ==> piles.0[u] == decks[u])
  {
    var row := board[tier];
    RemoveFirstAt(row, k);
    var board1 := board[tier := RemoveAt(row, k)];
    var piles := Replenish(decks, board1, tier);
    assert multiset(piles.0[tier]) + multiset(piles.1[tier]) == multiset(decks[tier]) + multiset(RemoveAt(row, k));
  }

  /**
    `reserve_public` moves the card with that id from the face-up row to the
    end of the reserved cards, refilling the row from the deck when it can;
    other tiers, the bought cards and the noble pool are untouched.
  */
  lemma ReservePublicMovesCard(t: Table, tier: int, id: string)
    requires TableOk(t) && ReserveFromBoard(t, tier, id).Success?
    ensures tier in t.board && FindById(t.board[tier], id).Some?
    ensures var r := ReserveFromBoard(t, tier, id).value;
      var k := FindById(t.board[tier], id).value;
      && r.player.reserved == t.player.reserved + [t.board[tier][k]]
      && r.board[tier] == RemoveAt(t.board[tier], k) + (if t.decks[tier] == [] then [] else [t.decks[tier][|t.decks[tier]| - 1]])
      && r.decks[tier] == (if t.decks[tier] == [] then [] else t.decks[tier][..|t.decks[tier]| - 1])
      && (forall u :: u in t.board && u != tier ==> r.board[u] == t.board[u] && r.decks[u] == t.decks[u])
      && r.player.cards == t.player.cards && r.nobles == t.nobles
  {
    var row := t.board[tier];
    var k := FindById(row, id).value;
    var card := row[k];
    TakeFromRow(t.decks, t.board, tier, k);
    var t1 := t.(board := t.board[tier := RemoveFirst(row, card)], player := t.player.(reserved := t.player.reserved + [card]));
    assert ReserveFromBoard(t, tier, id).value == TakeGold(ReplenishTable(t1, tier));
  }

  /** `reserve_public` keeps the cards of the tier: deck, row and reserved cards together hold the same cards. */
  lemma ReservePublicKeepsCards(t: Table, tier: int, id: string)
    requires TableOk(t) && ReserveFromBoard(t, tier, id).Success?
    ensures tier in t.board
    ensures var r := ReserveFromBoard(t, tier, id).value;
      multiset(r.decks[tier]) + multiset(r.board[tier]) + multiset(r.player.reserved)
      == multiset(t.decks[tier]) + multiset(t.board[tier]) + multiset(t.player.reserved)
  {
    ReservePublicMovesCard(t, tier, id);
    var row := t.board[tier];
    var k := FindById(row, id).value;
    TakeFromRow(t.decks, t.board, tier, k);
    var r := ReserveFromBoard(t, tier, id).value;
    assert multiset(r.player.reserved) == multiset(t.player.reserved) + multiset{row[k]};
  }

  /** `reserve_blind` fails exactly on an unknown tier or an empty deck; otherwise the deck's last card is reserved. */
  lemma ReserveBlindTakesLast(t: Table, tier: int)
    requires TableOk(t)
    ensures ReserveFromDeck(t, tier).Failure? <==> tier !in t.decks || t.decks[tier] == []
    ensures ReserveFromDeck(t, tier).Success? ==>
      var r := ReserveFromDeck(t, tier).value;
      var deck := t.decks[tier];
      && r.player.reserved == t.player.reserved + [deck[|deck| - 1]]
      && r.decks[tier] == deck[..|deck| - 1]
      && multiset(r.decks[tier]) + multiset(r.player.reserved) == multiset(deck) + multiset(t.player.reserved)
      && r.board == t.board && r.nobles == t.nobles && r.player.cards == t.player.cards
  {
    if tier in t.decks && t.decks[tier] != [] {
      var deck := t.decks[tier];
      assert deck == deck[..|deck| - 1] + [deck[|deck| - 1]];
    }
  }

  /**
    `purchase`, as written: the tokens `pay_for_card` takes go to the bank,
    and the card is neither added to the player's cards nor removed from the
    reserved cards; no points are scored.
  */
  lemma PurchasePays(t: Table, tier: int, id: string, fromBoard: bool)
    requires TableOk(t) && Buy(t, tier, id, fromBoard).Success?
    ensures var r := Buy(t, tier, id, fromBoard).value;
      var card := if fromBoard then t.board[tier][FindById(t.board[tier], id).value]
                  else t.player.reserved[FindById(t.player.reserved, id).value];
      var paid := Payment(card.cost, Bonuses(t.player.cards), t.player.gems);
      && (forall c :: r.player.gems[c] == t.player.gems[c] - paid[c] && r.bank[c] == t.bank[c] + paid[c])
      && r.player.cards == t.player.cards && r.player.reserved == t.player.reserved
      && r.player.score == t.player.score && r.player.nobles == t.player.nobles && r.nobles == t.nobles
  {
  }

  /** A purchase from the board shrinks that row by the card and refills it from the deck when it can. */
  lemma PurchaseFromBoardRefills(t: Table, tier: int, id: string)
    requires TableOk(t) && Buy(t, tier, id, true).Success?
    ensures tier in t.board && FindById(t.board[tier], id).Some?
    ensures var r := Buy(t, tier, id, true).value;
      var card := t.board[tier][FindById(t.board[tier], id).value];
      && |r.board[tier]| == |t.board[tier]| - 1 + (if t.decks[tier] == [] then 0 else 1)
      && multiset(r.decks[tier]) + multiset(r.board[tier]) + multiset{card}
         == multiset(t.decks[tier]) + multiset(t.board[tier])
      && (forall u :: u in t.board && u != tier ==> r.board[u] == t.board[u] && r.decks[u] == t.decks[u])
  {
    var row := t.board[tier];
    var k := FindById(row, id).value;
    TakeFromRow(t.decks, t.board, tier, k);
    var t2 := ReplenishTable(t.(board := t.board[tier := RemoveFirst(row, row[k])]), tier);
    var r := Buy(t, tier, id, true).value;
    assert r.decks == t2.decks && r.board == t2.board;
  }

  /** A purchase of a reserved card leaves decks and board alone. */
  lemma PurchaseFromReservedKeepsTable(t: Table, tier: int, id: string)
    requires TableOk(t) && Buy(t, tier, id, false).Success?
    ensures var r := Buy(t, tier, id, false).value;
      r.decks == t.decks && r.board == t.board
  {
  }

  /** `step` raises for the missing discard exactly when the main action left more than ten tokens and no discard was given. */
  lemma StepNeedsDiscard(t: Table, a: Action)
    requires TableOk(t)
    ensures StepSpec(t, a).0 == Raised(MissingDiscard) <==>
      && MainAction(t, a.move).Success?
      && Total(MainAction(t, a.move).value.player.gems) > 10
      && a.discard.None?
  {
  }

  /** A discard moves each listed amount from the player to the bank. */
  lemma DiscardReturns(t: Table, d: map<Color, int>)
    requires TableOk(t)
    ensures var r := Discard(t, d);
      && Conserves(t, r)
      && (forall c :: r.player.gems[c] == t.player.gems[c] - Get(d, c))
      && r.decks == t.decks && r.board == t.board && r.nobles == t.nobles
  {
  }

  /** The list `_get_eligible_nobles` builds starts with the first eligible noble of the pool. */
  lemma {:induction false} EligibleStartsAtFirst(ns: seq<Noble>, bon: map<Color, int>)
    ensures EligibleNobles(ns, bon) != [] <==> FirstEligible(ns, bon).Some?
    ensures EligibleNobles(ns, bon) != [] ==> EligibleNobles(ns, bon)[0] == ns[FirstEligible(ns, bon).value]
  {
    if ns != [] {
      EligibleStartsAtFirst(ns[..|ns| - 1], bon);
    }
  }

  /**
    At most one noble visits per step: the first eligible one in pool order.
    It leaves the pool at its own position and its points go to the score;
    with no eligible noble nothing changes.
  */
  lemma NobleVisit(t: Table)
    requires TableOk(t)
    ensures var r := AwardNoble(t);
      match FirstEligible(t.nobles, Bonuses(t.player.cards))
      case None => r == t
      case Some(k) =>
        && r.nobles == RemoveAt(t.nobles, k)
        && r.player.nobles == t.player.nobles + [t.nobles[k]]
        && r.player.score == t.player.score + t.nobles[k].points
        && r.bank == t.bank && r.player.gems == t.player.gems
        && r.player.cards == t.player.cards && r.player.reserved == t.player.reserved
  {
    var bon := Bonuses(t.player.cards);
    EligibleStartsAtFirst(t.nobles, bon);
    match FirstEligible(t.nobles, bon)
    case None =>
    case Some(k) =>
      forall j | 0 <= j < k ensures t.nobles[j] != t.nobles[k] {
        assert !Eligible(t.nobles[j], bon);
      }
      RemoveFirstAt(t.nobles, k);
  }
}
