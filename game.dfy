/**
  The game state object of splender/game.py: the bank, the players, whose
  turn it is, the decks and face-up cards per tier and the noble pool, all
  updated in place by `step` and its helpers.

  Each method is proved against the function of game_rules.dfy for the same
  stage: `TableOf(p)` reads the fields a turn touches, with player `p`, and
  every method's postcondition says that its new table is the function
  applied to the old one.
*/
module Game {
  import opened Wrappers
  import opened Gems
  import opened Values
  import opened Components
  import opened Players
  import opened GameRules

  const StateKeys: set<string> :=
    {"num_players", "bank", "current_player_idx", "decks", "board", "nobles", "players"}

  /** `[p.to_dict() for p in players]`. */
  function PlayersToList(ps: seq<Player>): (vs: seq<Value>)
    reads ps
    ensures |vs| == |ps| && forall i :: 0 <= i < |ps| ==> vs[i] == ps[i].ToDict()
  {
    if ps == [] then [] else [ps[0].ToDict()] + PlayersToList(ps[1..])
  }

  /** `{t: [c.to_dict() for c in piles[t]] for t in [1, 2, 3]}`. */
  function PilesToDict(piles: map<int, seq<Card>>): (v: Value)
    requires Tiers <= piles.Keys
    ensures v.VTierDict? && v.tiers.Keys == Tiers
    ensures forall t :: t in Tiers ==> v.tiers[t] == VList(CardsToList(piles[t]))
  {
    VTierDict(map t | t in Tiers :: VList(CardsToList(piles[t])))
  }

  /** The dictionary `export_state` builds, from its already encoded parts. */
  function StateDict(numPlayers: int, bank: Value, idx: int, decks: Value, board: Value, nobles: seq<Value>, players: seq<Value>)
    : (f: map<string, Value>)
    ensures f.Keys == StateKeys
    ensures f["bank"] == bank && f["decks"] == decks && f["board"] == board
    ensures f["nobles"] == VList(nobles) && f["players"] == VList(players)
    ensures f["num_players"] == VInt(numPlayers) && f["current_player_idx"] == VInt(idx)
  {
    map[
      "num_players" := VInt(numPlayers),
      "current_player_idx" := VInt(idx),
      "bank" := bank,
      "decks" := decks,
      "board" := board,
      "nobles" := VList(nobles),
      "players" := VList(players)]
  }

  class GameState {
    var numPlayers: int
    var bank: map<Color, int>
    var players: seq<Player>
    var currentPlayerIdx: int
    var decks: map<int, seq<Card>>
    var board: map<int, seq<Card>>
    var nobles: seq<Noble>

    /**
      Two to four distinct players, a valid turn index, every token count
      present, decks and face-up rows for tiers 1 to 3.
    */
    ghost predicate Valid()
      reads this, players
    {
      && 2 <= numPlayers <= 4 && |players| == numPlayers
      && 0 <= currentPlayerIdx < numPlayers
      && (forall i, j :: 0 <= i < j < |players| ==> players[i] != players[j])
      && (forall i :: 0 <= i < |players| ==> players[i].Valid())
      && Full(bank) && decks.Keys == Tiers && board.Keys == Tiers
    }

    /** The fields one turn of player `p` reads and writes. */
    function TableOf(p: Player): Table
      reads this, p
    {
      Table(bank, decks, board, nobles, p.Record())
    }

    /** `GameState(num_players=2)`: the starting bank, fresh players 0..n-1, empty decks, rows and pool. */
    constructor (numPlayers: int := 2)
      requires 2 <= numPlayers <= 4
      ensures Valid()
      ensures this.numPlayers == numPlayers && currentPlayerIdx == 0
      ensures bank[Gold] == 5 && forall c :: c != Gold ==> bank[c] == InitialGemCount(numPlayers)
      ensures forall i :: 0 <= i < |players| ==>
        fresh(players[i]) && players[i].Record() == PlayerRecord(i, DefaultName(i), ZeroGems(), [], [], [], 0)
      ensures decks == map[1 := [], 2 := [], 3 := []] && board == map[1 := [], 2 := [], 3 := []] && nobles == []
    {
      var ps: seq<Player> := [];
      var i := 0;
      while i < numPlayers
        invariant 0 <= i <= numPlayers && |ps| == i
        invariant forall j :: 0 <= j < i ==>
          fresh(ps[j]) && ps[j].Valid() && ps[j].Record() == PlayerRecord(j, DefaultName(j), ZeroGems(), [], [], [], 0)
        invariant forall j, k :: 0 <= j < k < i ==> ps[j] != ps[k]
      {
        var p := new Player(i, "");
        ps := ps + [p];
        i := i + 1;
      }
      this.numPlayers := numPlayers;
      bank := InitialBank(numPlayers);
      players := ps;
      currentPlayerIdx := 0;
      decks := map[1 := [], 2 := [], 3 := []];
      board := map[1 := [], 2 := [], 3 := []];
      nobles := [];
    }

    /** `_replenish_board(tier)`. */
    method ReplenishBoard(tier: int)
      requires tier in decks && tier in board
      modifies this`decks, this`board
      ensures (decks, board) == Replenish(old(decks), old(board), tier)
    {
      if decks[tier] != [] {
        var deck := decks[tier];
        var card := deck[|deck| - 1];
        decks := decks[tier := deck[..|deck| - 1]];
        board := board[tier := board[tier] + [card]];
      }
    }

    /** `_take_gold_if_available(player)`. */
    method TakeGoldIfAvailable(p: Player)
      requires TableOk(TableOf(p))
      modifies this`bank, p`gems
      ensures TableOf(p) == TakeGold(old(TableOf(p)))
    {
      if bank[Gold] > 0 {
        bank := bank[Gold := bank[Gold] - 1];
        p.gems := p.gems[Gold := p.gems[Gold] + 1];
      }
    }

    /** `_execute_discard(player, discard)`: the entries may be visited in any order. */
    method ExecuteDiscard(p: Player, d: map<Color, int>)
      requires TableOk(TableOf(p))
      modifies this`bank, p`gems
      ensures TableOf(p) == Discard(old(TableOf(p)), d)
    {
      ghost var t0 := TableOf(p);
      var bank', gems' := bank, p.gems;
      var rest := d.Keys;
      while rest != {}
        invariant rest <= d.Keys
        invariant DiscardedSoFar(t0, d, rest, bank', gems')
        decreases |rest|
      {
        var c :| c in rest;
        DiscardOneMore(t0, d, rest, bank', gems', c);
        gems' := gems'[c := gems'[c] - d[c]];
        bank' := bank'[c := bank'[c] + d[c]];
        rest := rest - {c};
      }
      DiscardByCounts(t0, d, bank', gems');
      bank, p.gems := bank', gems';
    }

    /** `_get_eligible_nobles(player)`: the pool scanned in order. */
    method GetEligibleNobles(p: Player) returns (eligible: seq<Noble>)
      ensures eligible == EligibleNobles(nobles, Bonuses(p.cards))
    {
      var bon := Bonuses(p.cards);
      eligible := [];
      var i := 0;
      while i < |nobles|
        invariant 0 <= i <= |nobles|
        invariant eligible == EligibleNobles(nobles[..i], bon)
      {
        var noble := nobles[i];
        if Eligible(noble, bon) {
          eligible := eligible + [noble];
        }
        assert nobles[..i + 1][..i] == nobles[..i];
        i := i + 1;
      }
      assert nobles[..|nobles|] == nobles;
    }

    /** The `take_diff` loop. */
    method TakeDiffTokens(p: Player, colors: seq<Color>)
      requires TableOk(TableOf(p))
      modifies this`bank, p`gems
      ensures TableOf(p) == TakeEach(old(TableOf(p)), colors)
    {
      ghost var t0 := TableOf(p);
      var bank', gems' := bank, p.gems;
      var i := 0;
      while i < |colors|
        invariant 0 <= i <= |colors|
        invariant TakenSoFar(t0, colors[..i], bank', gems')
      {
        var color := colors[i];
        TakeOneMore(t0, colors[..i], color, bank', gems');
        assert colors[..i + 1] == colors[..i] + [color];
        bank' := bank'[color := bank'[color] - 1];
        gems' := gems'[color := gems'[color] + 1];
        i := i + 1;
      }
      assert colors[..i] == colors;
      TakeEachByCounts(t0, colors, bank', gems');
      bank, p.gems := bank', gems';
      assert TableOf(p) == t0.(bank := bank', player := t0.player.(gems := gems'));
    }

    /** The loop of `purchase` that hands every paid token to the bank, in any order. */
    method ReturnPaid(paid: map<Color, int>)
      requires Full(bank) && Full(paid)
      modifies this`bank
      ensures Full(bank) && forall c :: bank[c] == old(bank[c]) + paid[c]
    {
      var rest := paid.Keys;
      while rest != {}
        invariant rest <= paid.Keys
        invariant Full(bank)
        invariant forall c :: bank[c] == old(bank[c]) + (if c in rest then 0 else paid[c])
        decreases |rest|
      {
        var c :| c in rest;
        bank := bank[c := bank[c] + paid[c]];
        rest := rest - {c};
      }
    }

    /** The `purchase` branch: find the card, pay for it, return the tokens to the bank. */
    method PurchaseCard(p: Player, tier: int, id: string, fromBoard: bool) returns (st: Status)
      requires TableOk(TableOf(p))
      modifies this`bank, this`decks, this`board, p`gems
      ensures (st, TableOf(p)) == Outcome(Buy(old(TableOf(p)), tier, id, fromBoard), old(TableOf(p)))
    {
      ghost var t0 := TableOf(p);
      var card: Card;
      if fromBoard {
        if tier !in board {
          return Raised(UnknownTier(tier));
        }
        var k := FindById(board[tier], id);
        if k.None? {
          return Raised(CardNotFound(id));
        }
        card := board[tier][k.value];
        board := board[tier := RemoveFirst(board[tier], card)];
        ghost var t1 := TableOf(p);
        ReplenishBoard(tier);
        assert TableOf(p) == ReplenishTable(t1, tier);
      } else {
        var k := FindById(p.reserved, id);
        if k.None? {
          return Raised(CardNotFound(id));
        }
        card := p.reserved[k.value];
      }
      BuyFound(t0, tier, id, fromBoard, card, TableOf(p));
      PayAndReturnTokens(p, card);
      st := Done;
    }

    /** The end of `purchase`: the player pays for `card` and the bank receives every paid token. */
    method PayAndReturnTokens(p: Player, card: Card)
      requires TableOk(TableOf(p))
      modifies this`bank, p`gems
      ensures TableOf(p) == PayAndReturn(old(TableOf(p)), card)
    {
      ghost var t0 := TableOf(p);
      var paid := p.PayForCard(card);
      ReturnPaid(paid);
      PayAndReturnByCounts(t0, card, paid, bank, p.gems);
    }

    /** The `reserve_public` branch. */
    method ReservePublicCard(p: Player, tier: int, id: string) returns (st: Status)
      requires TableOk(TableOf(p))
      modifies this`bank, this`decks, this`board, p`gems, p`reserved
      ensures (st, TableOf(p)) == Outcome(ReserveFromBoard(old(TableOf(p)), tier, id), old(TableOf(p)))
    {
      ghost var t0 := TableOf(p);
      if tier !in board {
        return Raised(UnknownTier(tier));
      }
      var k := FindById(board[tier], id);
      if k.None? {
        return Raised(CardNotFound(id));
      }
      var card := board[tier][k.value];
      board := board[tier := RemoveFirst(board[tier], card)];
      p.reserved := p.reserved + [card];
      ghost var t1 := TableOf(p);
      ReplenishBoard(tier);
      assert TableOf(p) == ReplenishTable(t1, tier);
      TakeGoldIfAvailable(p);
      st := Done;
    }

    /** The `reserve_blind` branch. */
    method ReserveBlindCard(p: Player, tier: int) returns (st: Status)
      requires TableOk(TableOf(p))
      modifies this`bank, this`decks, p`gems, p`reserved
      ensures (st, TableOf(p)) == Outcome(ReserveFromDeck(old(TableOf(p)), tier), old(TableOf(p)))
    {
      if tier !in decks {
        return Raised(UnknownTier(tier));
      }
      if decks[tier] == [] {
        return Raised(EmptyDeck(tier));
      }
      var deck := decks[tier];
      var card := deck[|deck| - 1];
      decks := decks[tier := deck[..|deck| - 1]];
      p.reserved := p.reserved + [card];
      TakeGoldIfAvailable(p);
      st := Done;
    }

    /** `_execute_main_action(player, action)`. */
    method ExecuteMainAction(p: Player, m: Move) returns (st: Status)
      requires TableOk(TableOf(p))
      modifies this`bank, this`decks, this`board, p`gems, p`reserved
      ensures (st, TableOf(p)) == Outcome(MainAction(old(TableOf(p)), m), old(TableOf(p)))
    {
      match m
      case TakeDiff(colors) =>
        TakeDiffTokens(p, colors);
        st := Done;
      case TakeSame(color) =>
        bank := bank[color := bank[color] - 2];
        p.gems := p.gems[color := p.gems[color] + 2];
        st := Done;
      case ReservePublic(tier, id) =>
        st := ReservePublicCard(p, tier, id);
      case ReserveBlind(tier) =>
        st := ReserveBlindCard(p, tier);
      case Purchase(tier, id, fromBoard) =>
        st := PurchaseCard(p, tier, id, fromBoard);
      case Pass =>
        st := Done;
      case Unlisted =>
        st := Done;
    }

    /** The noble visit of `step`: the first eligible noble joins the player and leaves the pool. */
    method VisitNoble(p: Player)
      requires TableOk(TableOf(p))
      modifies this`nobles, p`nobles, p`score
      ensures TableOf(p) == AwardNoble(old(TableOf(p)))
    {
      var eligible := GetEligibleNobles(p);
      if eligible != [] {
        var chosen := eligible[0];
        p.nobles := p.nobles + [chosen];
        p.score := p.score + chosen.points;
        nobles := RemoveFirst(nobles, chosen);
      }
    }

    /** `step` for player `p`, up to the turn advance: main action, ten-token check, noble visit. */
    method Turn(p: Player, a: Action) returns (st: Status)
      requires TableOk(TableOf(p))
      modifies this`bank, this`decks, this`board, this`nobles, p`gems, p`reserved, p`nobles, p`score
      ensures (st, TableOf(p)) == StepSpec(old(TableOf(p)), a)
    {
      st := ExecuteMainAction(p, a.move);
      if st.Raised? {
        return;
      }
      var totalGems := Total(p.gems);
      if totalGems > 10 {
        if a.discard.Some? {
          ExecuteDiscard(p, a.discard.value);
        } else {
          st := Raised(MissingDiscard);
          return;
        }
      }
      VisitNoble(p);
    }

    /** `step` up to the turn advance, played by the current player; the other players are untouched. */
    method PlayCurrent(a: Action) returns (st: Status)
      requires Valid()
      modifies this`bank, this`decks, this`board, this`nobles, players[currentPlayerIdx]
      ensures Valid()
      ensures var p := players[currentPlayerIdx]; (st, TableOf(p)) == StepSpec(old(TableOf(p)), a)
      ensures forall i :: 0 <= i < |players| && i != currentPlayerIdx ==> players[i].Record() == old(players[i].Record())
    {
      var player := players[currentPlayerIdx];
      assert player.Valid();
      st := Turn(player, a);
      forall i | 0 <= i < |players|
        ensures players[i].Valid()
        ensures i != currentPlayerIdx ==> players[i].Record() == old(players[i].Record())
      {
        if i != currentPlayerIdx {
          assert players[i] != player;
        }
      }
    }

    /**
      `step(action)`: one turn of the current player, then the turn passes
      on. Only the current player and the table change; a raise stops the
      turn where it happens and the turn does not pass.
    */
    method Step(a: Action) returns (st: Status)
      requires Valid()
      modifies this, players[currentPlayerIdx]
      ensures Valid()
      ensures players == old(players) && numPlayers == old(numPlayers)
      ensures var p := players[old(currentPlayerIdx)]; (st, TableOf(p)) == StepSpec(old(TableOf(p)), a)
      ensures currentPlayerIdx == if st.Done? then NextPlayer(old(currentPlayerIdx), numPlayers) else old(currentPlayerIdx)
      ensures forall i :: 0 <= i < |players| && i != old(currentPlayerIdx) ==> players[i].Record() == old(players[i].Record())
    {
      st := PlayCurrent(a);
      if st.Done? {
        PassTurn();
      }
    }

    /** `self.current_player_idx = (self.current_player_idx + 1) % self.num_players`. */
    method PassTurn()
      requires Valid()
      modifies this`currentPlayerIdx
      ensures Valid()
      ensures currentPlayerIdx == NextPlayer(old(currentPlayerIdx), numPlayers)
    {
      currentPlayerIdx := NextPlayer(currentPlayerIdx, numPlayers);
    }

    /** `export_state()`. */
    function ExportState(): (v: Value)
      reads this, players
      requires Valid()
      ensures v.VDict? && v.fields.Keys == StateKeys
    {
      VDict(StateDict(numPlayers, EncodeCounts(bank), currentPlayerIdx, PilesToDict(decks), PilesToDict(board),
        NoblesToList(nobles), PlayersToList(players)))
    }

    /** What `export_state` writes reads back: the player count, the bank, whose turn it is, every deck and face-up row, the pool and every player. */
    lemma ExportDecodes()
      requires Valid()
      ensures var f := ExportState().fields;
        && IntField(ExportState(), "num_players") == Success(numPlayers)
        && IntField(ExportState(), "current_player_idx") == Success(currentPlayerIdx)
        && DecodeCounts(f["bank"], "bank") == Success(bank)
        && (forall t :: t in Tiers ==> CardsFromList(f["decks"].tiers[t].items) == Success(decks[t]))
        && (forall t :: t in Tiers ==> CardsFromList(f["board"].tiers[t].items) == Success(board[t]))
        && NoblesFromList(f["nobles"].items) == Success(nobles)
        && |f["players"].items| == |players|
        && (forall i :: 0 <= i < |players| ==> DecodePlayer(f["players"].items[i]) == Success(players[i].Record()))
    {
      var f := ExportState().fields;
      CountsRoundTrip(bank, "bank");
      forall t | t in Tiers
        ensures CardsFromList(f["decks"].tiers[t].items) == Success(decks[t])
        ensures CardsFromList(f["board"].tiers[t].items) == Success(board[t])
      {
        CardsRoundTrip(decks[t]);
        CardsRoundTrip(board[t]);
      }
      NoblesRoundTrip(nobles);
      forall i | 0 <= i < |players|
        ensures DecodePlayer(f["players"].items[i]) == Success(players[i].Record())
      {
        assert players[i].Valid();
        PlayerRoundTrip(players[i].Record());
      }
    }
  }
}
