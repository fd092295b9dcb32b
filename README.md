# Splendor engine model

A Dafny model of the rules engine of a Splendor simulator and of its greedy
reflex agent. Splendor is a board game: players take gem tokens from a bank,
reserve and buy development cards, and attract nobles. The model covers:

- the `Card` and `Noble` records and their dictionary form;
- the `Player` record: its bonuses, its affordability test, its payment loop
  and its dictionary round trip;
- the `GameState` object: its construction, one turn of `step` with all its
  stages, and `export_state`;
- `GreedyAgent.get_action`.

Files, leaves first:

| file | module | contents |
|---|---|---|
| wrappers.dfy | `Wrappers` | `Option`, and `Result` for what Python raises |
| gems.dfy | `Gems` | the six token colours, their names, token dictionaries and their sums |
| values.dfy | `Values` | a model of the Python dictionaries the `to_dict` methods build, and typed field readers |
| components.dfy | `Components` | `Card`, `Noble`, their `to_dict`/`from_dict`, card lookup by id and `list.remove` |
| players.dfy | `Players` | bonuses, `can_buy` and `pay_for_card` as functions, the `Player` class, its dictionary round trip |
| game_rules.dfy | `GameRules` | each stage of a turn as a function on a `Table` value (bank, decks, board, nobles, acting player), and the laws those stages keep |
| game.dfy | `Game` | the `GameState` class; each method is proved to produce the table its `GameRules` function describes |
| greedy_agent.dfy | `GreedyAgent` | the agent's choice as a function `Greedy`, the `GreedyAgent` class whose `GetAction` loop is proved to compute it, and the agent's preference laws |

The imperative parts keep their form. `GameState` and `Player` are classes
whose methods update their fields in place. `pay_for_card`, the `take_diff`
loop, the discard loop, the noble scan and the agent's purchase loop are
`while` loops with invariants. Every method's postcondition ties its new
state to a function of the old state. The laws are proved about those
functions: token conservation, card movement, payment arithmetic and
agent preference.

Python exceptions are `Result` failures or `Status.Raised` values:

- `KeyError` for an unknown tier;
- `StopIteration` from `next` when no card has the id;
- `IndexError` from `pop` on an empty deck, or from `random.choice` on an empty list;
- `ValueError` for a missing discard entry.

Two points where the code is followed as written:

- The docstring at splender/player.py:48-49 says `step` adds a bought card
  to the player's cards, clears it from the reserved cards and scores it.
  The purchase branch of `_execute_main_action` does none of these.
  `PurchasePays` states that a purchase leaves the cards, the reserved cards
  and the score unchanged.
- `step` (splender/game.py:46-76) returns nothing and has no last-round,
  game-over or winner logic; the model has none.

## Model

| member | source | states |
|---|---|---|
| Gems.ColorsListed | splender/player.py:9 | every colour is one of the six token colours; every colour but gold is one of the five gem colours |
| Gems.Parse | splender/player.py:9 | a parsed colour name is the name of the colour returned |
| Gems.ParseName | splender/player.py:9 | parsing the name of any colour gives that colour back |
| Gems.SumOverBump | splender/game.py:56 | adding one token of colour `x` raises a sum over a colour list by the number of times `x` occurs in it |
| Gems.SumOverZero | splender/game.py:56 | a sum over an all-zero token dictionary is zero |
| Gems.Total | splender/game.py:56 | `sum(gems.values())` is non-negative when every entry is |
| Gems.TotalOfSix | splender/game.py:56 | `sum(gems.values())` is the sum of the six colour entries, an absent one counting 0 |
| Gems.TotalBump | splender/game.py:56 | `sum(player.gems.values())` grows by exactly one when one token is added |
| Gems.CountDistinct | splender/game.py:86-88 | in a list without repeats, each colour occurs once if listed and otherwise not at all |
| Values.Field | splender/components.py:28-32 | `data[key]` succeeds exactly when the value is a dictionary holding the key, and returns its entry |
| Values.EncodeCounts | splender/game.py:166 | the copied token dictionary holds exactly the names of the colours present, each with its count |
| Values.DecodeCounts | splender/player.py:91 | a token dictionary is read exactly when every key names a colour and every entry is an integer; each colour is present exactly when its name is a key, with that entry |
| Values.CountsRoundTrip | splender/player.py:80 | reading back a written token dictionary gives the same counts |
| Components.CardToDict | splender/components.py:14-22 | `Card.to_dict` has exactly the keys id, tier, bonus, points and cost |
| Components.GemCounts | splender/components.py:32 | a cost dictionary is accepted exactly when it names no gold, and is then kept unchanged |
| Components.CardRoundTrip | splender/components.py:14-33 | `Card.from_dict(c.to_dict())` has the same id, tier, bonus, points and cost as `c` |
| Components.CardFromDict | splender/components.py:24-33 | a card is read only from a dictionary holding all five keys; its id, tier, bonus name, points and every cost entry are the entries under those keys; a missing `id` is a KeyError |
| Components.NobleToDict | splender/components.py:46-52 | `Noble.to_dict` has exactly the keys id, points and requirements |
| Components.NobleFromDict | splender/components.py:54-61 | a noble is read only from a dictionary holding all three keys; its id, points and every requirement are the entries under those keys; a missing `id` is a KeyError |
| Components.NobleRoundTrip | splender/components.py:46-61 | `Noble.from_dict(n.to_dict())` has the same id, points and requirements as `n` |
| Components.CardsToList | splender/player.py:81-82 | a card list becomes the list of each card's dictionary, in order |
| Components.CardsFromList | splender/player.py:92-93 | the list is read exactly when every entry is a readable card; each card is read from the entry at its own position |
| Components.CardsRoundTrip | splender/player.py:92-93 | reading back a written card list gives the same cards in the same order |
| Components.NoblesToList | splender/player.py:83 | a noble list becomes the list of each noble's dictionary, in order |
| Components.NoblesFromList | splender/player.py:94 | the list is read exactly when every entry is a readable noble; each noble is read from the entry at its own position |
| Components.NoblesRoundTrip | splender/player.py:94 | reading back a written noble list gives the same nobles in the same order |
| Components.FindById | splender/game.py:97 | `next(c for c in cards if c.id == card_id)` finds the first card with that id, or reports that none has it |
| Components.RemoveAt | splender/game.py:98 | removing position `k` drops exactly that one card and keeps the rest |
| Components.IndexOf | splender/game.py:98 | the first position holding `x`, or none exactly when `x` is absent |
| Components.RemoveFirst | splender/game.py:98 | `list.remove(x)`, which needs `x` in the list (Python raises ValueError otherwise), drops exactly one occurrence of `x` and keeps every other element |
| Components.RemoveFirstAt | splender/game.py:97-98 | removing the first card found by id is removing it at the position where it was found |
| Players.Digits | splender/player.py:6 | the decimal digits of a number are never empty |
| Players.DefaultName | splender/player.py:6 | the default name `Player_<id>` is never empty |
| Players.ZeroGems | splender/player.py:9 | a new player holds every colour, each at zero |
| Players.CountBonus | splender/player.py:21-23 | the count of cards with a bonus colour is at most the number of cards, and zero exactly when no card has that bonus |
| Players.Bonuses | splender/player.py:18-24 | `bonuses` has the five gem colours, each counting the purchased cards of that bonus colour |
| Players.BonusesSumToCardCount | splender/player.py:21-23 | the bonus counts add up to the number of purchased cards |
| Players.Missing | splender/player.py:33-40 | `missing_gems` is never negative, and is zero exactly when the coloured gems cover every colour's price after bonuses |
| Players.CanAfford | splender/player.py:26-42 | affordability needs non-negative gold; when the coloured gems cover every price it holds exactly when gold is non-negative |
| Players.Payment | splender/player.py:52-73 | the payment record holds an entry for every colour |
| Players.GoldOverIsMissingOver | splender/player.py:35-40 | colour by colour, the gold `pay_for_card` spends equals what `can_buy` adds to `missing_gems` |
| Players.GoldPaidIsShortfall | splender/player.py:32-42 | the gold in the payment record is the `missing_gems` that `can_buy` computes |
| Players.CanBuyIffGoldCovers | splender/player.py:26-42 | `can_buy` holds exactly when paying leaves the gold count non-negative |
| Players.PaymentKeepsGemsNonNegative | splender/player.py:50-71 | paying for an affordable card from non-negative holdings leaves every count, gold included, non-negative |
| Players.CoveredGoldOverIsZero | splender/player.py:60-71 | when bonuses cover every price, no gold is spent |
| Players.BonusCoveredCardIsFree | splender/player.py:52-71 | a card fully covered by bonuses gives an all-zero payment record |
| Players.PaidSoFarStep | splender/player.py:55-71 | one round of the payment loop pays colour `g` in its own tokens up to what is held, and the rest in gold |
| Players.PayColourStep | splender/player.py:59-71 | one round of the payment loop keeps the loop invariant: paid plus remaining equals the starting gems |
| Players.PaidSoFarEnd | splender/player.py:52-73 | after the last gem colour, the loop's record is the whole payment |
| Players.EncodePlayer | splender/player.py:75-85 | `to_dict` has exactly the keys id, name, gems, cards, reserved, nobles and score |
| Players.NameOf | splender/player.py:6 | the name read back is never empty: an empty name falls back to the default |
| Players.DecodePlayer | splender/player.py:87-96 | a decoded player's id, gems (every colour), cards, reserved cards, nobles and score are the entries under their keys, and its name is the stored name or, when that is `None` or empty, the default name; a missing `id` is a KeyError; a token dictionary without every colour is refused with its own error (see "Left out") |
| Players.PlayerRoundTrip | splender/player.py:75-96 | `from_dict(to_dict(p))` reproduces id, name, gems, cards, reserved, nobles and score |
| Players.Player.constructor | splender/player.py:4-13 | a new player stores its id, its name or the default name, all-zero gems, and empty cards, reserved and nobles with score 0 |
| Players.Player.CanBuy | splender/player.py:26-42 | `can_buy` holds exactly when the gold `pay_for_card` would spend is at most the gold held |
| Players.Player.PayForCard | splender/player.py:44-73 | returns the payment record of the card, and only `gems` changes: each colour drops by what was paid |
| Players.Player.PayColour | splender/player.py:59-71 | one colour's round: that colour and gold drop by what they pay; every other colour is untouched |
| Players.Player.FromDict | splender/player.py:87-96 | succeeds exactly when the dictionary decodes, and then gives a fresh, well-formed player whose fields are the decoded ones |
| Players.Player.ToDict | splender/player.py:75-85 | the player's dictionary has exactly the seven player keys |
| GameRules.InitialBank | splender/game.py:11-15 | the starting bank holds every colour; each gem colour gets `InitialGemCount(num_players)`, the 4, 5 or 7 of `{2: 4, 3: 5, 4: 7}[num_players]` (game.py:11), and gold 5 |
| GameRules.Transfer | splender/game.py:90-93 | moving tokens of one colour changes only the bank and the player's gems |
| GameRules.TakeEach | splender/game.py:85-88 | `take_diff` lowers the bank and raises the player's gems by the number of times each colour is listed |
| GameRules.TakeOneMore | splender/game.py:86-88 | one round of the `take_diff` loop keeps its invariant |
| GameRules.TakeEachByCounts | splender/game.py:85-88 | counts that meet the loop invariant for the whole list are the `take_diff` result |
| GameRules.Replenish | splender/game.py:132-135 | refilling touches one tier; the row gains a card exactly when the deck was not empty, and no card is lost |
| GameRules.ReplenishTable | splender/game.py:132-135 | refilling leaves the bank, the nobles and the player alone |
| GameRules.TakeGold | splender/game.py:137-141 | taking gold changes only the bank and the player's gems |
| GameRules.ReserveFromBoard | splender/game.py:95-101 | a successful `reserve_public` leaves a well-formed table |
| GameRules.ReserveFromDeck | splender/game.py:103-107 | a successful `reserve_blind` leaves a well-formed table |
| GameRules.PayAndReturn | splender/game.py:120-123 | paying and returning the tokens leaves a well-formed table |
| GameRules.PayAndReturnByCounts | splender/game.py:121-123 | moving each paid amount from the player to the bank is the pay-and-return result |
| GameRules.Buy | splender/game.py:109-123 | a successful purchase leaves a well-formed table |
| GameRules.BuyFound | splender/game.py:113-123 | once the card is found and removed (from the board, then refilled), the purchase is paying for that card |
| GameRules.MainAction | splender/game.py:82-126 | a successful main action leaves a well-formed table over the same tiers |
| GameRules.Discard | splender/game.py:143-147 | discarding leaves a well-formed table |
| GameRules.DiscardOneMore | splender/game.py:145-147 | one round of the discard loop keeps its invariant |
| GameRules.DiscardByCounts | splender/game.py:143-147 | counts that meet the loop invariant with no entry left are the discard result |
| GameRules.Eligible | splender/game.py:155 | `all(...)` over no requirements holds; a colour without a bonus entry counts as 0, so an eligible noble asks nothing positive of it |
| GameRules.EligibleNobles | splender/game.py:149-157 | a noble is listed exactly when it is in the pool and every requirement is within the player's bonus |
| GameRules.FirstEligible | splender/game.py:66-70 | the first eligible noble in pool order, or none exactly when no noble is eligible |
| GameRules.AwardNoble | splender/game.py:66-73 | the noble visit leaves the bank and the player's gems alone |
| GameRules.StepSpec | splender/game.py:46-73 | a turn leaves a well-formed table over the same tiers, whether it finished or raised |
| GameRules.NextPlayer | splender/game.py:76 | the next index stays in `[0, num_players)`: one more, wrapping to 0 after the last player |
| GameRules.TakeGoldConserves | splender/game.py:137-141 | taking gold keeps bank plus player per colour |
| GameRules.PayAndReturnConserves | splender/game.py:120-123 | paying and returning keeps bank plus player per colour |
| GameRules.SameTokens | splender/game.py:132-135 | a stage that leaves the tokens alone, such as a refill, keeps conservation |
| GameRules.ReserveFromBoardConserves | splender/game.py:95-101 | `reserve_public` keeps bank plus player per colour |
| GameRules.ReserveFromDeckConserves | splender/game.py:103-107 | `reserve_blind` keeps bank plus player per colour |
| GameRules.BuyConserves | splender/game.py:109-123 | a purchase keeps bank plus player per colour |
| GameRules.MainActionConserves | splender/game.py:82-126 | every main action keeps bank plus player per colour |
| GameRules.StepConserves | splender/game.py:46-73 | a whole turn, including a discard and a raise part-way, keeps bank plus player per colour |
| GameRules.TakeDiffDistinct | splender/game.py:85-88 | with distinct colours, `take_diff` moves one token of each listed colour and none of the others |
| GameRules.TakeSameMovesTwo | splender/game.py:90-93 | `take_same` moves two tokens of its colour from the bank to the player and changes nothing else |
| GameRules.ReserveGrantsGold | splender/game.py:101-107 | both reserve actions give the player one gold exactly when the bank has gold, and change no other colour |
| GameRules.TakeFromRow | splender/game.py:97-100 | taking a card from a row and refilling it: the row loses that card and gains the deck's last card if any, and no card is lost |
| GameRules.ReservePublicMovesCard | splender/game.py:95-101 | `reserve_public` appends the found card to `reserved`, removes it from its row, refills the row from the deck, and leaves other tiers, cards and nobles alone |
| GameRules.ReservePublicKeepsCards | splender/game.py:95-100 | deck plus row plus reserved of the tier is the same multiset before and after `reserve_public` |
| GameRules.ReserveBlindTakesLast | splender/game.py:103-107 | `reserve_blind` fails exactly on an unknown tier or an empty deck, and otherwise moves the deck's last card to `reserved` |
| GameRules.PurchasePays | splender/game.py:109-123 | a purchase moves exactly the paid tokens from the player to the bank, and leaves cards, reserved cards, score and nobles unchanged |
| GameRules.PurchaseFromBoardRefills | splender/game.py:113-116 | a board purchase shrinks the row by one, refills it when the deck is not empty, and loses no card but the one bought |
| GameRules.PurchaseFromReservedKeepsTable | splender/game.py:117-118 | a purchase from the reserved cards leaves decks and rows unchanged |
| GameRules.StepNeedsDiscard | splender/game.py:56-63 | `step` raises for the discard exactly when the main action succeeded, left more than ten tokens, and no discard was given |
| GameRules.DiscardReturns | splender/game.py:143-147 | each discarded amount moves from the player to the bank, keeping bank plus player per colour |
| GameRules.EligibleStartsAtFirst | splender/game.py:66-70 | the eligible list is non-empty exactly when some noble is eligible, and its head is the first eligible noble of the pool |
| GameRules.NobleVisit | splender/game.py:66-73 | with an eligible noble, the first one leaves the pool, joins the player's nobles and adds its points; otherwise nothing changes |
| Game.PlayersToList | splender/game.py:171 | the players become the list of each player's dictionary, in order |
| Game.PilesToDict | splender/game.py:168-169 | decks or rows become a dictionary over tiers 1 to 3 of each pile's card list |
| Game.StateDict | splender/game.py:164-172 | the state dictionary has exactly the seven state keys: `num_players` and `current_player_idx` hold those integers, and the bank, decks, board, nobles and players entries hold their encoded parts |
| Game.GameState.constructor | splender/game.py:6-24 | 2 to 4 players, 2 when not given; each non-gold colour starts at 4, 5 or 7 and gold at 5; fresh players 0..n-1 with zero gems; empty decks, rows and pool; player 0 to move |
| Game.GameState.ReplenishBoard | splender/game.py:132-135 | the decks and rows become the refill of the old ones |
| Game.GameState.TakeGoldIfAvailable | splender/game.py:137-141 | the table becomes `TakeGold` of the old table |
| Game.GameState.ExecuteDiscard | splender/game.py:143-147 | the table becomes `Discard` of the old table, whatever order the loop visits the entries in |
| Game.GameState.GetEligibleNobles | splender/game.py:149-157 | returns the eligible nobles of the pool, in pool order |
| Game.GameState.TakeDiffTokens | splender/game.py:85-88 | the table becomes `TakeEach` of the old table |
| Game.GameState.ReturnPaid | splender/game.py:122-123 | each paid amount is added to the bank |
| Game.GameState.PurchaseCard | splender/game.py:109-123 | the status and table are those `Buy` gives for the old table |
| Game.GameState.PayAndReturnTokens | splender/game.py:121-123 | the table becomes `PayAndReturn` of the old table |
| Game.GameState.ReservePublicCard | splender/game.py:95-101 | the status and table are those `ReserveFromBoard` gives for the old table |
| Game.GameState.ReserveBlindCard | splender/game.py:103-107 | the status and table are those `ReserveFromDeck` gives for the old table |
| Game.GameState.ExecuteMainAction | splender/game.py:82-126 | the status and table are those `MainAction` gives for the old table |
| Game.GameState.VisitNoble | splender/game.py:66-73 | the table becomes `AwardNoble` of the old table |
| Game.GameState.Turn | splender/game.py:50-73 | the status and table are those `StepSpec` gives for the old table |
| Game.GameState.PlayCurrent | splender/game.py:50-73 | the current player's turn follows `StepSpec`; every other player is unchanged and the state stays valid |
| Game.GameState.Step | splender/game.py:46-76 | one turn follows `StepSpec`; the index moves to the next player when the turn finishes; other players are unchanged and the state stays valid |
| Game.GameState.PassTurn | splender/game.py:76 | the index becomes `(idx + 1) % num_players` and the state stays valid |
| Game.GameState.ExportState | splender/game.py:162-172 | `export_state` has exactly the seven state keys |
| Game.GameState.ExportDecodes | splender/game.py:162-172 | the exported player count, bank, current player index, every deck and row, the nobles and every player read back to the state's own values |
| GreedyAgent.OfKind | agents/greedy_agent.py:11 | the filtered list holds only legal actions of the requested type |
| GreedyAgent.OfKindMembers | agents/greedy_agent.py:11 | an action is in the filtered list exactly when it is legal and of that type |
| GreedyAgent.PlayerSlot | agents/greedy_agent.py:27 | `players[idx]` succeeds exactly for `-n <= idx < n`, counting negative indices from the end |
| GreedyAgent.Scan | agents/greedy_agent.py:15-32 | `max_points` never drops below -1; it is -1 exactly while `best_action` is `None`; otherwise it is the points of the best action |
| GreedyAgent.FirstWidest | agents/greedy_agent.py:40 | `max` with the colour-count key returns the first of the actions with the most colours |
| GreedyAgent.Choice | agents/greedy_agent.py:45 | `random.choice` returns an element of its list |
| GreedyAgent.Reserves | agents/greedy_agent.py:27-28 | each player's reserved cards, in player order |
| GreedyAgent.GreedyAgent.constructor | agents/greedy_agent.py:4-5 | the agent stores its player index |
| GreedyAgent.GreedyAgent.LookupPoints | agents/greedy_agent.py:24-28 | the card lookup reads the board row or the agent's reserved cards, and raises as `CardPoints` does |
| GreedyAgent.CardPoints | agents/greedy_agent.py:24-28 | a board lookup raises KeyError exactly for an unknown tier; a reserved-card lookup raises IndexError exactly for a player index out of range |
| GreedyAgent.CardPointsFound | agents/greedy_agent.py:24-28 | once the row or the player is found, `next` succeeds exactly when a card of that pile has the id and gives that card's points, and otherwise raises StopIteration |
| GreedyAgent.Greedy | agents/greedy_agent.py:7-53 | any action returned is one of the legal actions, and an empty legal list raises |
| GreedyAgent.GreedyAgent.GetAction | agents/greedy_agent.py:7-53 | the action returned, the `None` or the raise is the one `Greedy` gives; the agent changes nothing |
| GreedyAgent.ScanStep | agents/greedy_agent.py:30-32 | one round of the purchase loop replaces the best action only on a strictly greater score |
| GreedyAgent.ScanStopsAt | agents/greedy_agent.py:24-28 | a lookup that raises ends the loop with its error |
| GreedyAgent.ScanSucceedsIff | agents/greedy_agent.py:18-32 | the purchase loop finishes exactly when every lookup succeeds |
| GreedyAgent.ScanFirstFailure | agents/greedy_agent.py:18-28 | when the loop raises, it raises the error of the first failing lookup |
| GreedyAgent.ScanBest | agents/greedy_agent.py:16-32 | the final `max_points` bounds every purchase's points, and no purchase before the best one reaches it |
| GreedyAgent.GreedyPrefersKinds | agents/greedy_agent.py:11-53 | the returned action is of the most preferred type present: purchase, take_diff, take_same, reserve_public, then anything |
| GreedyAgent.GreedyRaisesWhenStuck | agents/greedy_agent.py:53 | the agent raises for want of a choice exactly when the legal list is empty |
| GreedyAgent.PurchaseScanBound | agents/greedy_agent.py:16-32 | with every lookup succeeding, the loop finishes with a score that no legal purchase beats |
| GreedyAgent.GreedyNoneIff | agents/greedy_agent.py:13-34 | with purchases and every lookup succeeding, the agent returns `None` exactly when every card is worth less than zero points |
| GreedyAgent.GreedyBestPurchase | agents/greedy_agent.py:16-34 | a returned purchase is legal, worth at least zero, and worth the most points of all legal purchases |
| GreedyAgent.GreedyFirstBest | agents/greedy_agent.py:30-32 | of the purchases worth the most, the first in list order is returned |
| GreedyAgent.GreedyLookupFails | agents/greedy_agent.py:18-28 | with purchases, the agent raises exactly when some lookup fails, and then raises the first failure's error |
| GreedyAgent.GreedyWidestTake | agents/greedy_agent.py:37-41 | with no purchase but some take_diff, it returns the first take_diff with the most colours |
| GreedyAgent.ChoiceReachesAll | agents/greedy_agent.py:45 | every element of the list is returned for some random draw |

## Left out

- `GameState.reset` is not modelled: its point is the random shuffle of decks and nobles.
- Legal-action generation, discard enumeration, `import_state` and game-over or winner logic are not modelled. The agents call them, but they are not defined in splender/game.py.
- agents/mcts_agent.py and agents/random_agent.py are not part of this model. The MCTS agent relies on floating-point UCT scores and random rollouts; the random agent is a single `random.choice`.
- `__repr__` methods are not modelled: they are presentation only.
- Python dictionary iteration order is not modelled. The discard and bank-return loops pick each key in an unspecified order, and their result is proved independent of it. The payment loop visits the five gem colours in a fixed order, which gives the same result for the colour-disjoint updates it makes.
- Card costs range over the five gem colours only. A `cost` naming gold makes `from_dict` fail in the model, because the Python payment loop would then depend on key order.
- Action dictionaries are the `Action` datatype, so an action missing a key it needs (a `KeyError` in Python) cannot be written. Colours in `take_diff`, `take_same` and `discard` are `Color` values, so a colour name outside the six cannot be written either. Python raises `KeyError` for one: in `take_diff` (splender/game.py:86-88) and in the discard loop (splender/game.py:146-148) only after the earlier colours or entries have already been moved, leaving that partial update in place; in `take_same` (splender/game.py:90-93) before anything moves. The model has neither case. Any type the engine does not name is `Unlisted` and changes nothing, as in Python.
- DecodePlayer: refuses, besides what DecodeCounts, CardFromDict and NobleFromDict refuse, dictionaries that `Player.from_dict` (splender/player.py:87-96) stores unchecked: an `id` or `score` that is not an integer (`WrongType`); a `name` that is neither a string nor `None` (`WrongType("name")`, in `NameOf`; Python accepts any value and tests only its truth); a `cards`, `reserved` or `nobles` entry that is not a list (`WrongType`); and a `gems` dictionary without an entry for every colour (`MissingColor("gems")`), because the typed player record holds every colour.
- DecodeCounts: refuses a value that is not a dictionary (`WrongType`), a key that names no colour (`UnknownColor`) and an entry that is not an integer (`WrongType`). Python stores such a value unchecked.
- CardFromDict: refuses an `id` that is not a string, a `tier` or `points` that is not an integer (`WrongType`), and a `bonus` that is not one of the five gem colour names (`UnknownColor`); `Card.from_dict` (splender/components.py:24-33) stores each unchecked. A `cost` naming gold is refused as the card-cost line above says.
- NobleFromDict: refuses an `id` that is not a string and `points` that are not an integer (`WrongType`); `Noble.from_dict` (splender/components.py:54-61) stores both unchecked. Its `requirements` are read by DecodeCounts, with the refusals listed there.
- `from_dict` shares where the model copies: `Player.from_dict` keeps the caller's `gems` dictionary itself (splender/player.py:91), and `Card.from_dict` and `Noble.from_dict` keep the caller's `cost` and `requirements` dictionaries (splender/components.py:32, :60). In Python a restored player's `pay_for_card` (splender/player.py:62-71) therefore also changes the dictionary it was loaded from. Model values are never shared, so this aliasing is not captured.
- `Player(player_id, name=None)`: an empty `name` stands for `None`, as both select the default name.
- `GameState(num_players=2)`: the constructor's `assert 2 <= num_players <= 4` is a precondition; the default of 2 players is kept as the parameter's default value.
- `list.remove(card)` on a face-up row and on the noble pool is modelled by value: the first element equal to the card or noble is removed.
- Python integers are unbounded, and so are the model's. Nothing checks that counts stay non-negative; the bank may go negative, as in Python.
- `random.choice(xs)` is `xs[roll % |xs|]` for a caller-supplied `roll`; `ChoiceReachesAll` states that every element can be drawn.
- The body of `step` is split over `PlayCurrent`, `Turn`, `VisitNoble` and `PassTurn`; the purchase branch also uses `PayAndReturnTokens`. The `take_diff` and discard loops update local copies of the bank and gems and assign both fields after the loop. Python updates the fields inside the loop; the final state is the same.
