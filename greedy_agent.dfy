/**
  The greedy agent of agents/greedy_agent.py.

  Given the legal actions of its turn, the agent prefers, in this order:
  the purchase of the card worth the most points (the first such one on a
  tie), the `take_diff` action that takes the most colours (again the first
  such one), any `take_same` action, any `reserve_public` action, and at last
  any legal action at all.

  The list of legal actions is a parameter (the engine's own generator of
  legal actions is not part of this model), and Python's `random.choice(xs)`
  is `xs[roll % |xs|]` for a `roll` supplied by the caller.
*/
module GreedyAgent {
  import opened Wrappers
  import opened Components
  import opened Players
  import opened GameRules
  import opened Game

  /** The `type` groups the agent filters the legal actions by. */
  datatype Kind = PurchaseKind | TakeDiffKind | TakeSameKind | ReservePublicKind | OtherKind

  function KindOf(m: Move): Kind {
    match m
    case Purchase(_, _, _) => PurchaseKind
    case TakeDiff(_) => TakeDiffKind
    case TakeSame(_) => TakeSameKind
    case ReservePublic(_, _) => ReservePublicKind
    case _ => OtherKind
  }

  /** The position of a kind in the agent's order of preference. */
  function Rank(k: Kind): nat {
    match k
    case PurchaseKind => 0
    case TakeDiffKind => 1
    case TakeSameKind => 2
    case ReservePublicKind => 3
    case OtherKind => 4
  }

  /** `[a for a in legal if a['type'] == k]`: the actions of kind `k`, in their order in `legal`. */
  function OfKind(legal: seq<Action>, k: Kind): (r: seq<Action>)
    ensures |r| <= |legal|
    ensures forall i :: 0 <= i < |r| ==> r[i] in legal && KindOf(r[i].move) == k
  {
    if legal == [] then []
    else (if KindOf(legal[0].move) == k then [legal[0]] else []) + OfKind(legal[1..], k)
  }

  /** An action is among those of kind `k` exactly when it is legal and of that kind. */
  lemma {:induction false} OfKindMembers(legal: seq<Action>, k: Kind, a: Action)
    ensures a in OfKind(legal, k) <==> a in legal && KindOf(a.move) == k
  {
    if legal != [] {
      OfKindMembers(legal[1..], k, a);
      assert legal == [legal[0]] + legal[1..];
    }
  }

  /** What makes `get_action` raise instead of returning. */
  datatype AgentError =
    | BadTier(tier: int)
    | BadPlayerIndex(index: int)
    | UnknownCard(cardId: string)
    | NoLegalActions

  /** What `get_action` does: return an action, return `None`, or raise. */
  datatype Decision = Chosen(action: Action) | ReturnedNone | Failed(error: AgentError)

  /** What the agent reads of the game: the face-up rows, each player's reserved cards, and its own seat. */
  datatype View = View(board: map<int, seq<Card>>, reserves: seq<seq<Card>>, playerIdx: int)

  /** `players[idx]` on a Python list of `n` players: negative indices count from the end. */
  function PlayerSlot(n: nat, idx: int): (r: Option<nat>)
    ensures r.Some? <==> 0 <= idx + n && idx < n
    ensures r.Some? ==> r.value < n && (r.value == idx || r.value == idx + n)
  {
    if 0 <= idx < n then Some(idx)
    else if 0 <= idx + n && idx < 0 then Some(idx + n)
    else None
  }

  /**
    The points of the card a purchase action names: the first card with that
    id on the board row of its tier, or else among the reserved cards of the
    agent's own player.
  */
  function CardPoints(view: View, a: Action): (r: Result<int, AgentError>)
    requires a.move.Purchase?
    ensures a.move.fromBoard ==> (r == Failure(BadTier(a.move.tier)) <==> a.move.tier !in view.board)
    ensures !a.move.fromBoard ==>
      (r == Failure(BadPlayerIndex(view.playerIdx)) <==> PlayerSlot(|view.reserves|, view.playerIdx).None?)
  {
    var Purchase(tier, id, fromBoard) := a.move;
    if fromBoard then
      if tier !in view.board then Failure(BadTier(tier))
      else match FindById(view.board[tier], id)
        case None => Failure(UnknownCard(id))
        case Some(k) => Success(view.board[tier][k].points)
    else match PlayerSlot(|view.reserves|, view.playerIdx)
      case None => Failure(BadPlayerIndex(view.playerIdx))
      case Some(s) =>
        match FindById(view.reserves[s], id)
        case None => Failure(UnknownCard(id))
        case Some(k) => Success(view.reserves[s][k].points)
  }

  /** Past the tier or player lookup, the card lookup succeeds exactly when a card of that pile has the id, and gives its points. */
  lemma CardPointsFound(view: View, a: Action, pile: seq<Card>)
    requires a.move.Purchase?
    requires a.move.fromBoard ==> a.move.tier in view.board && pile == view.board[a.move.tier]
    requires !a.move.fromBoard ==>
      PlayerSlot(|view.reserves|, view.playerIdx).Some? && pile == view.reserves[PlayerSlot(|view.reserves|, view.playerIdx).value]
    ensures CardPoints(view, a).Success? <==> exists c :: c in pile && c.id == a.move.cardId
    ensures CardPoints(view, a).Failure? ==> CardPoints(view, a).error == UnknownCard(a.move.cardId)
    ensures CardPoints(view, a).Success? ==>
      exists c :: c in pile && c.id == a.move.cardId && c.points == CardPoints(view, a).value
  {
    var k := FindById(pile, a.move.cardId);
    if k.Some? {
      assert pile[k.value] in pile;
    }
  }

  predicate AllPurchases(xs: seq<Action>) {
    forall i :: 0 <= i < |xs| ==> xs[i].move.Purchase?
  }

  /**
    The purchase loop of `get_action` over `xs`: the first lookup that raises,
    or the position of `best_action` (`None` while no card beat `max_points`)
    and the final `max_points`, which starts at -1 and is replaced on a strictly
    greater score only.
  */
  function Scan(view: View, xs: seq<Action>): (r: Result<(Option<nat>, int), AgentError>)
    requires AllPurchases(xs)
    ensures r.Success? ==> r.value.1 >= -1 && (r.value.0.None? <==> r.value.1 == -1)
    ensures r.Success? && r.value.0.Some? ==>
      r.value.0.value < |xs| && CardPoints(view, xs[r.value.0.value]) == Success(r.value.1)
  {
    if xs == [] then Success((None, -1))
    else
      var last := xs[|xs| - 1];
      match Scan(view, xs[..|xs| - 1])
      case Failure(e) => Failure(e)
      case Success((best, maxPoints)) =>
        match CardPoints(view, last)
        case Failure(e) => Failure(e)
        case Success(p) => if p > maxPoints then Success((Some(|xs| - 1), p)) else Success((best, maxPoints))
  }

  /** The length of `colors` of a `take_diff` action, the key of the agent's `max`. */
  function Width(a: Action): nat {
    if a.move.TakeDiff? then |a.move.colors| else 0
  }

  /** Python's `max(xs, key=Width)`: the first of the widest actions. */
  function FirstWidest(xs: seq<Action>): (i: nat)
    requires xs != []
    ensures i < |xs|
    ensures forall j :: 0 <= j < |xs| ==> Width(xs[j]) <= Width(xs[i])
    ensures forall j :: 0 <= j < i ==> Width(xs[j]) < Width(xs[i])
  {
    if |xs| == 1 then 0
    else
      var i := FirstWidest(xs[..|xs| - 1]);
      if Width(xs[|xs| - 1]) > Width(xs[i]) then |xs| - 1 else i
  }

  /** `random.choice(xs)`, with the random draw given as `roll`. */
  function Choice(xs: seq<Action>, roll: nat): (a: Action)
    requires xs != []
    ensures a in xs
  {
    xs[roll % |xs|]
  }

  /** `get_action`, as a function of what the agent sees, the legal actions and the random draw. */
  function Greedy(view: View, legal: seq<Action>, roll: nat): (d: Decision)
    ensures d.Chosen? ==> d.action in legal
    ensures legal == [] ==> d == Failed(NoLegalActions)
  {
    var purchases := OfKind(legal, PurchaseKind);
    if purchases != [] then
      match Scan(view, purchases)
      case Failure(e) => Failed(e)
      case Success((best, _)) => if best.None? then ReturnedNone else Chosen(purchases[best.value])
    else
      var takes := OfKind(legal, TakeDiffKind);
      if takes != [] then Chosen(takes[FirstWidest(takes)])
      else
        var sames := OfKind(legal, TakeSameKind);
        if sames != [] then Chosen(Choice(sames, roll))
        else
          var reserves := OfKind(legal, ReservePublicKind);
          if reserves != [] then Chosen(Choice(reserves, roll))
          else if legal == [] then Failed(NoLegalActions)
          else Chosen(Choice(legal, roll))
  }

  /** Each player's reserved cards. */
  function Reserves(ps: seq<Player>): (rs: seq<seq<Card>>)
    reads ps
    ensures |rs| == |ps| && forall i :: 0 <= i < |ps| ==> rs[i] == ps[i].reserved
  {
    if ps == [] then [] else [ps[0].reserved] + Reserves(ps[1..])
  }

  class GreedyAgent {
    const playerIdx: int

    /** `GreedyAgent(player_idx)`. */
    constructor (playerIdx: int)
      ensures this.playerIdx == playerIdx
    {
      this.playerIdx := playerIdx;
    }

    /** What the agent sees of `state`. */
    function ViewOf(state: GameState): View
      reads state, state.players
    {
      View(state.board, Reserves(state.players), playerIdx)
    }

    /** The card lookup inside the purchase loop of `get_action`. */
    method LookupPoints(state: GameState, action: Action) returns (r: Result<int, AgentError>)
      requires action.move.Purchase?
      ensures r == CardPoints(ViewOf(state), action)
    {
      var Purchase(tier, cardId, fromBoard) := action.move;
      if fromBoard {
        if tier !in state.board {
          return Failure(BadTier(tier));
        }
        var k := FindById(state.board[tier], cardId);
        if k.None? {
          return Failure(UnknownCard(cardId));
        }
        return Success(state.board[tier][k.value].points);
      }
      var slot := PlayerSlot(|state.players|, playerIdx);
      if slot.None? {
        return Failure(BadPlayerIndex(playerIdx));
      }
      var player := state.players[slot.value];
      var k := FindById(player.reserved, cardId);
      if k.None? {
        return Failure(UnknownCard(cardId));
      }
      return Success(player.reserved[k.value].points);
    }

    /** `get_action(state)`, with `state.get_legal_actions()` given as `legal`. */
    method GetAction(state: GameState, legal: seq<Action>, roll: nat) returns (d: Decision)
      ensures d == Greedy(ViewOf(state), legal, roll)
    {
      ghost var view := ViewOf(state);
      var purchases := OfKind(legal, PurchaseKind);
      if purchases != [] {
        assert AllPurchases(purchases);
        var best: Option<nat> := None;
        var maxPoints := -1;
        var i := 0;
        while i < |purchases|
          invariant 0 <= i <= |purchases|
          invariant Scan(view, purchases[..i]) == Success((best, maxPoints))
        {
          var r := LookupPoints(state, purchases[i]);
          if r.Failure? {
            ScanStopsAt(view, purchases, i);
            return Failed(r.error);
          }
          ScanStep(view, purchases, i, best, maxPoints, r.value);
          if r.value > maxPoints {
            maxPoints := r.value;
            best := Some(i);
          }
          i := i + 1;
        }
        assert purchases[..i] == purchases;
        if best.None? {
          return ReturnedNone;
        }
        return Chosen(purchases[best.value]);
      }
      var takes := OfKind(legal, TakeDiffKind);
      if takes != [] {
        return Chosen(takes[FirstWidest(takes)]);
      }
      var sames := OfKind(legal, TakeSameKind);
      if sames != [] {
        return Chosen(Choice(sames, roll));
      }
      var reserves := OfKind(legal, ReservePublicKind);
      if reserves != [] {
        return Chosen(Choice(reserves, roll));
      }
      if legal == [] {
        return Failed(NoLegalActions);
      }
      return Chosen(Choice(legal, roll));
    }
  }

  /** One more round of the purchase loop: a strictly greater score replaces the best so far. */
  lemma {:induction false} ScanStep(view: View, xs: seq<Action>, i: nat, best: Option<nat>, maxPoints: int, p: int)
    requires AllPurchases(xs) && i < |xs|
    requires Scan(view, xs[..i]) == Success((best, maxPoints)) && CardPoints(view, xs[i]) == Success(p)
    ensures Scan(view, xs[..i + 1]) == Success(if p > maxPoints then (Some(i), p) else (best, maxPoints))
  {
    assert xs[..i + 1][..i] == xs[..i];
  }

  /** A lookup that raises at position `i`, after every earlier one succeeded, ends the purchase loop with its error. */
  lemma {:induction false} ScanStopsAt(view: View, xs: seq<Action>, i: nat)
    requires AllPurchases(xs) && i < |xs|
    requires Scan(view, xs[..i]).Success? && CardPoints(view, xs[i]).Failure?
    ensures Scan(view, xs) == Failure(CardPoints(view, xs[i]).error)
    decreases |xs|
  {
    if |xs| == i + 1 {
      assert xs[..|xs| - 1] == xs[..i];
    } else {
      var init := xs[..|xs| - 1];
      assert init[..i] == xs[..i];
      ScanStopsAt(view, init, i);
    }
  }

  /** The purchase loop finishes without raising exactly when every lookup succeeds. */
  lemma {:induction false} ScanSucceedsIff(view: View, xs: seq<Action>)
    requires AllPurchases(xs)
    ensures Scan(view, xs).Success? <==> forall j :: 0 <= j < |xs| ==> CardPoints(view, xs[j]).Success?
  {
    if xs != [] {
      var init := xs[..|xs| - 1];
      ScanSucceedsIff(view, init);
      assert forall j :: 0 <= j < |init| ==> init[j] == xs[j];
    }
  }

  /** When it raises, the purchase loop raises the error of the first lookup that fails. */
  lemma {:induction false} ScanFirstFailure(view: View, xs: seq<Action>)
    requires AllPurchases(xs) && Scan(view, xs).Failure?
    ensures exists k :: (0 <= k < |xs| && CardPoints(view, xs[k]) == Failure(Scan(view, xs).error) &&
                         forall j :: 0 <= j < k ==> CardPoints(view, xs[j]).Success?)
  {
    var init := xs[..|xs| - 1];
    if Scan(view, init).Failure? {
      ScanFirstFailure(view, init);
      var k :| 0 <= k < |init| && CardPoints(view, init[k]) == Failure(Scan(view, init).error) &&
        forall j :: 0 <= j < k ==> CardPoints(view, init[j]).Success?;
      assert forall j :: 0 <= j <= k ==> init[j] == xs[j];
    } else {
      ScanSucceedsIff(view, init);
      assert forall j :: 0 <= j < |init| ==> init[j] == xs[j];
    }
  }

  /**
    When the purchase loop finishes, `max_points` is at least the points of
    every card it looked at, and `best_action` is the first purchase that
    reaches it.
  */
  lemma {:induction false} ScanBest(view: View, xs: seq<Action>)
    requires AllPurchases(xs) && Scan(view, xs).Success?
    ensures forall j :: 0 <= j < |xs| ==>
      CardPoints(view, xs[j]).Success? && CardPoints(view, xs[j]).value <= Scan(view, xs).value.1
    ensures Scan(view, xs).value.0.Some? ==>
      forall j :: 0 <= j < Scan(view, xs).value.0.value ==> CardPoints(view, xs[j]).value < Scan(view, xs).value.1
  {
    if xs != [] {
      var init := xs[..|xs| - 1];
      ScanBest(view, init);
      assert forall j :: 0 <= j < |init| ==> init[j] == xs[j];
    }
  }

  /** The agent returns an action of the most preferred kind among the legal actions. */
  lemma {:induction false} GreedyPrefersKinds(view: View, legal: seq<Action>, roll: nat, b: Action)
    requires b in legal && Greedy(view, legal, roll).Chosen?
    ensures Rank(KindOf(Greedy(view, legal, roll).action.move)) <= Rank(KindOf(b.move))
  {
    var a := Greedy(view, legal, roll).action;
    OfKindMembers(legal, KindOf(b.move), b);
    var purchases, takes := OfKind(legal, PurchaseKind), OfKind(legal, TakeDiffKind);
    var sames, reserves := OfKind(legal, TakeSameKind), OfKind(legal, ReservePublicKind);
    if purchases != [] {
      assert a == purchases[Scan(view, purchases).value.0.value];
    } else if takes != [] {
      assert a == takes[FirstWidest(takes)];
    } else if sames != [] {
      assert a == sames[roll % |sames|];
    } else if reserves != [] {
      assert a == reserves[roll % |reserves|];
    }
  }

  /** The agent raises for want of a legal action exactly when there is none. */
  lemma {:induction false} GreedyRaisesWhenStuck(view: View, legal: seq<Action>, roll: nat)
    ensures Greedy(view, legal, roll) == Failed(NoLegalActions) <==> legal == []
  {
    var purchases := OfKind(legal, PurchaseKind);
    if purchases != [] && Scan(view, purchases).Failure? {
      ScanFirstFailure(view, purchases);
    }
  }

  /** When every card lookup succeeds, the purchase loop finishes with a score no purchase beats. */
  lemma {:induction false} PurchaseScanBound(view: View, legal: seq<Action>)
    requires forall a :: a in legal && a.move.Purchase? ==> CardPoints(view, a).Success?
    ensures Scan(view, OfKind(legal, PurchaseKind)).Success?
    ensures forall b :: b in legal && b.move.Purchase? ==>
              CardPoints(view, b).value <= Scan(view, OfKind(legal, PurchaseKind)).value.1
  {
    var purchases := OfKind(legal, PurchaseKind);
    forall j | 0 <= j < |purchases|
      ensures CardPoints(view, purchases[j]).Success?
    {
      assert purchases[j] in legal && KindOf(purchases[j].move) == PurchaseKind;
    }
    ScanSucceedsIff(view, purchases);
    ScanBest(view, purchases);
    var top := Scan(view, purchases).value.1;
    forall b | b in legal && b.move.Purchase?
      ensures CardPoints(view, b).value <= top
    {
      OfKindMembers(legal, PurchaseKind, b);
      var j :| 0 <= j < |purchases| && purchases[j] == b;
      assert CardPoints(view, purchases[j]).value <= top;
    }
  }

  /**
    With a purchase among the legal actions and every card lookup succeeding,
    the agent does not raise, and it returns `None` exactly when every
    purchasable card is worth less than zero points.
  */
  lemma {:induction false} GreedyNoneIff(view: View, legal: seq<Action>, roll: nat)
    requires OfKind(legal, PurchaseKind) != []
    requires forall a :: a in legal && a.move.Purchase? ==> CardPoints(view, a).Success?
    ensures !Greedy(view, legal, roll).Failed?
    ensures Greedy(view, legal, roll).ReturnedNone? <==>
              forall a :: a in legal && a.move.Purchase? ==> CardPoints(view, a).value < 0
  {
    var purchases := OfKind(legal, PurchaseKind);
    PurchaseScanBound(view, legal);
    var r := Scan(view, purchases).value;
    if r.0.Some? {
      var a := purchases[r.0.value];
      assert a in legal && a.move.Purchase? && CardPoints(view, a).value >= 0;
    }
  }

  /**
    With every card lookup succeeding, a purchase the agent returns is a
    legal purchase of a card worth the most points, and no fewer than zero.
  */
  lemma {:induction false} GreedyBestPurchase(view: View, legal: seq<Action>, roll: nat, a: Action)
    requires OfKind(legal, PurchaseKind) != []
    requires forall a :: a in legal && a.move.Purchase? ==> CardPoints(view, a).Success?
    requires Greedy(view, legal, roll) == Chosen(a)
    ensures a in legal && a.move.Purchase? && CardPoints(view, a).value >= 0
    ensures forall b :: b in legal && b.move.Purchase? ==> CardPoints(view, b).value <= CardPoints(view, a).value
  {
    var purchases := OfKind(legal, PurchaseKind);
    PurchaseScanBound(view, legal);
    var k := Scan(view, purchases).value.0.value;
    assert a == purchases[k];
    assert a in legal && KindOf(a.move) == PurchaseKind;
  }

  /** Of the purchases worth the most points, the agent returns the first one in `legal`. */
  lemma {:induction false} GreedyFirstBest(view: View, legal: seq<Action>, roll: nat, a: Action)
    requires OfKind(legal, PurchaseKind) != []
    requires Greedy(view, legal, roll) == Chosen(a)
    ensures var purchases := OfKind(legal, PurchaseKind);
            exists k :: (0 <= k < |purchases| && purchases[k] == a &&
                         forall j :: 0 <= j < k ==>
                           CardPoints(view, purchases[j]).Success? &&
                           CardPoints(view, purchases[j]).value < CardPoints(view, a).value)
  {
    var purchases := OfKind(legal, PurchaseKind);
    var k := Scan(view, purchases).value.0.value;
    assert a == purchases[k];
    ScanBest(view, purchases);
  }

  /** With a purchase among the legal actions, the agent raises exactly what the first failing card lookup raises. */
  lemma {:induction false} GreedyLookupFails(view: View, legal: seq<Action>, roll: nat)
    requires OfKind(legal, PurchaseKind) != []
    ensures var purchases := OfKind(legal, PurchaseKind);
      Greedy(view, legal, roll).Failed? <==> exists j :: 0 <= j < |purchases| && CardPoints(view, purchases[j]).Failure?
    ensures var purchases := OfKind(legal, PurchaseKind);
      Greedy(view, legal, roll).Failed? ==>
        exists k :: (0 <= k < |purchases| && CardPoints(view, purchases[k]) == Failure(Greedy(view, legal, roll).error) &&
                     forall j :: 0 <= j < k ==> CardPoints(view, purchases[j]).Success?)
  {
    var purchases := OfKind(legal, PurchaseKind);
    ScanSucceedsIff(view, purchases);
    if Scan(view, purchases).Failure? {
      ScanFirstFailure(view, purchases);
    }
  }

  /** Without a purchase, a `take_diff` action is taken if any is legal: one taking the most colours, the first such. */
  lemma {:induction false} GreedyWidestTake(view: View, legal: seq<Action>, roll: nat)
    requires OfKind(legal, PurchaseKind) == [] && OfKind(legal, TakeDiffKind) != []
    ensures Greedy(view, legal, roll).Chosen? && Greedy(view, legal, roll).action.move.TakeDiff?
    ensures forall b :: b in legal && b.move.TakeDiff? ==> Width(b) <= Width(Greedy(view, legal, roll).action)
    ensures var takes := OfKind(legal, TakeDiffKind);
            exists k :: (0 <= k < |takes| && takes[k] == Greedy(view, legal, roll).action &&
                         forall j :: 0 <= j < k ==> Width(takes[j]) < Width(takes[k]))
  {
    var takes := OfKind(legal, TakeDiffKind);
    var k := FirstWidest(takes);
    assert Greedy(view, legal, roll) == Chosen(takes[k]);
    assert KindOf(takes[k].move) == TakeDiffKind;
    forall b | b in legal && b.move.TakeDiff?
      ensures Width(b) <= Width(takes[k])
    {
      OfKindMembers(legal, TakeDiffKind, b);
    }
  }

  /** Every element of the list `random.choice` draws from is drawn by some roll. */
  lemma {:induction false} ChoiceReachesAll(xs: seq<Action>, a: Action)
    requires a in xs
    ensures exists roll: nat :: Choice(xs, roll) == a
  {
    var k :| 0 <= k < |xs| && xs[k] == a;
    assert Choice(xs, k) == a;
  }
}
