/**
 * The betting ledger of the timba plugin (minqlx/timba.py): bets are taken
 * while betting is open, each player holding at most one bet, and settled
 * at game end against the player's credits.
 */
module Timba {
  import opened Options
  import opened Decimal

  /** Credits of a player the ledger has not seen yet. */
  const STARTING_CREDITS: int := 5000

  datatype Team = Red | Blue

  /** One entry of `current_bets`. */
  datatype Bet = Bet(team: Team, amount: nat)

  /** What `cmd_timba` tells the player; the credits shown are `current_credits`. */
  datatype Reply =
    | BettingClosed(credits: int)
    | Balance(credits: int)
    | Usage(credits: int)
    | NotEnough(credits: int)
    | BetRemoved
    | BetPlaced(amount: nat, team: Team, left: int)

  /** `credits.setdefault(p, STARTING_CREDITS)`: the map after the call ... */
  function SetDefault(credits: map<int, int>, p: int): (r: map<int, int>)
    ensures r.Keys == credits.Keys + {p}
    ensures forall q :: q in credits ==> r[q] == credits[q]
    ensures p !in credits ==> r[p] == STARTING_CREDITS
  {
    if p in credits then credits else credits[p := STARTING_CREDITS]
  }

  /** ... and the value it returns. */
  function CreditsOf(credits: map<int, int>, p: int): int {
    if p in credits then credits[p] else STARTING_CREDITS
  }

  /** `msg[1] in valid_teams and msg[2].isdigit()` with at least three words. */
  predicate WellFormed(msg: seq<string>) {
    |msg| >= 3 && (msg[1] == "red" || msg[1] == "blue") && IsDigits(msg[2])
  }

  /**
   * The reply of `cmd_timba`, branch by branch in the order the handler
   * tests them, for a player with `current` credits who `hasBet` or not.
   */
  function Decide(open: bool, current: int, hasBet: bool, msg: seq<string>): Reply {
    if !open then BettingClosed(current)
    else if |msg| == 1 then Balance(current)
    else if !WellFormed(msg) then Usage(current)
    else
      var amount := ParseDigits(msg[2]);
      var team := if msg[1] == "red" then Red else Blue;
      if current < amount then NotEnough(current)
      else if amount == 0 && hasBet then BetRemoved
      else BetPlaced(amount, team, current - amount)
  }

  /** `current_bets` after a reply to player `p`: only removal and placement change it. */
  function BetsAfter(bets: map<int, Bet>, p: int, reply: Reply): map<int, Bet> {
    match reply
    case BetRemoved => bets - {p}
    case BetPlaced(amount, team, _) => bets[p := Bet(team, amount)]
    case _ => bets
  }

  predicate Distinct(s: seq<int>) {
    forall i, j :: 0 <= i < j < |s| ==> s[i] != s[j]
  }

  /** `order` lists the keys of `bets` once each, in the dict's insertion order. */
  ghost predicate KeyOrder(bets: map<int, Bet>, order: seq<int>) {
    Distinct(order) && forall q :: q in bets <==> q in order
  }

  /** `order` without `x`, the rest in the same order. */
  function Without(order: seq<int>, x: int): (r: seq<int>)
    ensures forall y :: y in r <==> y in order && y != x
    ensures Distinct(order) ==> Distinct(r)
  {
    if order == [] then []
    else
      var rest := Without(order[1..], x);
      if order[0] == x then rest
      else
        assert Distinct(order) ==> order[0] !in order[1..];
        [order[0]] + rest
  }

  /**
   * The key order after a reply to player `p`: `pop` removes the key, and
   * assigning a new key appends it while replacing a bet keeps its place.
   */
  function OrderAfter(order: seq<int>, bets: map<int, Bet>, p: int, reply: Reply): seq<int> {
    match reply
    case BetRemoved => Without(order, p)
    case BetPlaced(_, _, _) => if p in bets then order else order + [p]
    case _ => order
  }

  lemma OrderAfterKeyOrder(order: seq<int>, bets: map<int, Bet>, p: int, reply: Reply)
    requires KeyOrder(bets, order)
    ensures KeyOrder(BetsAfter(bets, p, reply), OrderAfter(order, bets, p, reply))
  {
    if reply.BetPlaced? && p !in bets {
      var o := order + [p];
      forall i, j | 0 <= i < j < |o| ensures o[i] != o[j] {
        if j == |order| {
          assert o[i] == order[i];
        }
      }
    }
  }

  /** Every bettor has a credits entry that covers the stake. */
  predicate Covered(credits: map<int, int>, bets: map<int, Bet>) {
    forall p :: p in bets ==> p in credits && bets[p].amount <= credits[p]
  }

  predicate NonNegative(credits: map<int, int>) {
    forall p :: p in credits ==> credits[p] >= 0
  }

  /**
   * A command changes the bets only when betting is open, the command is
   * well formed and the amount does not exceed the player's credits; the
   * change is then the removal (amount 0, existing bet) or the placement
   * of exactly the requested bet.
   */
  lemma CmdTimbaGuards(bets: map<int, Bet>, credits: map<int, int>, p: int, open: bool, msg: seq<string>)
    ensures var reply := Decide(open, CreditsOf(credits, p), p in bets, msg);
      (BetsAfter(bets, p, reply) != bets ==>
        open && WellFormed(msg) && ParseDigits(msg[2]) <= CreditsOf(credits, p)) &&
      (reply == BetRemoved <==>
        open && WellFormed(msg) && ParseDigits(msg[2]) == 0 && 0 <= CreditsOf(credits, p) && p in bets) &&
      (reply.BetPlaced? ==>
        WellFormed(msg) && reply.amount == ParseDigits(msg[2]) &&
        reply.team == (if msg[1] == "red" then Red else Blue) &&
        BetsAfter(bets, p, reply) == bets[p := Bet(reply.team, reply.amount)])
  {
    if open && |msg| == 1 {
      assert !WellFormed(msg);
    }
  }

  /** No other player's bet is touched by a command of player `p`. */
  lemma CmdTimbaOthersUnchanged(bets: map<int, Bet>, p: int, reply: Reply, q: int)
    requires q != p
    ensures q in BetsAfter(bets, p, reply) <==> q in bets
    ensures q in bets ==> BetsAfter(bets, p, reply)[q] == bets[q]
  {
  }

  /** Every command keeps each bet covered by its bettor's credits. */
  lemma CmdTimbaKeepsCovered(bets: map<int, Bet>, credits: map<int, int>, p: int, open: bool,
                             msg: seq<string>)
    requires Covered(credits, bets)
    ensures Covered(SetDefault(credits, p),
                    BetsAfter(bets, p, Decide(open, CreditsOf(credits, p), p in bets, msg)))
  {
    var reply := Decide(open, CreditsOf(credits, p), p in bets, msg);
    var c, b := SetDefault(credits, p), BetsAfter(bets, p, reply);
    forall q | q in b
      ensures q in c && b[q].amount <= c[q]
    {
      if q != p {
        CmdTimbaOthersUnchanged(bets, p, reply, q);
      } else if reply.BetPlaced? {
        assert b[q].amount == reply.amount <= CreditsOf(credits, p) == c[p];
      }
    }
  }

  /** `'red' if red_score > blue_score else 'blue'`: a draw goes to blue. */
  function Winner(redScore: int, blueScore: int): (w: Team)
    ensures w == Red <==> redScore > blueScore
  {
    if redScore > blueScore then Red else Blue
  }

  /** The change a settled bet makes: the stake is won or lost. */
  function Delta(bet: Bet, winner: Team): int {
    if bet.team == winner then bet.amount as int else -(bet.amount as int)
  }

  /**
   * The credits after settling every bet: each bettor gains or loses the
   * stake on top of their credits (5000 when unknown); nobody else changes.
   */
  function Settle(credits: map<int, int>, bets: map<int, Bet>, winner: Team): (r: map<int, int>)
    ensures r.Keys == credits.Keys + bets.Keys
    ensures forall p :: p in bets ==> r[p] == CreditsOf(credits, p) + Delta(bets[p], winner)
    ensures forall p :: p in credits && p !in bets ==> r[p] == credits[p]
  {
    map p | p in credits.Keys + bets.Keys ::
      if p in bets then CreditsOf(credits, p) + Delta(bets[p], winner) else credits[p]
  }

  /** The credits after settling the bets of `ids`, in that order. */
  function SettleIn(credits: map<int, int>, bets: map<int, Bet>, winner: Team, ids: seq<int>)
    : map<int, int>
  {
    if ids == [] then credits
    else
      var before := SettleIn(credits, bets, winner, ids[..|ids| - 1]);
      var p := ids[|ids| - 1];
      if p in bets then before[p := CreditsOf(before, p) + Delta(bets[p], winner)] else before
  }

  /** The ids of a list, as a set. */
  function Elements(ids: seq<int>): (r: set<int>)
    ensures forall q :: q in r <==> q in ids
  {
    if ids == [] then {}
    else Elements(ids[..|ids| - 1]) + {ids[|ids| - 1]}
  }

  /** A distinct list without its last id is distinct and lacks that id. */
  lemma DistinctInit(ids: seq<int>)
    requires Distinct(ids) && ids != []
    ensures Distinct(ids[..|ids| - 1]) && ids[|ids| - 1] !in ids[..|ids| - 1]
  {
    var init := ids[..|ids| - 1];
    forall j | 0 <= j < |init| ensures init[j] != ids[|ids| - 1] {
      assert init[j] == ids[j];
    }
  }

  /**
   * Settling the distinct bettors `ids` one by one changes exactly their
   * credits, each by its own stake.
   */
  lemma {:induction false} SettleInPointwise(credits: map<int, int>, bets: map<int, Bet>, winner: Team,
                                             ids: seq<int>)
    requires Distinct(ids) && Elements(ids) <= bets.Keys
    ensures var r := SettleIn(credits, bets, winner, ids);
      (forall q :: q in r <==> q in credits || q in ids) &&
      (forall q :: q in ids ==> r[q] == CreditsOf(credits, q) + Delta(bets[q], winner)) &&
      (forall q :: q in credits && q !in ids ==> r[q] == credits[q])
  {
    if ids != [] {
      var init, p := ids[..|ids| - 1], ids[|ids| - 1];
      DistinctInit(ids);
      assert Elements(init) <= Elements(ids);
      SettleInPointwise(credits, bets, winner, init);
      var before := SettleIn(credits, bets, winner, init);
      assert CreditsOf(before, p) == CreditsOf(credits, p);
      forall q | q in ids
        ensures q == p || q in init
      {
        assert q in Elements(ids);
      }
    }
  }

  /** With the bettors listed once each, the fold visits exactly the bettors. */
  lemma OrderElements(bets: map<int, Bet>, order: seq<int>)
    requires KeyOrder(bets, order)
    ensures Elements(order) == bets.Keys
  {
    forall q | q in bets
      ensures q in Elements(order)
    {
      assert q in order;
    }
  }

  lemma SettleInKeys(credits: map<int, int>, bets: map<int, Bet>, winner: Team, order: seq<int>)
    requires KeyOrder(bets, order)
    ensures SettleIn(credits, bets, winner, order).Keys == Settle(credits, bets, winner).Keys
  {
    OrderElements(bets, order);
    SettleInPointwise(credits, bets, winner, order);
    var r, t := SettleIn(credits, bets, winner, order), Settle(credits, bets, winner);
    forall q | q in r
      ensures q in t
    {
      if q !in credits {
        assert q in Elements(order);
      }
    }
    forall q | q in t
      ensures q in r
    {
      if q !in credits {
        assert q in Elements(order);
      }
    }
  }

  /** Visiting every bet once, in any key order, settles exactly as `Settle` says. */
  lemma SettleInOrder(credits: map<int, int>, bets: map<int, Bet>, winner: Team, order: seq<int>)
    requires KeyOrder(bets, order)
    ensures SettleIn(credits, bets, winner, order) == Settle(credits, bets, winner)
  {
    OrderElements(bets, order);
    SettleInPointwise(credits, bets, winner, order);
    SettleInKeys(credits, bets, winner, order);
    var r, t := SettleIn(credits, bets, winner, order), Settle(credits, bets, winner);
    forall q | q in r
      ensures r[q] == t[q]
    {
      if q in bets {
        assert q in Elements(order);
      }
    }
  }

  /**
   * Settlement never drives anyone's credits below zero: a winner gains,
   * and a loser's stake was covered by their credits.
   */
  lemma SettleKeepsNonNegative(credits: map<int, int>, bets: map<int, Bet>, winner: Team)
    requires NonNegative(credits) && Covered(credits, bets)
    ensures NonNegative(Settle(credits, bets, winner))
  {
    var r := Settle(credits, bets, winner);
    forall p | p in r
      ensures r[p] >= 0
    {
      if p in bets {
        assert CreditsOf(credits, p) == credits[p] >= bets[p].amount;
      }
    }
  }

  class Timba {
    var bettingOpen: bool
    /** `current_bets`: at most one bet per player id. */
    var currentBets: map<int, Bet>
    /** The keys of `current_bets` in insertion order, the order `items()` visits them. */
    var bettors: seq<int>
    var credits: map<int, int>
    var namesById: map<int, string>

    /**
     * The ledger invariant: `bettors` lists each bettor once, and every bet
     * is covered by its bettor's credits.
     */
    ghost predicate Valid()
      reads this
    {
      KeyOrder(currentBets, bettors) && Covered(credits, currentBets)
    }

    /** `__init__`: credits as loaded, or none when the file cannot be read. */
    constructor(stored: Option<map<int, int>>)
      ensures !bettingOpen && currentBets == map[] && bettors == [] && namesById == map[]
      ensures credits == if stored.Some? then stored.value else map[]
      ensures Valid()
    {
      bettingOpen := false;
      currentBets := map[];
      bettors := [];
      credits := if stored.Some? then stored.value else map[];
      namesById := map[];
    }

    /** `handle_game_countdown`: opens betting. */
    method HandleGameCountdown()
      requires Valid()
      modifies this
      ensures Valid()
      ensures bettingOpen
      ensures currentBets == old(currentBets) && bettors == old(bettors)
      ensures credits == old(credits) && namesById == old(namesById)
    {
      bettingOpen := true;
    }

    /** `handle_game_start`: closes betting. */
    method HandleGameStart()
      requires Valid()
      modifies this
      ensures Valid()
      ensures !bettingOpen
      ensures currentBets == old(currentBets) && bettors == old(bettors)
      ensures credits == old(credits) && namesById == old(namesById)
    {
      bettingOpen := false;
    }

    /**
     * The settlement loop of `handle_game_end`: visits the bets in insertion
     * order and adds or subtracts each stake from the bettor's credits,
     * starting from 5000 for a bettor without credits.
     */
    method SettleBets(winner: Team)
      requires KeyOrder(currentBets, bettors)
      modifies this
      ensures credits == Settle(old(credits), currentBets, winner)
      ensures bettingOpen == old(bettingOpen) && namesById == old(namesById)
      ensures currentBets == old(currentBets) && bettors == old(bettors)
    {
      var bets, order, ledger := currentBets, bettors, credits;
      var i := 0;
      while i < |order|
        modifies {}
        invariant i <= |order|
        invariant ledger == SettleIn(credits, bets, winner, order[..i])
      {
        var p := order[i];
        assert order[..i + 1][..i] == order[..i];
        assert p in order;
        var bet := bets[p];
        var delta := if bet.team == winner then bet.amount as int else -(bet.amount as int);
        ledger := ledger[p := CreditsOf(ledger, p) + delta];
        i := i + 1;
      }
      assert order[..i] == order;
      SettleInOrder(credits, bets, winner, order);
      credits := ledger;
    }

    /**
     * `handle_game_end`: closes betting, settles every bet unless the game
     * was aborted, and clears the bets. Returns the ids that bet on the
     * winner and those that did not (both empty for an aborted game).
     */
    method HandleGameEnd(aborted: bool, redScore: int, blueScore: int)
      returns (winnerIds: set<int>, loserIds: set<int>)
      requires Valid()
      modifies this
      ensures Valid()
      ensures !bettingOpen && currentBets == map[] && bettors == [] && namesById == old(namesById)
      ensures aborted ==> credits == old(credits) && winnerIds == {} && loserIds == {}
      ensures !aborted ==> credits == Settle(old(credits), old(currentBets), Winner(redScore, blueScore))
      ensures !aborted ==>
        winnerIds + loserIds == old(currentBets).Keys && winnerIds !! loserIds &&
        forall p :: p in winnerIds <==>
          p in old(currentBets) && old(currentBets)[p].team == Winner(redScore, blueScore)
      ensures NonNegative(old(credits)) ==> NonNegative(credits)
    {
      bettingOpen := false;
      if aborted {
        currentBets := map[];
        bettors := [];
        return {}, {};
      }
      var winner := Winner(redScore, blueScore);
      SettleBets(winner);
      winnerIds := set p | p in currentBets && currentBets[p].team == winner;
      loserIds := currentBets.Keys - winnerIds;
      if NonNegative(old(credits)) {
        SettleKeepsNonNegative(old(credits), currentBets, winner);
      }
      currentBets := map[];
      bettors := [];
    }

    /**
     * The branches of `cmd_timba` once the player's credits are known:
     * replies, and removes, places or replaces the player's bet.
     */
    method Wager(playerId: int, msg: seq<string>) returns (reply: Reply)
      requires playerId in credits
      modifies this
      ensures bettingOpen == old(bettingOpen) && credits == old(credits) && namesById == old(namesById)
      ensures reply == Decide(bettingOpen, credits[playerId], playerId in old(currentBets), msg)
      ensures currentBets == BetsAfter(old(currentBets), playerId, reply)
      ensures bettors == OrderAfter(old(bettors), old(currentBets), playerId, reply)
    {
      var current := credits[playerId];
      if !bettingOpen {
        reply := BettingClosed(current);
      } else if |msg| == 1 {
        reply := Balance(current);
      } else if !WellFormed(msg) {
        reply := Usage(current);
      } else {
        var team := if msg[1] == "red" then Red else Blue;
        var amount := ParseDigits(msg[2]);
        if current < amount {
          reply := NotEnough(current);
        } else if amount == 0 && playerId in currentBets {
          currentBets := currentBets - {playerId};
          bettors := Without(bettors, playerId);
          reply := BetRemoved;
        } else {
          if playerId !in currentBets {
            bettors := bettors + [playerId];
          }
          currentBets := currentBets[playerId := Bet(team, amount)];
          reply := BetPlaced(amount, team, current - amount);
        }
      }
    }

    /**
     * `cmd_timba`: remembers the player's name, gives an unknown player the
     * starting credits, then replies and updates the bets as `Decide` and
     * `BetsAfter` say; credits are never changed by a bet.
     */
    method CmdTimba(playerId: int, cleanName: string, msg: seq<string>) returns (reply: Reply)
      requires Valid()
      modifies this
      ensures Valid()
      ensures namesById == old(namesById)[playerId := cleanName]
      ensures credits == SetDefault(old(credits), playerId)
      ensures bettingOpen == old(bettingOpen)
      ensures reply == Decide(old(bettingOpen), CreditsOf(old(credits), playerId),
                              playerId in old(currentBets), msg)
      ensures currentBets == BetsAfter(old(currentBets), playerId, reply)
      ensures bettors == OrderAfter(old(bettors), old(currentBets), playerId, reply)
      ensures !bettingOpen ==> currentBets == old(currentBets)
    {
      namesById := namesById[playerId := cleanName];
      if playerId !in credits {
        credits := credits[playerId := STARTING_CREDITS];
      }
      reply := Wager(playerId, msg);
      OrderAfterKeyOrder(old(bettors), old(currentBets), playerId, reply);
      CmdTimbaKeepsCovered(old(currentBets), old(credits), playerId, old(bettingOpen), msg);
    }
  }
}
