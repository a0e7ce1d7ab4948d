/** The betting ledger of the table: the player's balance, the chip currently
    selected, the straight-up bets placed since the last spin, and the wheel's
    rotation, which decides the winning pocket when a spin ends.

    Stakes are taken from the balance when a bet is placed. Settling credits
    35 times the stake of every bet on the winning number; the stakes
    themselves are never handed back, neither on a win nor when the bets are
    cleared. */
module Betting {
  import opened Layout

  datatype Option<T> = None | Some(value: T)

  /** A straight-up bet: `amount` staked on the single number `pocket`. */
  datatype Bet = Bet(pocket: int, amount: int)

  /** What became of an attempt to place a bet. */
  datatype Placement = Placed | NoChipSelected | InsufficientBalance

  const StartingBalance: int := 1000

  /** A winning straight-up bet is paid 35 to 1. */
  const StraightUpOdds: int := 35

  /** Total of the amounts staked on `bets`. */
  function Staked(bets: seq<Bet>): int
  {
    if bets == [] then 0 else Staked(bets[..|bets| - 1]) + bets[|bets| - 1].amount
  }

  /** Total of the amounts staked on `bets` that name pocket `w`. */
  function StakedOn(bets: seq<Bet>, w: int): int
  {
    if bets == [] then 0
    else
      var last := bets[|bets| - 1];
      StakedOn(bets[..|bets| - 1], w) + (if last.pocket == w then last.amount else 0)
  }

  /** What settling `bets` against winning number `w` credits: the summed
      payout, but only when that sum is positive. */
  function Winnings(bets: seq<Bet>, w: int): int
  {
    var payout := StraightUpOdds * StakedOn(bets, w);
    if payout > 0 then payout else 0
  }

  /** The verdict on placing a bet with chip `chip` against `balance`: no
      chip, or a chip worth nothing, is refused first; then a chip worth more
      than the balance. */
  function PlacementOf(balance: int, chip: Option<int>): Placement
  {
    if chip == None || chip == Some(0) then NoChipSelected
    else if balance < chip.value then InsufficientBalance
    else Placed
  }

  /** Appending a bet adds its amount to the total on its own pocket, however
      many bets that pocket already carries, and leaves other pockets alone. */
  lemma {:induction false} StakedOnAppend(bets: seq<Bet>, b: Bet, w: int)
    ensures StakedOn(bets + [b], w) == StakedOn(bets, w) + (if b.pocket == w then b.amount else 0)
    ensures Staked(bets + [b]) == Staked(bets) + b.amount
  {
  }

  /** With positive stakes, a number pays exactly when some bet names it, and
      then the payout is the full 35 times its stake. */
  lemma {:induction false} PositiveStakesPayIffHit(bets: seq<Bet>, w: int)
    requires forall i :: 0 <= i < |bets| ==> bets[i].amount > 0
    ensures StakedOn(bets, w) >= 0
    ensures StakedOn(bets, w) > 0 <==> exists i :: 0 <= i < |bets| && bets[i].pocket == w
    ensures Winnings(bets, w) == StraightUpOdds * StakedOn(bets, w)
  {
    if bets != [] {
      var init := bets[..|bets| - 1];
      PositiveStakesPayIffHit(init, w);
      if exists i :: 0 <= i < |init| && init[i].pocket == w {
        var i :| 0 <= i < |init| && init[i].pocket == w;
        assert bets[i].pocket == w;
      }
      if exists i :: 0 <= i < |bets| && bets[i].pocket == w {
        var i :| 0 <= i < |bets| && bets[i].pocket == w;
        if i < |init| {
          assert init[i].pocket == w;
        }
      }
    }
  }

  /** Whatever the amounts, a number that no bet names has nothing staked on
      it, so it credits nothing. */
  lemma {:induction false} NoHitNoStake(bets: seq<Bet>, w: int)
    requires forall i :: 0 <= i < |bets| ==> bets[i].pocket != w
    ensures StakedOn(bets, w) == 0 && Winnings(bets, w) == 0
  {
    if bets != [] {
      NoHitNoStake(bets[..|bets| - 1], w);
    }
  }

  /** With stakes that are not negative, the stake on one number never
      exceeds the total stake. */
  lemma {:induction false} StakedOnAtMostStaked(bets: seq<Bet>, w: int)
    requires forall i :: 0 <= i < |bets| ==> bets[i].amount >= 0
    ensures 0 <= StakedOn(bets, w) <= Staked(bets)
  {
    if bets != [] {
      StakedOnAtMostStaked(bets[..|bets| - 1], w);
    }
  }

  /** A bet that names no pocket of the wheel (a number outside 0..36) never
      changes what any spin credits. */
  lemma OffWheelBetNeverPays(bets: seq<Bet>, b: Bet, turns: real)
    requires !(0 <= b.pocket <= 36)
    ensures Winnings(bets + [b], WinningNumber(turns)) == Winnings(bets, WinningNumber(turns))
  {
    StakedOnAppend(bets, b, WinningNumber(turns));
  }

  /** The payout loop of a settlement: walks the bets in order, adding 35
      times the amount of each bet on `winNum`. */
  method Payout(bets: seq<Bet>, winNum: int) returns (payout: int)
    ensures payout == StraightUpOdds * StakedOn(bets, winNum)
  {
    payout := 0;
    var i := 0;
    while i < |bets|
      invariant 0 <= i <= |bets|
      invariant payout == StraightUpOdds * StakedOn(bets[..i], winNum)
    {
      StakedOnAppend(bets[..i], bets[i], winNum);
      assert bets[..i + 1] == bets[..i] + [bets[i]];
      if bets[i].pocket == winNum {
        payout := payout + bets[i].amount * StraightUpOdds;
      }
      i := i + 1;
    }
    assert bets[..i] == bets;
  }

  class Ledger {
    var balance: int
    /** The selected chip's value; None when no chip is selected or its value
        is not a number. */
    var currentBet: Option<int>
    var bets: seq<Bet>
    /** The wheel's rotation in turns. */
    var turns: real

    /** The balance is never negative. */
    ghost predicate Valid()
      reads this
    {
      balance >= 0
    }

    /** Money the player holds or has on the table. */
    ghost function Holdings(): int
      reads this
    {
      balance + Staked(bets)
    }

    constructor ()
      ensures Valid()
      ensures balance == StartingBalance && currentBet == None && bets == [] && turns == 0.0
    {
      balance := StartingBalance;
      currentBet := None;
      bets := [];
      turns := 0.0;
    }

    /** Clicking a chip makes its value the stake of later bets. */
    method SelectChip(chip: Option<int>)
      modifies this`currentBet
      ensures currentBet == chip
    {
      currentBet := chip;
    }

    /** Clicking a pocket: refused without a chip or when the chip is worth
        more than the balance; otherwise the chip's value leaves the balance
        and the bet joins the end of the list. */
    method PlaceBet(pocket: int) returns (outcome: Placement)
      requires Valid()
      modifies this`balance, this`bets
      ensures Valid()
      ensures outcome == PlacementOf(old(balance), currentBet)
      ensures outcome == Placed ==>
        balance == old(balance) - currentBet.value && bets == old(bets) + [Bet(pocket, currentBet.value)]
      ensures outcome != Placed ==> balance == old(balance) && bets == old(bets)
      ensures Holdings() == old(Holdings())
    {
      if currentBet == None || currentBet == Some(0) {
        return NoChipSelected;
      }
      if balance < currentBet.value {
        return InsufficientBalance;
      }
      StakedOnAppend(bets, Bet(pocket, currentBet.value), 0);
      balance := balance - currentBet.value;
      bets := bets + [Bet(pocket, currentBet.value)];
      outcome := Placed;
    }

    /** The clear button: every pending bet is dropped and nothing is refunded. */
    method Clear()
      requires Valid()
      modifies this`bets
      ensures Valid()
      ensures bets == [] && balance == old(balance)
      ensures Holdings() == old(Holdings()) - old(Staked(bets))
    {
      bets := [];
    }

    /** The spin button starts the wheel only when at least one bet is down;
        starting the animation changes none of the ledger's state. */
    method StartSpin() returns (started: bool)
      ensures started <==> |bets| > 0
    {
      started := |bets| != 0;
    }

    /** One frame of the animation turns the wheel by `delta` turns. */
    method Rotate(delta: real)
      modifies this`turns
      ensures turns == old(turns) + delta
    {
      turns := turns + delta;
    }

    /** Settle against `winNum`: credit 35 times the stake of every bet on it
        when that payout is positive, then drop all bets. */
    method Settle(winNum: int) returns (payout: int)
      requires Valid()
      modifies this`balance, this`bets
      ensures Valid()
      ensures payout == StraightUpOdds * StakedOn(old(bets), winNum)
      ensures balance == old(balance) + Winnings(old(bets), winNum)
      ensures (forall i :: 0 <= i < |old(bets)| ==> old(bets)[i].pocket != winNum) ==> balance == old(balance)
      ensures bets == []
    {
      if forall i :: 0 <= i < |bets| ==> bets[i].pocket != winNum {
        NoHitNoStake(bets, winNum);
      }
      payout := Payout(bets, winNum);
      if payout > 0 {
        balance := balance + payout;
      }
      bets := [];
    }

    /** The end of a spin: read the winning number off the wheel's rotation,
        then settle the bets against it. */
    method Finalize() returns (winNum: int, payout: int)
      requires Valid()
      modifies this`balance, this`bets
      ensures Valid()
      ensures winNum == WinningNumber(turns) && winNum in Wheel
      ensures payout == StraightUpOdds * StakedOn(old(bets), winNum)
      ensures balance == old(balance) + Winnings(old(bets), winNum)
      ensures (forall i :: 0 <= i < |old(bets)| ==> old(bets)[i].pocket != winNum) ==> balance == old(balance)
      ensures bets == []
    {
      var idx := WinningIndex(turns);
      WheelIsPermutation();
      winNum := Wheel[idx];
      payout := Settle(winNum);
    }
  }

  /** A fresh table, a 50 chip on 17: a spin on 17 leaves 1000 - 50 + 35 * 50,
      any other number leaves 950, and the bets are gone either way. */
  method StraightUpRound(winNum: int) returns (balance: int, pending: nat)
    ensures balance == if winNum == 17 then 2700 else 950
    ensures pending == 0
  {
    var ledger := new Ledger();
    ledger.SelectChip(Some(50));
    var placed := ledger.PlaceBet(17);
    assert ledger.bets == [Bet(17, 50)];
    var payout := ledger.Settle(winNum);
    balance, pending := ledger.balance, |ledger.bets|;
  }
}
