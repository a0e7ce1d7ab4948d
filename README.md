# Roulette wheel: pocket layout and betting ledger

This project models the verifiable core of a browser roulette table for a
European single-zero wheel. The core has two parts:

- **Layout** (`layout.dfy`). This is the fixed order of the 37 pockets round the
  wheel, the red numbers, and the colour rule: zero is green, a red number is
  red, and every other number is black. It also covers the resolver that turns
  the wheel's final rotation into the winning slice and number.
  - Angles are exact reals measured in turns. One turn is 2π radians, so a
    slice is 1/37 of a turn.
  - The resolver computes `((2π − angle % 2π) % 2π) / slice`, rounded down.
    JavaScript's `%` keeps the sign of the dividend, and the model keeps that
    too.
  - The lemmas prove that the resolver picks the slice the drawing puts under
    the pointer, and no other slice. The canvas draws no pointer: "pointer"
    is this model's name for screen direction 0, the canvas's positive
    x-axis, which is where the resolver reads the result. Where the page
    shows a pointer is decided by markup that this model does not cover.
- **Betting ledger** (`betting.dfy`). This is a `Ledger` class that holds the
  balance, the selected chip, the pending straight-up bets and the wheel's
  rotation. The page's click handlers are its methods:
  - selecting a chip;
  - placing a bet on a pocket;
  - clearing the bets;
  - the spin button's check that at least one bet is down;
  - one animation frame turning the wheel;
  - settling the bets at the end of a spin.

  Stakes leave the balance when a bet is placed. Settling credits 35 times the
  stake of each bet on the winning number. Clearing refunds nothing.

The spin does not run as one atomic step. The spin button only checks the
bets (`StartSpin`). Frames turn the wheel (`Rotate`), and `Finalize` settles
later. A caller can therefore place or clear bets between these steps. A
second spin can also be started before the first one ends. The page has no
guard against either, and the model adds none.

The code lacks three things a reader might expect of a roulette page, and the
model follows the code:

- The code has no "already spinning" guard.
- No ball is modelled. The wheel's rotation alone decides the result.
- A settlement credits the summed payout only when that sum is positive
  (`if (payout>0)`). This matters only for chips with negative values. Because
  of it, the balance can never go below zero, whatever values the chips have.

## Model

| member | source | states |
|---|---|---|
| `Layout.WheelIsPermutation` | script.js:2 | the wheel order has 37 entries with 0 on slice 0; the entries are pairwise distinct and they are exactly the numbers 0..36 |
| `Layout.RedsAreNumbers` | script.js:3 | the red set has 18 members, all between 1 and 36 |
| `Layout.RedsAreTheRedNumbers` | script.js:21 | the numbers 1..36 that the colour rule calls red are exactly the red set |
| `Layout.BlacksAreTheRest` | script.js:21 | the numbers 1..36 that the colour rule calls black are exactly the numbers 1..36 outside the red set |
| `Layout.ColourCounts` | script.js:64 | zero is green; no number in 1..36 is green; 18 of them are red and 18 are black |
| `Layout.TurnRem` | script.js:94 | JavaScript's `%` by one turn: the result lies strictly between -1 and 1, has the sign of the dividend, and differs from it by a whole number of turns |
| `Layout.PointerTurn` | script.js:94 | the pointer's offset from the start of slice 0 lies in [0, 1) of a turn, and it completes the wheel's rotation to a whole number of turns |
| `Layout.PointerTurnIsUnique` | script.js:94 | any offset in [0, 1) that completes the rotation to whole turns is that pointer offset |
| `Layout.WinningIndex` | script.js:94 | the winning index is in [0, 37), and its slice's share of a turn contains the pointer offset |
| `Layout.WholeTurnsDoNotMatter` | script.js:94 | adding any whole number of turns to the rotation leaves the winning index unchanged |
| `Layout.ResolverAgreesWithDrawing` | script.js:59-63 | a slice drawn on the rotated wheel covers the pointer if and only if it is the slice the resolver picks |
| `Layout.WinningNumber` | script.js:95 | the winning number is a wheel entry in 0..36 |
| `Layout.UnrotatedWheelShowsZero` | script.js:94-95 | an unrotated wheel stops on index 0, number 0, coloured green |
| `Betting.StakedOnAppend` | script.js:98 | appending a bet adds its amount to the total staked on its own pocket, whatever that pocket already carries, and leaves other pockets' totals as they were; it also adds the amount to the grand total |
| `Betting.PositiveStakesPayIffHit` | script.js:98-99 | with positive stakes, a number's stake is positive if and only if some bet names that number; the credit is then exactly 35 times that stake |
| `Betting.NoHitNoStake` | script.js:98-99 | whatever the sign of the amounts, a number that no bet names has a stake of 0 and credits nothing |
| `Betting.StakedOnAtMostStaked` | script.js:98 | with stakes that are not negative, the stake on one number lies between 0 and the total stake |
| `Betting.OffWheelBetNeverPays` | script.js:44 | a bet on a value outside 0..36 never changes what any spin credits |
| `Betting.Payout` | script.js:97-98 | the payout loop returns 35 times the total staked on the winning number |
| `Betting.Ledger.constructor` | script.js:13-15 | a new table has balance 1000, no chip and no bets, and the wheel is unrotated |
| `Betting.Ledger.SelectChip` | script.js:33 | the selected chip becomes the stake of later bets |
| `Betting.Ledger.PlaceBet` | script.js:42-50 | with no chip or a zero chip the bet is refused; a chip worth more than the balance is also refused; a refused bet changes nothing; otherwise the balance drops by exactly the chip value and exactly one bet `(pocket, chip value)` is appended, leaving earlier bets unchanged; the balance stays non-negative, and the balance plus all stakes is conserved |
| `Betting.Ledger.Clear` | script.js:37-40 | all bets are dropped and the balance is unchanged, so the player loses exactly the pending stakes |
| `Betting.Ledger.StartSpin` | script.js:78 | a spin starts if and only if at least one bet is down, and starting it changes no ledger state |
| `Betting.Ledger.Rotate` | script.js:85 | an animation frame advances the wheel's rotation by the frame's increment |
| `Betting.Ledger.Settle` | script.js:97-101 | the balance rises by exactly the credit for the bets on the winning number, the returned payout is 35 times their stake, the balance stays non-negative, and the bets are emptied whatever the result; when no bet names the winning number the balance is unchanged |
| `Betting.Ledger.Finalize` | script.js:93-101 | the winning number is the wheel entry under the pointer for the current rotation; the bets are then settled against it as `Settle` states, so with no bet on that number the balance is unchanged |
| `Betting.StraightUpRound` | script.js:42-101 | starting from 1000 with a 50 chip on 17, a result of 17 leaves 2700, any other result leaves 950, and no bets remain in either case |

## Left out

- Canvas drawing, the pocket table's DOM construction, highlight classes, event wiring, `alert` messages and text updates are left out. They are presentation only.
- Sound effects are left out. Playing audio has no effect on the ledger.
- The spin animation is left out: the random initial speed, `performance.now`, frame scheduling, the decay of the speed and the stop test. These are floating-point, random and host-scheduled. Each frame's change of angle is the input `delta` of `Rotate`.
- Floating-point rounding is left out. Angles are exact reals in turns, so the model cannot show a double rounding onto a slice boundary.
- Chip values and stakes are modelled as unbounded integers.
  - A chip's value comes from the page markup, which is not part of this model, so any integer is allowed.
  - A missing chip and a chip value that is not a number are both `None`.
  - Fractional chip values are not modelled.
  - Integers above 2^53, where JavaScript numbers lose precision, are not modelled.
- Pocket values that are not numbers are not modelled as such. A click that reaches the table outside any pocket stakes on `NaN`, which no result equals. The model represents it by any integer outside 0..36, which behaves the same way.
- Page markup is not part of this model. So the model does not say whether a click on the zero pocket reaches the bet handler once or twice.
- `Betting.PositiveStakesPayIffHit`: the "if and only if" and the exact "35 times the stake" credit are proved only for positive stakes. With negative chips the code pays only a positive total, and `Settle` states that general case. The no-match half holds for stakes of any sign and is `Betting.NoHitNoStake`.
