# Vending machine transaction engine

A Dafny model of `vendingMachine.Model`, the engine of a simulated drinks
machine. The machine holds two drinks, Coke and Pepsi, at fixed prices. It
keeps a reserve of quarters, dimes and nickels and the customer's running
deposit in cents. It remembers only the last press (Deposit, Buy or Cancel)
with the coin, the drink and the change that press involved. Three buttons
drive it:

- `deposit` adds a coin;
- `buy` sells a drink when the deposit covers its price and takes "change"
  for the price out of the reserve, greedily from quarters to nickels;
- `cancel` undoes the single most recent deposit or purchase.

Layout:

- `money.dfy` (module `Money`): coins, per-denomination counts, and the
  greedy change computation of `findChange` as pure functions, with its
  bounds.
- `transactions.dfy` (module `Transactions`): the object's fields as a
  value (`State`) and one step function per operation, saying what every
  field holds afterwards.
- `properties.dfy` (module `Properties`): what holds across operations.
  A cancel undoes the deposit or purchase before it. A second cancel
  changes nothing. A refused purchase changes no count. The solvency
  invariant (deposit, coins and recorded change never negative) is kept by
  every press and by every run of presses. The worked examples are also
  here.
- `model.dfy` (module `VendingModel`): class `Model` with the Java fields,
  updated in place by methods that mirror the Java ones. Each method is
  proved to leave `Snapshot()` equal to the matching step function of the
  old snapshot. `Deposit`, `Buy` and `Cancel` also preserve `Solvent`.

Behaviour reproduced as the code has it:

- The constructor never stores its `dimes` argument, so the machine starts
  with no dimes.
- `buy` records Buy as the last action even when it refuses the purchase.
  A later `cancel` then undoes the last successful purchase, a second time
  if it was already cancelled, using the old `lastBuyDrink` and
  `lastDepositArray`.
  Repeating a refused purchase and a cancel credits that purchase again
  on every round, as long as the deposit stays below the refused drink's
  price (`Properties.RepeatedRefusalsRefund`).
- `buy` never checks the stock, which can go negative.
- `findChange` is called with the price, not with the excess deposited.
  Whatever the nickels cannot cover is dropped. Its branches test the
  counts passed in, and each array slot is written only when its branch
  runs.
- Java's `/` truncates toward zero (`Money.Quot`). This matters only for a
  negative price.

A refused purchase still records Buy as the last action
(`Properties.CancelAfterRefusedBuy`). Cancelling a two-quarter purchase
returns the two recorded quarters, so the quarter count goes back to 12, its
value before the purchase (`Properties.ScenarioBuyThenCancel`).

The Java `NullPointerException`s become the precondition
`Transactions.CanCancel` of `cancel`. They happen when:

- nothing has been pressed yet;
- the last press was Buy but no purchase ever succeeded;
- the last press was Deposit but no coin was ever recognised (not possible
  with the three-coin model).

Non-negativity (`Properties.Solvent`) needs non-negative prices. With a
negative price, a refused purchase of the other drink followed by a cancel
can drive the deposit below zero.

## Model

| member | source | states |
|---|---|---|
| `Money.GreedyChange` | vendingMachine/Model.java:197-216 | For a non-negative amount, each coin count taken is between 0 and the count available, and the coins taken are worth at most the amount. Quarters, then dimes, then nickels are used up before a smaller coin, or the dropped remainder, covers what one more of them would have. |
| `Money.GreedyChangeExact` | vendingMachine/Model.java:197-216 | For a multiple of 5 cents that the nickels alone could cover, the greedy change is exact. |
| `Money.GreedyChangeShortOffFive` | vendingMachine/Model.java:211-215 | An amount that is not a multiple of 5 cents is never made up exactly: the remainder is dropped. |
| `Transactions.DepositStep` | vendingMachine/Model.java:116-136 | A deposit raises the deposit by the coin's value and that coin's count by one. Other coins and both stocks are unchanged, and Deposit with that coin becomes the last action. |
| `Transactions.FindChangeStep` | vendingMachine/Model.java:197-216 | The reserve loses exactly the greedy change and no other field changes. Starting from a zeroed array, the array records exactly the coins removed. |
| `Transactions.BuyStep` | vendingMachine/Model.java:138-163 | A refused purchase only sets the last action to Buy. A covered one lowers that drink's stock by 1 and the deposit by its price, and leaves the other stock alone. Its recorded change is the greedy change for the price, and reserve plus recorded change equals the old reserve. The drink becomes `lastBuyDrink`; `lastDepositMoney` and the prices stay. |
| `Transactions.CancelDepositStep` | vendingMachine/Model.java:238-257 | One coin of the kind and its value leave the machine. Nothing else changes but the message. |
| `Transactions.CancelDrinksStep` | vendingMachine/Model.java:217-236 | The drink's stock rises by 1, the deposit by its price, and the reserve by the recorded change. Nothing else changes but the message; in particular the last action, `lastBuyDrink`, `lastDepositMoney` and the recorded change stay. |
| `Transactions.CancelStep` | vendingMachine/Model.java:165-176 | Cancel always becomes the last action. After a cancel, nothing else changes. |
| `Properties.InitSolvent` | vendingMachine/Model.java:76-85 | A new machine is solvent exactly when its quarters, nickels and prices are non-negative; the dimes argument plays no part. |
| `Properties.DepositKeepsSolvent` | vendingMachine/Model.java:116-136 | A deposit keeps the deposit, coin counts and recorded change non-negative. |
| `Properties.BuyKeepsSolvent` | vendingMachine/Model.java:138-163 | A purchase, refused or not, keeps them non-negative; the greedy change never overdraws a coin. |
| `Properties.CancelKeepsSolvent` | vendingMachine/Model.java:165-176 | A cancel keeps them non-negative. |
| `Properties.DepositThenCancel` | vendingMachine/Model.java:238-257 | Depositing a coin and then cancelling restores the deposit, all three coin counts and both stocks. |
| `Properties.BuyThenCancel` | vendingMachine/Model.java:217-236 | A covered purchase followed by cancel restores both stocks, the deposit and all three coin counts, using the recorded change. |
| `Properties.CancelTwice` | vendingMachine/Model.java:165-176 | A cancel right after a cancel leaves the whole state unchanged. |
| `Properties.RefusedBuyChangesNoCount` | vendingMachine/Model.java:138-163 | A purchase the deposit does not cover changes no stock, deposit, coin count, recorded change or message, yet the last action becomes Buy. |
| `Properties.CancelAfterRefusedBuy` | vendingMachine/Model.java:160-176 | After a refused purchase, cancel undoes the last successful purchase (a second time if it was already cancelled): that drink +1, its price credited, old recorded change added to the reserve. |
| `Properties.RepeatedRefusalsRefund` | vendingMachine/Model.java:160-176 | Alternating `n` refused purchases with cancels, with nothing deposited, raises the last purchased drink's stock by `n`, the deposit by `n` times its price and each coin count by `n` times the recorded change. |
| `Properties.StockNotProtected` | vendingMachine/Model.java:150-153 | A covered purchase of a sold-out drink leaves its stock at -1. |
| `Properties.RunKeepsSolvent` | vendingMachine/Model.java:116-257 | Any sequence of presses that raises no exception keeps a solvent machine solvent. |
| `Properties.ReachableNonNegative` | vendingMachine/Model.java:76-257 | Every state reachable from a machine built with non-negative quarters, nickels and prices has a non-negative deposit and coin counts. |
| `Properties.ExampleMachine` | vendingMachine/Model.java:76-85 | A machine built with ten of every coin has ten quarters, ten nickels and no dimes. |
| `Properties.ScenarioBuyThenCancel` | vendingMachine/Model.java:116-236 | Two quarters buy a 50-cent Coke: stock 9, deposit 0, change two quarters, quarters back at 10. Cancelling gives stock 10, deposit 50, quarters 12. |
| `Properties.ScenarioRefusedBuy` | vendingMachine/Model.java:150-163 | One quarter does not buy a 50-cent Coke: stock stays 10, the deposit stays 25. |
| `Properties.ScenarioDimeCancelled` | vendingMachine/Model.java:165-176 | A dime deposited then cancelled leaves deposit 0 and no dimes. |
| `VendingModel.Model.constructor` | vendingMachine/Model.java:76-85 | The new object's state is the initial state: nothing deposited, no last action, zeroed array, and no dimes whatever is passed. |
| `VendingModel.Model.GetCokeLeft` | vendingMachine/Model.java:96-98 | Returns the Coke stock. |
| `VendingModel.Model.GetPepsiLeft` | vendingMachine/Model.java:100-102 | Returns the Pepsi stock. |
| `VendingModel.Model.Deposit` | vendingMachine/Model.java:116-136 | The new state is `DepositStep` of the old one, and solvency is kept. |
| `VendingModel.Model.Buy` | vendingMachine/Model.java:138-163 | The new state is `BuyStep` of the old one. A covered purchase installs a fresh array; a refused one keeps the old array. Solvency is kept. |
| `VendingModel.Model.Sell` | vendingMachine/Model.java:141-158 | The covered-purchase block: `SellStep` followed by `FindChangeStep` for the price, on a fresh zeroed array. |
| `VendingModel.Model.Cancel` | vendingMachine/Model.java:165-176 | Given `CanCancel`, the new state is `CancelStep` of the old one, and solvency is kept. |
| `VendingModel.Model.FindChange` | vendingMachine/Model.java:197-216 | The new state is `FindChangeStep` of the old one for the counts and amount passed in. |
| `VendingModel.Model.CancelDrinks` | vendingMachine/Model.java:217-236 | The new state is `CancelDrinksStep` of the old one. |
| `VendingModel.Model.CancelDeposit` | vendingMachine/Model.java:238-257 | The new state is `CancelDepositStep` of the old one. |

## Left out

- `VendingModel.Model.Deposit` accepts only quarters, dimes and nickels. The Java method adds any amount to `intDeposited` and counts it as a coin only when it is 25, 10 or 5. Any other amount still sets the last action to Deposit without recording a coin. A later cancel then takes back the previously recorded coin, or throws when none was recorded.
- `VendingModel.Model.Buy` takes only Coke or Pepsi. For any other product name the Java method only sets the last action to Buy.
- `VendingModel.Model.Cancel` requires `CanCancel`, so the `NullPointerException`s of `cancel`, `cancelDeposit` and `cancelDrinks` are left out rather than modelled.
- The View: `addView` and the `view.update()` calls after each press only notify the display.
- The display strings: `deposited`, `cokePrice`, `pepsiPrice`, `getDeposited`, `getCokePrice`, `getPepsiPrice`, `getMessage`, `toString`. The message is kept only as a tag saying which text was set.
- 32-bit overflow of the `int` counters. The model's integers are unbounded; the amounts involved stay far below 2^31.
- `Application.java`, which only builds and wires the Model, View and Controller. The View and Controller classes are not part of this model.
