/**
 * What the transaction engine guarantees across operations: a cancel undoes
 * the deposit or purchase just before it, a second cancel changes nothing,
 * and money and coin counts never go negative when the prices are not
 * negative. Stock, which `buy` never checks, is not protected.
 */
module Properties {
  import opened Money
  import opened Transactions

  /**
   * The deposit and every coin count are non-negative, and so are the
   * prices and the recorded change that a cancel adds back. After a deposit
   * the machine still holds that coin and its value, so undoing it cannot
   * go below zero.
   */
  ghost predicate Solvent(s: State)
  {
    && s.deposited >= 0
    && s.reserve.NonNegative()
    && s.cokePrice >= 0 && s.pepsiPrice >= 0
    && s.lastChange.NonNegative()
    && (s.lastAction == Some(Deposit) && s.lastDepositMoney.Some? ==>
          s.deposited >= Value(s.lastDepositMoney.value)
          && s.reserve.Count(s.lastDepositMoney.value) >= 1)
  }

  /** A new machine is solvent exactly when its quarters, nickels and prices are not negative (the dimes argument is ignored). */
  lemma InitSolvent(quarters: int, dimes: int, nickel: int, cokeBottle: int, pepsiBottle: int,
                    cokeCost: int, pepsiCost: int)
    ensures Solvent(Init(quarters, dimes, nickel, cokeBottle, pepsiBottle, cokeCost, pepsiCost))
            <==> quarters >= 0 && nickel >= 0 && cokeCost >= 0 && pepsiCost >= 0
  {
  }

  lemma DepositKeepsSolvent(s: State, coin: Coin)
    requires Solvent(s)
    ensures Solvent(DepositStep(s, coin))
  {
  }

  lemma BuyKeepsSolvent(s: State, drink: Product)
    requires Solvent(s)
    ensures Solvent(BuyStep(s, drink))
  {
  }

  lemma CancelKeepsSolvent(s: State)
    requires Solvent(s) && CanCancel(s)
    ensures Solvent(CancelStep(s))
  {
  }

  /** A deposit of a coin followed by a cancel gives back the deposit, the reserve and the stocks as they were. */
  lemma DepositThenCancel(s: State, coin: Coin)
    ensures CanCancel(DepositStep(s, coin))
    ensures var t := CancelStep(DepositStep(s, coin));
      && t.deposited == s.deposited
      && t.reserve == s.reserve
      && t.cokeLeft == s.cokeLeft && t.pepsiLeft == s.pepsiLeft
      && t.lastAction == Some(Cancel)
  {
  }

  /**
   * A purchase the deposit covers, followed by a cancel, gives back both
   * stocks, the deposit and the reserve as they were: the coins recorded in
   * `lastDepositArray` are exactly the ones the purchase removed.
   */
  lemma BuyThenCancel(s: State, drink: Product)
    requires s.deposited >= s.Price(drink)
    ensures CanCancel(BuyStep(s, drink))
    ensures var t := CancelStep(BuyStep(s, drink));
      && t.Stock(Coke) == s.Stock(Coke) && t.Stock(Pepsi) == s.Stock(Pepsi)
      && t.deposited == s.deposited
      && t.reserve == s.reserve
      && t.lastAction == Some(Cancel)
  {
  }

  /** A cancel right after a cancel changes nothing at all. */
  lemma CancelTwice(s: State)
    requires CanCancel(s)
    ensures CanCancel(CancelStep(s))
    ensures CancelStep(CancelStep(s)) == CancelStep(s)
  {
  }

  /** A purchase the deposit does not cover changes no count; it only marks Buy as the last action. */
  lemma RefusedBuyChangesNoCount(s: State, drink: Product)
    requires s.deposited < s.Price(drink)
    ensures var t := BuyStep(s, drink);
      && t.cokeLeft == s.cokeLeft && t.pepsiLeft == s.pepsiLeft
      && t.deposited == s.deposited && t.reserve == s.reserve
      && t.lastChange == s.lastChange && t.message == s.message
      && t.lastAction == Some(Buy)
  {
  }

  /**
   * Because a refused purchase still records Buy, a cancel after it undoes
   * the last successful purchase, a second time if that purchase was already
   * cancelled: the drink comes back, its price is credited, and the coins of
   * the old `lastDepositArray` return to the reserve.
   */
  lemma CancelAfterRefusedBuy(s: State, drink: Product, previous: Product)
    requires s.deposited < s.Price(drink)
    requires s.lastBuyDrink == Some(previous)
    ensures CanCancel(BuyStep(s, drink))
    ensures var t := CancelStep(BuyStep(s, drink));
      && t.Stock(previous) == s.Stock(previous) + 1
      && t.Stock(Other(previous)) == s.Stock(Other(previous))
      && t.deposited == s.deposited + s.Price(previous)
      && t.reserve == s.reserve.Plus(s.lastChange)
      && t.lastBuyDrink == s.lastBuyDrink && t.lastChange == s.lastChange
      && t.cokePrice == s.cokePrice && t.pepsiPrice == s.pepsiPrice
  {
  }

  /** Nothing keeps stock from going negative: a covered purchase of a sold-out drink leaves -1 bottles. */
  lemma StockNotProtected(s: State, drink: Product)
    requires s.Stock(drink) == 0 && s.deposited >= s.Price(drink)
    ensures BuyStep(s, drink).Stock(drink) == -1
  {
  }

  /** A press of one of the machine's buttons. */
  datatype Button = DepositButton(coin: Coin) | BuyButton(drink: Product) | CancelButton

  /** The press can be handled without a NullPointerException. */
  predicate Enabled(s: State, b: Button)
  {
    b.CancelButton? ==> CanCancel(s)
  }

  function Press(s: State, b: Button): State
    requires Enabled(s, b)
  {
    match b
    case DepositButton(coin) => DepositStep(s, coin)
    case BuyButton(drink) => BuyStep(s, drink)
    case CancelButton => CancelStep(s)
  }

  /** Every press in the sequence is enabled in the state the earlier ones lead to. */
  predicate Runnable(s: State, presses: seq<Button>)
    decreases |presses|
  {
    presses == [] || (Enabled(s, presses[0]) && Runnable(Press(s, presses[0]), presses[1..]))
  }

  function Run(s: State, presses: seq<Button>): State
    requires Runnable(s, presses)
    decreases |presses|
  {
    if presses == [] then s else Run(Press(s, presses[0]), presses[1..])
  }

  lemma PressKeepsSolvent(s: State, b: Button)
    requires Solvent(s) && Enabled(s, b)
    ensures Solvent(Press(s, b))
  {
  }

  /** Any run of presses from a solvent state ends in a solvent state. */
  lemma {:induction false} RunKeepsSolvent(s: State, presses: seq<Button>)
    requires Solvent(s) && Runnable(s, presses)
    ensures Solvent(Run(s, presses))
    decreases |presses|
  {
    if presses != [] {
      PressKeepsSolvent(s, presses[0]);
      RunKeepsSolvent(Press(s, presses[0]), presses[1..]);
    }
  }

  /** `n` rounds of a purchase of `refused` followed by a cancel. */
  function RefuseAndCancel(refused: Product, n: nat): seq<Button>
  {
    if n == 0 then [] else [BuyButton(refused), CancelButton] + RefuseAndCancel(refused, n - 1)
  }

  /** The first round of `RefuseAndCancel` takes the machine to the state its rest starts from. */
  lemma OneRound(s: State, refused: Product, n: nat)
    requires n > 0 && s.deposited < s.Price(refused) && s.lastBuyDrink.Some?
    ensures CanCancel(BuyStep(s, refused))
    ensures var c := CancelStep(BuyStep(s, refused));
      && (Runnable(s, RefuseAndCancel(refused, n)) <==> Runnable(c, RefuseAndCancel(refused, n - 1)))
      && (Runnable(c, RefuseAndCancel(refused, n - 1)) ==>
            Run(s, RefuseAndCancel(refused, n)) == Run(c, RefuseAndCancel(refused, n - 1)))
  {
  }

  /**
   * Repeating a refused purchase and a cancel credits the last successful
   * purchase again on every round: after `n` rounds that drink's stock, the
   * deposit and the reserve have grown by `n` times the bottle, the price
   * and the recorded change, though nothing was deposited. The rounds stay
   * refused as long as the growing deposit remains below the refused price.
   */
  lemma {:induction false} RepeatedRefusalsRefund(s: State, refused: Product, previous: Product, n: nat)
    requires s.lastBuyDrink == Some(previous) && s.Price(previous) >= 0
    requires n > 0 ==> s.deposited + (n - 1) * s.Price(previous) < s.Price(refused)
    ensures Runnable(s, RefuseAndCancel(refused, n))
    ensures var t := Run(s, RefuseAndCancel(refused, n));
      && t.Stock(previous) == s.Stock(previous) + n
      && t.deposited == s.deposited + n * s.Price(previous)
      && t.reserve.quarters == s.reserve.quarters + n * s.lastChange.quarters
      && t.reserve.dimes == s.reserve.dimes + n * s.lastChange.dimes
      && t.reserve.nickels == s.reserve.nickels + n * s.lastChange.nickels
      && t.lastBuyDrink == s.lastBuyDrink && t.lastChange == s.lastChange
      && t.cokePrice == s.cokePrice && t.pepsiPrice == s.pepsiPrice
    decreases n
  {
    if n > 0 {
      var price := s.Price(previous);
      NextRound(s.deposited, price, n);
      var b := BuyStep(s, refused);
      CancelAfterRefusedBuy(s, refused, previous);
      var c := CancelStep(b);
      RepeatedRefusalsRefund(c, refused, previous, n - 1);
      OneRound(s, refused, n);
      NextRound(s.reserve.quarters, s.lastChange.quarters, n);
      NextRound(s.reserve.dimes, s.lastChange.dimes, n);
      NextRound(s.reserve.nickels, s.lastChange.nickels, n);
    }
  }

  /** `n` rounds adding `k` each are one round followed by `n - 1` more. */
  lemma NextRound(base: int, k: int, n: nat)
    requires n > 0
    ensures base + k + (n - 1) * k == base + n * k
    ensures n > 1 ==> base + k + (n - 2) * k == base + (n - 1) * k
    ensures k >= 0 ==> (n - 1) * k >= 0
  {
  }

  /**
   * Every state reachable from a machine built with non-negative quarters,
   * nickels and prices has a non-negative deposit and non-negative coin
   * counts.
   */
  lemma ReachableNonNegative(quarters: int, dimes: int, nickel: int, cokeBottle: int, pepsiBottle: int,
                             cokeCost: int, pepsiCost: int, presses: seq<Button>)
    requires quarters >= 0 && nickel >= 0 && cokeCost >= 0 && pepsiCost >= 0
    requires Runnable(Init(quarters, dimes, nickel, cokeBottle, pepsiBottle, cokeCost, pepsiCost), presses)
    ensures var t := Run(Init(quarters, dimes, nickel, cokeBottle, pepsiBottle, cokeCost, pepsiCost), presses);
      t.deposited >= 0 && t.reserve.NonNegative()
  {
    var s := Init(quarters, dimes, nickel, cokeBottle, pepsiBottle, cokeCost, pepsiCost);
    InitSolvent(quarters, dimes, nickel, cokeBottle, pepsiBottle, cokeCost, pepsiCost);
    RunKeepsSolvent(s, presses);
  }

  /**
   * The counters of the machine in the worked examples: ten quarters, ten
   * nickels, no dimes, ten of each drink at 50 cents, nothing deposited.
   */
  predicate ExampleCounters(s: State)
  {
    && s.reserve == Coins(10, 0, 10) && s.deposited == 0
    && s.cokeLeft == 10 && s.pepsiLeft == 10
    && s.cokePrice == 50 && s.pepsiPrice == 50
  }

  /** Building the machine with ten of every coin still leaves it without dimes. */
  lemma ExampleMachine()
    ensures ExampleCounters(Init(10, 10, 10, 10, 10, 50, 50))
  {
  }

  /**
   * Two quarters buy a Coke: the Coke stock drops to 9, nothing is left
   * deposited, and the change for the price is two quarters, so the quarter
   * count is back at 10. Cancelling gives back the Coke and the 50 cents and
   * returns the two recorded quarters: 12, as after the two deposits.
   */
  lemma ScenarioBuyThenCancel(m: State)
    requires ExampleCounters(m)
    ensures var s1 := DepositStep(DepositStep(m, Quarter), Quarter);
      var s2 := BuyStep(s1, Coke);
      var s3 := CancelStep(s2);
      && s1.deposited == 50
      && s2.cokeLeft == 9 && s2.deposited == 0 && s2.lastChange == Coins(2, 0, 0) && s2.reserve == Coins(10, 0, 10)
      && s3.cokeLeft == 10 && s3.deposited == 50 && s3.reserve == Coins(12, 0, 10)
  {
    var s1 := DepositStep(DepositStep(m, Quarter), Quarter);
    assert s1.reserve == Coins(12, 0, 10) && s1.deposited == 50 && s1.cokeLeft == 10 && s1.cokePrice == 50;
    assert GreedyChange(12, 0, 10, 50) == Coins(2, 0, 0);
    BuyThenCancel(s1, Coke);
  }

  /** A quarter does not pay for a 50-cent Coke: nothing is bought and the quarter stays deposited. */
  lemma ScenarioRefusedBuy(m: State)
    requires ExampleCounters(m)
    ensures var s := BuyStep(DepositStep(m, Quarter), Coke);
      s.cokeLeft == 10 && s.deposited == 25
  {
  }

  /** A dime deposited and then cancelled leaves nothing deposited and no dimes. */
  lemma ScenarioDimeCancelled(m: State, afterDeposit: State)
    requires ExampleCounters(m) && afterDeposit == DepositStep(m, Dime)
    ensures CanCancel(afterDeposit)
    ensures var s := CancelStep(afterDeposit);
      s.deposited == 0 && s.reserve.dimes == 0
  {
  }
}
