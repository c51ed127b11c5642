/**
 * `vendingMachine.Model`: the vending machine's transaction engine, an
 * object whose operations update its counters in place. Each method is
 * proved to leave the object in the state the matching step function of
 * `Transactions` computes from the state before, so everything proved in
 * `Properties` holds of the object.
 *
 * Not modelled: the View it notifies after each press, and the display
 * strings (`deposited`, `cokePrice`, `pepsiPrice`, the message texts).
 */
module VendingModel {
  import opened Money
  import opened Transactions
  import opened Properties

  class Model {
    var cokeLeft: int
    var pepsiLeft: int
    /** `intDeposited`: cents deposited and not yet spent. */
    var deposited: int
    const cokePrice: int
    const pepsiPrice: int
    var quartersLeft: int
    var dimesLeft: int
    var nickelsLeft: int
    /** Null (None) until the first press. */
    var lastAction: Option<Action>
    var lastDepositMoney: Option<Coin>
    var lastBuyDrink: Option<Product>
    /** Quarters, dimes and nickels taken by the last successful purchase. */
    var lastDepositArray: array<int>
    var message: Option<Message>

    ghost predicate Valid()
      reads this
    {
      lastDepositArray.Length == 3
    }

    /** The object's fields as a value. */
    ghost function Snapshot(): State
      reads this, lastDepositArray
      requires Valid()
    {
      State(cokeLeft, pepsiLeft, deposited, cokePrice, pepsiPrice,
            Coins(quartersLeft, dimesLeft, nickelsLeft),
            lastAction, lastDepositMoney, lastBuyDrink,
            Coins(lastDepositArray[0], lastDepositArray[1], lastDepositArray[2]),
            message)
    }

    /** The `dimes` argument is never stored: the machine starts with no dimes. */
    constructor (quarters: int, dimes: int, nickel: int, cokeBottle: int, pepsiBottle: int,
                 cokeCost: int, pepsiCost: int)
      ensures Valid() && fresh(lastDepositArray)
      ensures Snapshot() == Init(quarters, dimes, nickel, cokeBottle, pepsiBottle, cokeCost, pepsiCost)
      ensures dimesLeft == 0 && deposited == 0 && lastAction == None
    {
      quartersLeft := quarters;
      dimesLeft := 0;
      nickelsLeft := nickel;
      cokeLeft := cokeBottle;
      pepsiLeft := pepsiBottle;
      cokePrice := cokeCost;
      pepsiPrice := pepsiCost;
      deposited := 0;
      lastAction := None;
      lastDepositMoney := None;
      lastBuyDrink := None;
      message := None;
      lastDepositArray := new int[3](_ => 0);
    }

    method GetCokeLeft() returns (n: int)
      requires Valid()
      ensures n == cokeLeft && n == Snapshot().Stock(Coke)
    {
      n := cokeLeft;
    }

    method GetPepsiLeft() returns (n: int)
      requires Valid()
      ensures n == pepsiLeft && n == Snapshot().Stock(Pepsi)
    {
      n := pepsiLeft;
    }

    /**
     * Deposit a coin. The source takes any amount and adds it to the
     * deposit, counting it as a coin only when it is 25, 10 or 5 cents; the
     * model accepts only those three coins.
     */
    method Deposit(coin: Coin)
      requires Valid()
      modifies this
      ensures Valid() && lastDepositArray == old(lastDepositArray)
      ensures Snapshot() == DepositStep(old(Snapshot()), coin)
      ensures old(Solvent(Snapshot())) ==> Solvent(Snapshot())
    {
      ghost var before := Snapshot();
      deposited := deposited + Value(coin);
      match coin {
        case Quarter => quartersLeft := quartersLeft + 1;
        case Dime => dimesLeft := dimesLeft + 1;
        case Nickel => nickelsLeft := nickelsLeft + 1;
      }
      lastDepositMoney := Some(coin);
      message := Some(Deposited(coin));
      lastAction := Some(Action.Deposit);
      assert Snapshot() == DepositStep(before, coin);
      if Solvent(before) {
        DepositKeepsSolvent(before, coin);
      }
    }

    /**
     * Buy a drink if the deposit covers its price. Buy is recorded as the
     * last action either way.
     */
    method Buy(drink: Product)
      requires Valid()
      modifies this
      ensures Valid()
      ensures Snapshot() == BuyStep(old(Snapshot()), drink)
      ensures old(deposited) >= old(Snapshot()).Price(drink) ==> fresh(lastDepositArray)
      ensures old(deposited) < old(Snapshot()).Price(drink) ==> lastDepositArray == old(lastDepositArray)
      ensures old(Solvent(Snapshot())) ==> Solvent(Snapshot())
    {
      ghost var before := Snapshot();
      if drink == Pepsi {
        if deposited >= pepsiPrice {
          Sell(Pepsi);
        }
      }
      if drink == Coke {
        if deposited >= cokePrice {
          Sell(Coke);
        }
      }
      lastAction := Some(Action.Buy);
      assert Snapshot() == BuyStep(before, drink);
      if Solvent(before) {
        BuyKeepsSolvent(before, drink);
      }
    }

    /**
     * The block `buy` runs (once written for each drink) when the deposit
     * covers the price: one bottle fewer, the price out of the deposit, and
     * a new zeroed `lastDepositArray` that `FindChange` fills with the
     * change taken for the price.
     */
    method Sell(drink: Product)
      requires Valid()
      modifies this
      ensures Valid() && fresh(lastDepositArray)
      ensures Snapshot() == FindChangeStep(SellStep(old(Snapshot()), drink), old(quartersLeft),
                                           old(dimesLeft), old(nickelsLeft), old(Snapshot()).Price(drink))
    {
      ghost var before := Snapshot();
      var price: int;
      match drink {
        case Pepsi =>
          pepsiLeft := pepsiLeft - 1;
          deposited := deposited - pepsiPrice;
          price := pepsiPrice;
        case Coke =>
          cokeLeft := cokeLeft - 1;
          deposited := deposited - cokePrice;
          price := cokePrice;
      }
      lastBuyDrink := Some(drink);
      message := Some(Purchased(drink));
      lastDepositArray := new int[3](_ => 0);
      assert Snapshot() == SellStep(before, drink);
      FindChange(quartersLeft, dimesLeft, nickelsLeft, price);
    }

    /**
     * Undo the last deposit or purchase; after a cancel, do nothing. The
     * source throws a NullPointerException when nothing was pressed yet, and
     * when the last press was a refused Buy and no purchase ever succeeded:
     * `CanCancel` excludes both.
     */
    method Cancel()
      requires Valid() && CanCancel(Snapshot())
      modifies this
      ensures Valid() && lastDepositArray == old(lastDepositArray)
      ensures Snapshot() == CancelStep(old(Snapshot()))
      ensures old(Solvent(Snapshot())) ==> Solvent(Snapshot())
    {
      ghost var before := Snapshot();
      if lastAction != Some(Action.Cancel) {
        if lastAction == Some(Action.Deposit) {
          CancelDeposit(lastDepositMoney.value);
        }
        if lastAction == Some(Action.Buy) {
          CancelDrinks(lastBuyDrink.value);
        }
      }
      lastAction := Some(Action.Cancel);
      assert Snapshot() == CancelStep(before);
      if Solvent(before) {
        CancelKeepsSolvent(before);
      }
    }

    /**
     * Take change for `totalExpenditure` out of the reserve, greedily from
     * quarters to nickels, judging availability by the counts passed in and
     * recording each denomination whose branch runs in `lastDepositArray`.
     */
    method FindChange(quarters: int, dimes: int, nickels: int, totalExpenditure: int)
      requires Valid()
      modifies this, lastDepositArray
      ensures Valid() && lastDepositArray == old(lastDepositArray)
      ensures Snapshot() == FindChangeStep(old(Snapshot()), quarters, dimes, nickels, totalExpenditure)
    {
      ghost var before := Snapshot();
      var remainingChange := totalExpenditure;
      if quarters > 0 {
        var quartersNeed := Min(quarters, Quot(remainingChange, 25));
        remainingChange := remainingChange - quartersNeed * 25;
        quartersLeft := quartersLeft - quartersNeed;
        lastDepositArray[0] := quartersNeed;
      }
      assert Snapshot() == before.(reserve := before.reserve.(quarters := quartersLeft),
                                   lastChange := before.lastChange.(quarters := lastDepositArray[0]));
      if remainingChange > 0 && dimes > 0 {
        var dimesNeed := Min(dimes, Quot(remainingChange, 10));
        remainingChange := remainingChange - dimesNeed * 10;
        dimesLeft := dimesLeft - dimesNeed;
        lastDepositArray[1] := dimesNeed;
      }
      if remainingChange > 0 && nickels > 0 {
        var nickelsNeed := Min(nickels, Quot(remainingChange, 5));
        nickelsLeft := nickelsLeft - nickelsNeed;
        lastDepositArray[2] := nickelsNeed;
      }
    }

    /** Give a drink back: the bottle, its price and the recorded coins return. */
    method CancelDrinks(drink: Product)
      requires Valid()
      modifies this
      ensures Valid() && lastDepositArray == old(lastDepositArray)
      ensures Snapshot() == CancelDrinksStep(old(Snapshot()), drink)
    {
      if drink == Coke {
        cokeLeft := cokeLeft + 1;
        deposited := deposited + cokePrice;
        message := Some(PurchaseCanceled(Coke));
        quartersLeft := quartersLeft + lastDepositArray[0];
        dimesLeft := dimesLeft + lastDepositArray[1];
        nickelsLeft := nickelsLeft + lastDepositArray[2];
      }
      if drink == Pepsi {
        pepsiLeft := pepsiLeft + 1;
        deposited := deposited + pepsiPrice;
        message := Some(PurchaseCanceled(Pepsi));
        quartersLeft := quartersLeft + lastDepositArray[0];
        dimesLeft := dimesLeft + lastDepositArray[1];
        nickelsLeft := nickelsLeft + lastDepositArray[2];
      }
    }

    /** Give a coin back: one coin of that kind and its value leave the machine. */
    method CancelDeposit(moneyType: Coin)
      requires Valid()
      modifies this
      ensures Valid() && lastDepositArray == old(lastDepositArray)
      ensures Snapshot() == CancelDepositStep(old(Snapshot()), moneyType)
    {
      if moneyType == Quarter {
        quartersLeft := quartersLeft - 1;
        deposited := deposited - 25;
        message := Some(DepositCanceled(Quarter));
      }
      if moneyType == Dime {
        dimesLeft := dimesLeft - 1;
        deposited := deposited - 10;
        message := Some(DepositCanceled(Dime));
      }
      if moneyType == Nickel {
        nickelsLeft := nickelsLeft - 1;
        deposited := deposited - 5;
        message := Some(DepositCanceled(Nickel));
      }
    }
  }
}
