/**
 * The vending machine's state as a value, and one step function per
 * operation of `Model`: what the object's fields hold after the operation,
 * in terms of what they held before. The class in `VendingModel` performs
 * each operation in place and is proved to agree with these functions.
 */
module Transactions {
  import opened Money

  /** A Java reference that may be null. */
  datatype Option<T> = None | Some(value: T)

  /** The two drinks; `buy` ignores any other product name. */
  datatype Product = Coke | Pepsi

  /** The `lastAction` tags ("Deposit", "Buy", "Cancel"). */
  datatype Action = Deposit | Buy | Cancel

  /** The status line, as a tag: which text the operation put there. */
  datatype Message =
    | Deposited(coin: Coin)
    | Purchased(drink: Product)
    | DepositCanceled(coin: Coin)
    | PurchaseCanceled(drink: Product)

  /**
   * The fields of a `Model` object. `reserve` holds `quartersLeft`,
   * `dimesLeft` and `nickelsLeft`; `lastChange` the three slots of
   * `lastDepositArray`. The display strings are not modelled.
   */
  datatype State = State(
    cokeLeft: int,
    pepsiLeft: int,
    deposited: int,
    cokePrice: int,
    pepsiPrice: int,
    reserve: Coins,
    lastAction: Option<Action>,
    lastDepositMoney: Option<Coin>,
    lastBuyDrink: Option<Product>,
    lastChange: Coins,
    message: Option<Message>)
  {
    function Stock(drink: Product): int
    {
      match drink
      case Coke => cokeLeft
      case Pepsi => pepsiLeft
    }

    function Price(drink: Product): int
    {
      match drink
      case Coke => cokePrice
      case Pepsi => pepsiPrice
    }

    function WithStock(drink: Product, n: int): (t: State)
      ensures t.Stock(drink) == n && t.Stock(Other(drink)) == Stock(Other(drink))
    {
      match drink
      case Coke => this.(cokeLeft := n)
      case Pepsi => this.(pepsiLeft := n)
    }
  }

  function Other(drink: Product): Product
  {
    match drink
    case Coke => Pepsi
    case Pepsi => Coke
  }

  /**
   * A freshly constructed machine. The `dimes` argument is never stored:
   * the dime reserve starts at 0 whatever is passed.
   */
  function Init(quarters: int, dimes: int, nickel: int, cokeBottle: int, pepsiBottle: int,
                cokeCost: int, pepsiCost: int): State
  {
    State(cokeBottle, pepsiBottle, 0, cokeCost, pepsiCost, Coins(quarters, 0, nickel),
          None, None, None, NoCoins, None)
  }

  /**
   * `deposit` of a recognised coin: the deposit grows by the coin's value,
   * that coin's count by one, nothing else is counted differently, and the
   * coin becomes the last action.
   */
  function DepositStep(s: State, coin: Coin): (t: State)
    ensures t.deposited == s.deposited + Value(coin)
    ensures t.reserve.Count(coin) == s.reserve.Count(coin) + 1
    ensures forall other :: other != coin ==> t.reserve.Count(other) == s.reserve.Count(other)
    ensures t.cokeLeft == s.cokeLeft && t.pepsiLeft == s.pepsiLeft
    ensures t.lastAction == Some(Deposit) && t.lastDepositMoney == Some(coin)
    ensures t.lastBuyDrink == s.lastBuyDrink && t.lastChange == s.lastChange
    ensures t.cokePrice == s.cokePrice && t.pepsiPrice == s.pepsiPrice
  {
    s.(deposited := s.deposited + Value(coin),
       reserve := s.reserve.Bump(coin, 1),
       lastDepositMoney := Some(coin),
       message := Some(Deposited(coin)),
       lastAction := Some(Deposit))
  }

  /**
   * `findChange(quarters, dimes, nickels, amount)`: the reserve loses the
   * greedy change computed from the given counts, `lastDepositArray` gets
   * the slots of the branches that ran, and no other field changes.
   */
  function FindChangeStep(s: State, quarters: int, dimes: int, nickels: int, amount: int): (t: State)
    ensures t.reserve.Plus(GreedyChange(quarters, dimes, nickels, amount)) == s.reserve
    ensures s.lastChange == NoCoins ==> t.lastChange == GreedyChange(quarters, dimes, nickels, amount)
    ensures t.(reserve := s.reserve, lastChange := s.lastChange) == s
  {
    s.(reserve := s.reserve.Minus(GreedyChange(quarters, dimes, nickels, amount)),
       lastChange := ChangeRecord(quarters, dimes, nickels, amount, s.lastChange))
  }

  /** The part of a covered purchase before the change is taken; `lastDepositArray` is a new zeroed array. */
  function SellStep(s: State, drink: Product): State
  {
    s.WithStock(drink, s.Stock(drink) - 1).(
      deposited := s.deposited - s.Price(drink),
      lastBuyDrink := Some(drink),
      message := Some(Purchased(drink)),
      lastChange := NoCoins)
  }

  /**
   * `buy(drink)`. With less deposited than the price nothing changes except
   * that the last action is still set to Buy. Otherwise one bottle leaves
   * the stock, the price leaves the deposit, the greedy change for the
   * PRICE (not for the excess) leaves the reserve and is recorded as the
   * last change. Stock is not checked.
   */
  function BuyStep(s: State, drink: Product): (t: State)
    ensures t.lastAction == Some(Buy)
    ensures s.deposited < s.Price(drink) ==> t == s.(lastAction := Some(Buy))
    ensures s.deposited >= s.Price(drink) ==>
      && t.Stock(drink) == s.Stock(drink) - 1
      && t.Stock(Other(drink)) == s.Stock(Other(drink))
      && t.deposited == s.deposited - s.Price(drink)
      && t.lastChange == GreedyChange(s.reserve.quarters, s.reserve.dimes, s.reserve.nickels, s.Price(drink))
      && t.reserve.Plus(t.lastChange) == s.reserve
      && t.lastBuyDrink == Some(drink)
      && t.lastDepositMoney == s.lastDepositMoney
    ensures t.cokePrice == s.cokePrice && t.pepsiPrice == s.pepsiPrice
  {
    if s.deposited >= s.Price(drink) then
      FindChangeStep(SellStep(s, drink), s.reserve.quarters, s.reserve.dimes, s.reserve.nickels, s.Price(drink))
        .(lastAction := Some(Buy))
    else
      s.(lastAction := Some(Buy))
  }

  /**
   * `cancelDeposit(coin)`: one coin of that kind leaves the reserve and its
   * value leaves the deposit; the stocks, the other coins and the memory of
   * the last action stay as they were.
   */
  function CancelDepositStep(s: State, coin: Coin): (t: State)
    ensures t.deposited == s.deposited - Value(coin)
    ensures t.reserve.Count(coin) == s.reserve.Count(coin) - 1
    ensures forall other :: other != coin ==> t.reserve.Count(other) == s.reserve.Count(other)
    ensures t.(deposited := s.deposited, reserve := s.reserve, message := s.message) == s
  {
    s.(reserve := s.reserve.Bump(coin, -1),
       deposited := s.deposited - Value(coin),
       message := Some(DepositCanceled(coin)))
  }

  /**
   * `cancelDrinks(drink)`: the bottle returns to the stock, the price
   * returns to the deposit, and the coins recorded in `lastDepositArray`
   * (whatever purchase recorded them) return to the reserve.
   */
  function CancelDrinksStep(s: State, drink: Product): (t: State)
    ensures t.Stock(drink) == s.Stock(drink) + 1 && t.Stock(Other(drink)) == s.Stock(Other(drink))
    ensures t.deposited == s.deposited + s.Price(drink)
    ensures t.reserve.Minus(s.lastChange) == s.reserve
    ensures t.(cokeLeft := s.cokeLeft, pepsiLeft := s.pepsiLeft, deposited := s.deposited,
               reserve := s.reserve, message := s.message) == s
  {
    s.WithStock(drink, s.Stock(drink) + 1).(
      deposited := s.deposited + s.Price(drink),
      message := Some(PurchaseCanceled(drink)),
      reserve := s.reserve.Plus(s.lastChange))
  }

  /**
   * `cancel` runs without a NullPointerException: some action happened, and
   * the coin or drink it would undo is known.
   */
  predicate CanCancel(s: State)
  {
    && s.lastAction.Some?
    && (s.lastAction.value == Deposit ==> s.lastDepositMoney.Some?)
    && (s.lastAction.value == Buy ==> s.lastBuyDrink.Some?)
  }

  /**
   * `cancel`: undo the last deposit or the last purchase (the last drink
   * bought, even when the most recent Buy was refused), do nothing after a
   * cancel, and record Cancel as the last action.
   */
  function CancelStep(s: State): (t: State)
    requires CanCancel(s)
    ensures t.lastAction == Some(Cancel)
    ensures s.lastAction == Some(Cancel) ==> t == s
  {
    var undone :=
      match s.lastAction.value
      case Cancel => s
      case Deposit => CancelDepositStep(s, s.lastDepositMoney.value)
      case Buy => CancelDrinksStep(s, s.lastBuyDrink.value);
    undone.(lastAction := Some(Cancel))
  }
}
