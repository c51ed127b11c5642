/**
 * The coins a vending machine recognises, counts of coins per denomination,
 * and the greedy change computation of `Model.findChange`.
 *
 * Integers are Java `int`s; the values met here (coin counts, prices in
 * cents) stay far from 2^31, so overflow is not modelled. Java's `/` on
 * `int` truncates toward zero, which `Quot` spells out for negative amounts.
 */
module Money {

  /** The three coins the machine counts; `deposit` only recognises 25, 10 and 5 cents. */
  datatype Coin = Quarter | Dime | Nickel

  /** Face value in cents. */
  function Value(coin: Coin): nat
  {
    match coin
    case Quarter => 25
    case Dime => 10
    case Nickel => 5
  }

  /**
   * A count per denomination: the machine's reserve (`quartersLeft`,
   * `dimesLeft`, `nickelsLeft`) or the three slots of `lastDepositArray`.
   */
  datatype Coins = Coins(quarters: int, dimes: int, nickels: int)
  {
    function Count(coin: Coin): int
    {
      match coin
      case Quarter => quarters
      case Dime => dimes
      case Nickel => nickels
    }

    /** Value in cents of all the coins counted. */
    function Total(): int
    {
      25 * quarters + 10 * dimes + 5 * nickels
    }

    predicate NonNegative()
    {
      quarters >= 0 && dimes >= 0 && nickels >= 0
    }

    /** One more (or, with a negative `k`, fewer) coin of one denomination. */
    function Bump(coin: Coin, k: int): (r: Coins)
      ensures r.Count(coin) == Count(coin) + k
      ensures forall other :: other != coin ==> r.Count(other) == Count(other)
    {
      match coin
      case Quarter => this.(quarters := quarters + k)
      case Dime => this.(dimes := dimes + k)
      case Nickel => this.(nickels := nickels + k)
    }

    function Plus(that: Coins): Coins
    {
      Coins(quarters + that.quarters, dimes + that.dimes, nickels + that.nickels)
    }

    function Minus(that: Coins): Coins
    {
      Coins(quarters - that.quarters, dimes - that.dimes, nickels - that.nickels)
    }
  }

  const NoCoins := Coins(0, 0, 0)

  function Min(a: int, b: int): int
  {
    if a <= b then a else b
  }

  function Max(a: int, b: int): int
  {
    if a <= b then b else a
  }

  /** Java's `a / b` on `int` for `b > 0`: the quotient truncated toward zero. */
  function Quot(a: int, b: int): int
    requires b > 0
  {
    if a >= 0 then a / b else -((-a) / b)
  }

  /**
   * The three slots of `lastDepositArray` after `findChange(quarters, dimes,
   * nickels, amount)` ran on an array holding `before`. Largest coin first,
   * each denomination taking as many coins as are available and fit in what
   * remains; a slot is written only when its branch runs (a branch runs when
   * its coin's count is positive and, for dimes and nickels, something
   * remains). What the nickels cannot cover is dropped.
   */
  function ChangeRecord(quarters: int, dimes: int, nickels: int, amount: int, before: Coins): Coins
  {
    var q := Min(quarters, Quot(amount, 25));
    var afterQuarters := if quarters > 0 then amount - q * 25 else amount;
    var d := Min(dimes, Quot(afterQuarters, 10));
    var afterDimes := if afterQuarters > 0 && dimes > 0 then afterQuarters - d * 10 else afterQuarters;
    var n := Min(nickels, Quot(afterDimes, 5));
    Coins(if quarters > 0 then q else before.quarters,
          if afterQuarters > 0 && dimes > 0 then d else before.dimes,
          if afterDimes > 0 && nickels > 0 then n else before.nickels)
  }

  /**
   * The coins `findChange` takes out of the reserve to make up `amount`: a
   * denomination whose branch does not run takes none, which is also what
   * its slot in a freshly zeroed `lastDepositArray` keeps.
   *
   * For a non-negative amount no count is negative, no denomination takes
   * more coins than are available, the coins taken are worth at most the
   * amount, and each coin (quarters, then dimes, then nickels) is exhausted
   * before a smaller coin, or the dropped remainder, takes what one more of
   * it would have covered.
   */
  function GreedyChange(quarters: int, dimes: int, nickels: int, amount: int): (c: Coins)
    ensures c.quarters <= Max(quarters, 0) && c.dimes <= Max(dimes, 0) && c.nickels <= Max(nickels, 0)
    ensures amount >= 0 ==> c.NonNegative()
    ensures amount >= 0 ==> c.Total() <= amount
    ensures amount >= 0 ==> c.quarters == Max(quarters, 0) || amount - 25 * c.quarters < 25
    ensures amount >= 0 ==> c.dimes == Max(dimes, 0) || amount - 25 * c.quarters - 10 * c.dimes < 10
    ensures amount >= 0 ==> c.nickels == Max(nickels, 0) || amount - c.Total() < 5
  {
    ChangeRecord(quarters, dimes, nickels, amount, NoCoins)
  }

  /**
   * When the nickels alone could cover a multiple of five cents, the greedy
   * change is exact: nothing is dropped.
   */
  lemma GreedyChangeExact(quarters: int, dimes: int, nickels: int, amount: int)
    requires amount >= 0 && amount % 5 == 0
    requires 5 * nickels >= amount
    ensures GreedyChange(quarters, dimes, nickels, amount).Total() == amount
  {
    var c := GreedyChange(quarters, dimes, nickels, amount);
    var rest := amount - 25 * c.quarters - 10 * c.dimes;
    assert rest % 5 == 0 by {
      assert rest == 5 * (amount / 5 - 5 * c.quarters - 2 * c.dimes);
    }
    assert 0 <= rest <= amount;
    if rest > 0 {
      assert c.nickels == Min(nickels, rest / 5);
      assert rest / 5 <= nickels;
    }
  }

  /**
   * Every coin is a multiple of five cents, so an amount that is not is
   * never made up exactly: the greedy change silently falls short.
   */
  lemma GreedyChangeShortOffFive(quarters: int, dimes: int, nickels: int, amount: int)
    requires amount >= 0 && amount % 5 != 0
    ensures GreedyChange(quarters, dimes, nickels, amount).Total() < amount
  {
  }
}
