/** The eating-place strategies. They hold no state; `eat()` names the place,
    and the base strategy only complains that it was not overridden. */
module Strategies {
  import opened Results

  /** The base strategy class and its three subclasses. */
  datatype Strategy = EatingPlaceStrategy | InShopStrategy | InParkStrategy | AtBeachStrategy

  const NotOverridden: string := "This method should be overridden!"

  /** The phrase a strategy's `eat()` returns, or the base class's error. */
  function Eat(s: Strategy): (r: Result<string>)
    ensures r.Err? <==> s == EatingPlaceStrategy
    ensures r.Err? ==> r.message == NotOverridden
    ensures r.Ok? ==> r.value in {"in the shop", "in the park", "at the beach"}
  {
    match s
    case EatingPlaceStrategy => Err(NotOverridden)
    case InShopStrategy => Ok("in the shop")
    case InParkStrategy => Ok("in the park")
    case AtBeachStrategy => Ok("at the beach")
  }

  /** The strategy whose `eat()` returns this phrase, if any: the inverse of Eat. */
  function StrategyOf(phrase: string): (r: Option<Strategy>)
  {
    if phrase == "in the shop" then Some(InShopStrategy)
    else if phrase == "in the park" then Some(InParkStrategy)
    else if phrase == "at the beach" then Some(AtBeachStrategy)
    else None
  }

  /** Every concrete strategy is recovered from its phrase, and every
      recognised phrase comes from its strategy. */
  lemma StrategyOfEat(s: Strategy, phrase: string)
    ensures Eat(s).Ok? ==> StrategyOf(Eat(s).value) == Some(s)
    ensures StrategyOf(phrase).Some? ==> Eat(StrategyOf(phrase).value) == Ok(phrase)
  {
    assert "in the shop"[7] != "in the park"[7];
  }

  /** Two concrete strategies that eat in the same place are the same strategy. */
  lemma EatInjective(s: Strategy, t: Strategy)
    requires Eat(s).Ok? && Eat(s) == Eat(t)
    ensures s == t
  {
    StrategyOfEat(s, "");
    StrategyOfEat(t, "");
  }
}
