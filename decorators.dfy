/** The topping decorators. Each one wraps an ice cream and describes itself
    by the wrapped item's `toString()` followed by its topping phrase. */
module Decorators {
  import opened Results
  import opened Factory

  /** The decorator classes: the base decorator adds nothing, the two
      concrete ones add a chocolate topping. */
  datatype Topping = Plain | ChocolateSyrup | ChocolateSprinkles

  /** The text a decorator of this kind appends to what it wraps. */
  function Phrase(t: Topping): string {
    match t
    case Plain => ""
    case ChocolateSyrup => " with chocolate syrup"
    case ChocolateSprinkles => " with chocolate sprinkles"
  }

  /** A decorator object holding the ice cream it wraps. */
  datatype Decorator = Decorator(topping: Topping, iceCream: IceCream) {

    /** The wrapped item's text, unchanged, then the topping phrase. */
    function GetDescription(): (r: string)
      ensures |r| == |iceCream.ToString()| + |Phrase(topping)|
      ensures r[..|iceCream.ToString()|] == iceCream.ToString()
      ensures r[|iceCream.ToString()|..] == Phrase(topping)
      ensures topping == Plain ==> r == iceCream.ToString()
    {
      iceCream.ToString() + Phrase(topping)
    }
  }

  /** The inverse of decorating: the text a decorator of kind `t` must have
      wrapped to describe itself as `description`, if there is one. */
  function Unwrap(description: string, t: Topping): (r: Option<string>)
  {
    var n := |Phrase(t)|;
    if n <= |description| && description[|description| - n..] == Phrase(t)
    then Some(description[..|description| - n])
    else None
  }

  /** Unwrapping a description gives back exactly the wrapped item's text. */
  lemma UnwrapGetDescription(d: Decorator)
    ensures Unwrap(d.GetDescription(), d.topping) == Some(d.iceCream.ToString())
  {
  }

  /** Whatever unwraps, re-wrapping with the same kind describes it again. */
  lemma GetDescriptionUnwrap(description: string, t: Topping)
    requires Unwrap(description, t).Some?
    ensures Decorator(t, IceCream(Unwrap(description, t).value)).GetDescription() == description
  {
    var n := |Phrase(t)|;
    assert description == description[..|description| - n] + description[|description| - n..];
  }

  /** A decorator's description determines the flavor it wraps. */
  lemma GetDescriptionInjective(d: Decorator, e: Decorator)
    requires d.topping == e.topping
    requires d.GetDescription() == e.GetDescription()
    ensures d.iceCream == e.iceCream
  {
    UnwrapGetDescription(d);
    UnwrapGetDescription(e);
  }

  /** A syrup description never equals a sprinkles description, whatever
      the two flavors: the last letters differ. */
  lemma SyrupIsNotSprinkles(f: IceCream, g: IceCream)
    ensures Decorator(ChocolateSyrup, f).GetDescription()
         != Decorator(ChocolateSprinkles, g).GetDescription()
  {
    var a := Decorator(ChocolateSyrup, f).GetDescription();
    var b := Decorator(ChocolateSprinkles, g).GetDescription();
    assert a[|a| - 1] == 'p';
    assert b[|b| - 1] == 's';
  }

  /** Decorating a catalog flavor: the syrup decorator gives
      "<flavor> with chocolate syrup", the sprinkles decorator
      "<flavor> with chocolate sprinkles", the base decorator the flavor. */
  lemma DecoratedFlavor(flavor: string)
    requires flavor in {"vanilla", "chocolate", "strawberry"}
    ensures CreateIceCream(flavor).Ok?
    ensures Decorator(ChocolateSyrup, CreateIceCream(flavor).value).GetDescription()
         == flavor + " with chocolate syrup"
    ensures Decorator(ChocolateSprinkles, CreateIceCream(flavor).value).GetDescription()
         == flavor + " with chocolate sprinkles"
    ensures Decorator(Plain, CreateIceCream(flavor).value).GetDescription() == flavor
  {
  }
}
