/** The shop singleton: at most one shop exists, created lazily by
    `getInstance`, while a second direct construction fails. The hidden
    static field `_instance` is the field `instance` of an explicit
    ShopRegistry object. */
module Singleton {
  import opened Results

  const AlreadyInstantiated: string := "IceCreamShopSingleton has already been instantiated."

  /** The shop itself: a name and the serve operation. */
  class IceCreamShop {
    const name: string

    constructor (name: string)
      ensures this.name == name
    {
      this.name := name;
    }

    /** The line the shop prints: "Serving <iceCream> with <topping> <place>." */
    function ServeIceCream(iceCream: string, topping: string, place: string): string
    {
      "Serving " + iceCream + " with " + topping + " " + place + "."
    }
  }

  /** The fields of the served line: "Serving ", the item, " with ", the
      topping, one space, the place and a final full stop, in that order. */
  lemma ServeIceCreamFields(shop: IceCreamShop, iceCream: string, topping: string, place: string)
    ensures var line := shop.ServeIceCream(iceCream, topping, place);
      && |line| == |iceCream| + |topping| + |place| + 16
      && line[..8] == "Serving "
      && line[8..8 + |iceCream|] == iceCream
      && line[8 + |iceCream|..14 + |iceCream|] == " with "
      && line[14 + |iceCream|..14 + |iceCream| + |topping|] == topping
      && line[14 + |iceCream| + |topping|] == ' '
      && line[15 + |iceCream| + |topping|..|line| - 1] == place
      && line[|line| - 1] == '.'
  {
  }

  /** With the topping and the place fixed, the served line determines the
      item description. */
  lemma ServeIceCreamInjective(shop: IceCreamShop, a: string, b: string, topping: string, place: string)
    requires shop.ServeIceCream(a, topping, place) == shop.ServeIceCream(b, topping, place)
    ensures a == b
  {
    ServeIceCreamFields(shop, a, topping, place);
    ServeIceCreamFields(shop, b, topping, place);
  }

  /** A request made of the registry: `getInstance(name)` or `new IceCreamShopSingleton(name)`. */
  datatype Call = Get(name: string) | Construct(name: string)

  /** The name of the stored instance after one call, `None` while absent. */
  function After(stored: Option<string>, call: Call): (r: Option<string>)
    ensures r.Some?
  {
    if stored.Some? then stored else Some(call.name)
  }

  /** What one call gives back, as the name of the shop it returns. */
  function Answer(stored: Option<string>, call: Call): Result<string>
  {
    match call
    case Get(_) => Ok(After(stored, call).value)
    case Construct(name) => if stored.Some? then Err(AlreadyInstantiated) else Ok(name)
  }

  /** The stored name after a whole sequence of calls. */
  function Run(stored: Option<string>, calls: seq<Call>): Option<string>
    decreases |calls|
  {
    if calls == [] then stored else Run(After(stored, calls[0]), calls[1..])
  }

  /** The answers to a whole sequence of calls, in order. */
  function Answers(stored: Option<string>, calls: seq<Call>): (r: seq<Result<string>>)
    ensures |r| == |calls|
    decreases |calls|
  {
    if calls == [] then []
    else [Answer(stored, calls[0])] + Answers(After(stored, calls[0]), calls[1..])
  }

  /** Once an instance exists, no sequence of calls removes it or renames it. */
  lemma {:induction false} RunFromPresent(stored: Option<string>, calls: seq<Call>)
    requires stored.Some?
    ensures Run(stored, calls) == stored
    decreases |calls|
  {
    if calls != [] {
      RunFromPresent(After(stored, calls[0]), calls[1..]);
    }
  }

  /** From the absent state the first call, of either kind, names the shop for good. */
  lemma RunFromAbsent(calls: seq<Call>)
    ensures calls == [] ==> Run(None, calls) == None
    ensures calls != [] ==> Run(None, calls) == Some(calls[0].name)
  {
    if calls != [] {
      RunFromPresent(Some(calls[0].name), calls[1..]);
    }
  }

  /** Once an instance exists, every `getInstance` returns that same shop,
      whatever name it is passed, and every direct construction fails. */
  lemma {:induction false} AnswersFromPresent(stored: Option<string>, calls: seq<Call>, i: nat)
    requires stored.Some? && i < |calls|
    ensures Answers(stored, calls)[i]
         == if calls[i].Get? then Ok(stored.value) else Err(AlreadyInstantiated)
    decreases |calls|
  {
    if i > 0 {
      AnswersFromPresent(After(stored, calls[0]), calls[1..], i - 1);
    }
  }

  /** The process-wide registry: the static field `_instance`. */
  class ShopRegistry {
    var instance: Option<IceCreamShop>

    /** The name of the stored instance, `None` while there is none. */
    function StoredName(): Option<string>
      reads this
    {
      if instance.Some? then Some(instance.value.name) else None
    }

    /** Program start: no instance yet. */
    constructor ()
      ensures instance == None
    {
      instance := None;
    }

    /** `new IceCreamShopSingleton(name)`: fails when an instance exists and
        leaves it in place; otherwise creates the shop and records it. */
    method New(name: string) returns (r: Result<IceCreamShop>)
      modifies this
      ensures r.Err? <==> old(instance).Some?
      ensures r.Err? ==> r.message == AlreadyInstantiated && instance == old(instance)
      ensures r.Ok? ==> fresh(r.value) && r.value.name == name && instance == Some(r.value)
      ensures StoredName() == After(old(StoredName()), Construct(name))
      ensures (if r.Ok? then Ok(r.value.name) else Err(r.message))
           == Answer(old(StoredName()), Construct(name))
    {
      if instance.Some? {
        r := Err(AlreadyInstantiated);
      } else {
        var shop := new IceCreamShop(name);
        instance := Some(shop);
        r := Ok(shop);
      }
    }

    /** `getInstance(name)`: creates the shop named `name` if there is none,
        then returns the stored shop. */
    method GetInstance(name: string) returns (shop: IceCreamShop)
      modifies this
      ensures instance == Some(shop)
      ensures old(instance).Some? ==> instance == old(instance)
      ensures old(instance).None? ==> fresh(shop) && shop.name == name
      ensures StoredName() == After(old(StoredName()), Get(name))
      ensures Ok(shop.name) == Answer(old(StoredName()), Get(name))
    {
      if instance.None? {
        var created := New(name);
      }
      shop := instance.value;
    }
  }

  /** Two `getInstance` calls with different names return the very same shop,
      named by the first call. */
  method GetInstanceTwice(registry: ShopRegistry, first: string, second: string)
    returns (a: IceCreamShop, b: IceCreamShop)
    requires registry.instance == None
    modifies registry
    ensures a == b && a.name == first
  {
    a := registry.GetInstance(first);
    b := registry.GetInstance(second);
  }
}
