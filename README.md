# Ice cream shop: four design patterns, modelled in Dafny

The program is a small demonstration of four object-oriented patterns in
one JavaScript file, `borba-s-jegata/app.js`:

- **Singleton** — `IceCreamShopSingleton`. Its hidden static field
  `_instance` is modelled as the field `instance: Option<IceCreamShop>` of an
  explicit `ShopRegistry` object. `ShopRegistry.New` is the JavaScript
  constructor: it fails with "IceCreamShopSingleton has already been
  instantiated." once an instance exists. `ShopRegistry.GetInstance` creates the
  shop on first use and returns the stored one afterwards. Beside the class,
  the pure functions `After`, `Answer`, `Run` and `Answers` describe the
  registry as a two-state machine, absent → present, over whole sequences of
  calls. The methods' contracts tie each call to one step of that machine.
- **Factory** — `IceCreamFactory.createIceCream` over the fixed `flavors` map
  becomes `CreateIceCream`, a function returning `Result<IceCream>`. An
  unknown flavor gives `Err("Unknown flavor")`.
- **Decorator** — the base decorator and the two chocolate decorators become
  `Decorator(topping, iceCream)` with `Topping = Plain | ChocolateSyrup |
  ChocolateSprinkles`. `GetDescription` is the wrapped item's `toString()`
  followed by the topping phrase. `Unwrap` is its inverse.
- **Strategy** — the eating-place classes become the datatype `Strategy`, and
  `Eat` gives each one's phrase. The base class's `eat()` fails with
  "This method should be overridden!". `StrategyOf` is the inverse of `Eat`.

`serveIceCream` is the function `IceCreamShop.ServeIceCream`. It returns the
line that the program prints, instead of printing it.

Exceptions are modelled as `Result` values (`Ok(value)` or `Err(message)`),
and the message is the one the program throws.

Two places where the code differs from the usual description of these
patterns. The model follows the code in both:

- The base `IceCreamDecorator.getDescription` does not throw. It returns the
  wrapped item's text unchanged (app.js:53-55). `Plain` models it.
- The decorators call `toString()` on what they wrap, not `getDescription()`
  (app.js:54, 60, 66). Nested decorators therefore do not append both phrases.
  The model wraps only an `IceCream`.

Files: `results.dfy` (Result and Option), `factory.dfy`, `decorators.dfy`,
`strategies.dfy`, `singleton.dfy`, `example.dfy` (the example usage end to end).

## Model

| member | source | states |
|---|---|---|
| Factory.CreateIceCream | borba-s-jegata/app.js:33-44 | succeeds exactly for "vanilla", "chocolate" and "strawberry"; the item's `toString()` is then the requested flavor (the catalog maps each key to itself); any other flavor fails with "Unknown flavor" and yields no item |
| Decorators.Decorator.GetDescription | borba-s-jegata/app.js:53-67 | the description is the wrapped item's `toString()`, unchanged, followed by exactly the topping's phrase; the base decorator returns the wrapped text itself and never fails |
| Decorators.UnwrapGetDescription | borba-s-jegata/app.js:53-67 | removing the topping phrase from a decorator's description gives back the wrapped item's text |
| Decorators.GetDescriptionUnwrap | borba-s-jegata/app.js:53-67 | any text that ends in a topping's phrase is the description of that decorator over the rest of the text |
| Decorators.GetDescriptionInjective | borba-s-jegata/app.js:53-67 | two decorators of the same kind with equal descriptions wrap the same ice cream |
| Decorators.SyrupIsNotSprinkles | borba-s-jegata/app.js:58-67 | a chocolate-syrup description never equals a chocolate-sprinkles description, whatever the two flavors |
| Decorators.DecoratedFlavor | borba-s-jegata/app.js:39-41 | for a catalog flavor f, the syrup decorator gives f + " with chocolate syrup", the sprinkles decorator f + " with chocolate sprinkles", and the base decorator f |
| Strategies.Eat | borba-s-jegata/app.js:70-92 | `eat()` fails with "This method should be overridden!" exactly for the base strategy; every subclass returns one of "in the shop", "in the park", "at the beach" |
| Strategies.StrategyOfEat | borba-s-jegata/app.js:76-92 | each subclass's phrase identifies that subclass, and each of the three phrases is returned by its own subclass |
| Strategies.EatInjective | borba-s-jegata/app.js:76-92 | two strategies that return the same phrase are the same strategy |
| Singleton.IceCreamShop.constructor | borba-s-jegata/app.js:6 | a new shop carries the name it was given |
| Singleton.ServeIceCreamFields | borba-s-jegata/app.js:17-19 | the served line is "Serving ", the item, " with ", the topping, one space, the place and ".", with each field at its exact position |
| Singleton.ServeIceCreamInjective | borba-s-jegata/app.js:17-19 | with the topping and place fixed, the served line determines the item description |
| Singleton.After | borba-s-jegata/app.js:3-7 | after any call the registry holds an instance |
| Singleton.RunFromPresent | borba-s-jegata/app.js:10-15 | once an instance exists, no sequence of calls removes it or changes its name |
| Singleton.RunFromAbsent | borba-s-jegata/app.js:10-15 | from the absent state, an empty sequence of calls leaves it absent; any other sequence makes the first call's name the shop's name for good |
| Singleton.AnswersFromPresent | borba-s-jegata/app.js:2-15 | once an instance exists, every later `getInstance` returns that shop's name whatever it is passed, and every later direct construction fails with the "already been instantiated" message |
| Singleton.ShopRegistry.constructor | borba-s-jegata/app.js:3 | at program start there is no instance |
| Singleton.ShopRegistry.New | borba-s-jegata/app.js:2-8 | fails with the "already been instantiated" message exactly when an instance exists, and leaves that instance in place; otherwise creates a fresh shop with the given name and records it; the new state and the answer are one step of the registry machine |
| Singleton.ShopRegistry.GetInstance | borba-s-jegata/app.js:10-15 | when absent, creates and records a fresh shop with the given name; when present, returns the stored shop and changes nothing; either way the returned shop is the stored one |
| Singleton.GetInstanceTwice | borba-s-jegata/app.js:10-15 | two `getInstance` calls from the absent state return the identical object, named by the first call |
| Example.ServeWithEmptyTopping | borba-s-jegata/app.js:102 | serving with an empty topping argument puts two spaces after "with" |
| Example.ExampleLineLiteral | borba-s-jegata/app.js:18 | the line for "chocolate with chocolate syrup" at "at the beach" with an empty topping is the exact expected text |
| Example.ExampleUsageLine | borba-s-jegata/app.js:95-102 | the example's chocolate, syrup and beach choices print "Serving chocolate with chocolate syrup with  at the beach." |
| Example.UnknownFlavorFails | borba-s-jegata/app.js:42-44 | asking for "mint" fails with "Unknown flavor" |

## Left out

- Console output (`console.log` at app.js:18, `console.error` at app.js:104): `ServeIceCream` returns the line instead of printing it, and errors are returned as `Err(message)`.
- Inheritance and dynamic dispatch: the decorator and strategy class hierarchies are closed datatypes with one dispatch function each.
- Decorators.Decorator.GetDescription: the wrapped value is an `IceCream` only. In JavaScript a decorator wrapping another decorator would print that decorator's default `toString()` text, "[object Object]", and the model does not describe that case.
- The try/catch wiring of the example usage (app.js:94-105) is not modelled as a program; its two outcomes are stated as the lemmas `ExampleUsageLine` and `UnknownFlavorFails`.
- Object identity of items and strategy instances: ice creams, decorators and strategies are values. Only the shop is an object, because the singleton's promise is about identity.
- `IceCream.toString` (app.js:27-29) has no contract of its own: it returns the flavor, and `CreateIceCream` and the decorator lemmas state what follows from that.
- The shop's `name` is a constant field, because nothing in the program assigns it after construction.
