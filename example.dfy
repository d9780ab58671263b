/** The example usage at the end of the program, end to end. */
module Example {
  import opened Results
  import opened Factory
  import opened Decorators
  import opened Strategies
  import opened Singleton

  /** The shop's line for a decorated item served with an empty topping
      argument: the topping text sits inside the description, and two spaces
      follow the word "with". */
  lemma ServeWithEmptyTopping(shop: IceCreamShop, description: string, place: string)
    ensures shop.ServeIceCream(description, "", place)
         == "Serving " + description + " with  " + place + "."
  {
  }

  /** The line for the example's description and place, as one literal. */
  lemma ExampleLineLiteral(shop: IceCreamShop)
    ensures shop.ServeIceCream("chocolate with chocolate syrup", "", "at the beach")
         == "Serving chocolate with chocolate syrup with  at the beach."
  {
    // The solver joins the literals only one piece at a time.
    assert "Serving " + "chocolate with chocolate syrup" == "Serving chocolate with chocolate syrup";
    assert "Serving chocolate with chocolate syrup" + " with  "
        == "Serving chocolate with chocolate syrup with  ";
    assert "Serving chocolate with chocolate syrup with  " + "at the beach"
        == "Serving chocolate with chocolate syrup with  at the beach";
    assert "Serving chocolate with chocolate syrup with  at the beach" + "."
        == "Serving chocolate with chocolate syrup with  at the beach.";
  }

  /** Serving chocolate with syrup at the beach prints
      "Serving chocolate with chocolate syrup with  at the beach.". */
  lemma ExampleUsageLine(shop: IceCreamShop)
    ensures CreateIceCream("chocolate").Ok? && Eat(AtBeachStrategy).Ok?
    ensures shop.ServeIceCream(
              Decorator(ChocolateSyrup, CreateIceCream("chocolate").value).GetDescription(),
              "",
              Eat(AtBeachStrategy).value)
         == "Serving chocolate with chocolate syrup with  at the beach."
  {
    DecoratedFlavor("chocolate");
    assert "chocolate" + " with chocolate syrup" == "chocolate with chocolate syrup";
    ExampleLineLiteral(shop);
  }

  /** Asking for an unknown flavor such as "mint" fails with "Unknown flavor". */
  lemma UnknownFlavorFails()
    ensures CreateIceCream("mint") == Err("Unknown flavor")
  {
  }
}
