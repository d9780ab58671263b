/** The flavor catalog, the ice cream item and the factory that builds items
    from flavor names. */
module Factory {
  import opened Results

  /** An ice cream of one flavor; its text is the flavor itself. */
  datatype IceCream = IceCream(flavor: string) {
    function ToString(): string {
      flavor
    }
  }

  /** The fixed catalog: each known flavor name maps to itself. */
  const Flavors: map<string, string> :=
    map["vanilla" := "vanilla", "chocolate" := "chocolate", "strawberry" := "strawberry"]

  const UnknownFlavor: string := "Unknown flavor"

  /** Builds an ice cream from a catalog flavor, or fails with "Unknown flavor". */
  function CreateIceCream(flavor: string): (r: Result<IceCream>)
    ensures r.Ok? <==> flavor in {"vanilla", "chocolate", "strawberry"}
    ensures r.Ok? ==> r.value.ToString() == flavor
    ensures r.Err? ==> r.message == UnknownFlavor
  {
    if flavor in Flavors then Ok(IceCream(Flavors[flavor])) else Err(UnknownFlavor)
  }
}
