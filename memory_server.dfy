/**
 * The first iteration of the server (main.go): products kept in a
 * package-level list with a counter for the next id, and a product lookup
 * that answers a fixed product without consulting the list.
 */
module MemoryServer {
  import opened Models
  import opened Strconv
  import opened Http

  const MethodGet: GoString := "GET"
  const MethodPost: GoString := "POST"
  const ProductsPrefix: GoString := "/products/"

  ghost predicate StrictlyIncreasingIds(products: seq<Product>) {
    forall i, j | 0 <= i < j < |products| :: products[i].id < products[j].id
  }

  /** The package-level `products` list and `idCounter`. */
  class ProductStore {
    var products: seq<Product>
    var idCounter: int

    /** Nothing is ever removed, so the i-th product carries id i + 1. */
    ghost predicate Valid()
      reads this
    {
      && idCounter == |products| + 1
      && forall i | 0 <= i < |products| :: products[i].id == i + 1
    }

    constructor ()
      ensures Valid() && products == [] && idCounter == 1
    {
      products := [];
      idCounter := 1;
    }

    /**
     * ProductsHandler: GET answers the list; POST stamps the decoded
     * product with the counter, bumps it, appends, and answers the whole
     * list with the default status 200; other methods answer 405.
     */
    method ProductsHandler(verb: GoString, body: Option<Product>) returns (resp: Response)
      requires Valid()
      modifies this
      ensures Valid() && StrictlyIncreasingIds(products)
      ensures verb == MethodGet ==>
                && resp == Response(StatusOK, ProductsJson(old(products)))
                && products == old(products) && idCounter == old(idCounter)
      ensures verb == MethodPost && body.None? ==>
                && resp == Error("Bad JSON", StatusBadRequest)
                && products == old(products) && idCounter == old(idCounter)
      ensures verb == MethodPost && body.Some? ==>
                && products == old(products) + [body.value.(id := old(idCounter))]
                && idCounter == old(idCounter) + 1
                && resp == Response(StatusOK, ProductsJson(products))
      ensures verb != MethodGet && verb != MethodPost ==>
                && resp == Error("Method not allowed", StatusMethodNotAllowed)
                && products == old(products) && idCounter == old(idCounter)
    {
      if verb == MethodGet {
        resp := Response(StatusOK, ProductsJson(products));
      } else if verb == MethodPost {
        if body.None? {
          return Error("Bad JSON", StatusBadRequest);
        }
        var p := body.value.(id := idCounter);
        idCounter := idCounter + 1;
        products := products + [p];
        resp := Response(StatusOK, ProductsJson(products));
      } else {
        resp := Error("Method not allowed", StatusMethodNotAllowed);
      }
    }
  }

  /** The product GetProductHandler makes up for any id. */
  function DummyProduct(id: int): (p: Product)
    ensures p.id == id && p.price == 500
  {
    Product(id, "Dynamic Product", "Found by ID", 500)
  }

  /**
   * GetProductHandler: the path after "/products/" must read as an integer,
   * any integer; the answer never depends on the stored products.
   */
  function GetProductHandler(verb: GoString, path: GoString): (resp: Response)
    requires |path| >= |ProductsPrefix| && path[..|ProductsPrefix|] == ProductsPrefix
    ensures verb != MethodGet ==> resp == Error("Method not allowed", StatusMethodNotAllowed)
    ensures verb == MethodGet && Atoi(path[|ProductsPrefix|..]).None? ==>
              resp == Error("Invalid ID", StatusBadRequest)
    ensures verb == MethodGet && Atoi(path[|ProductsPrefix|..]).Some? ==>
              resp == Response(StatusOK, ProductJson(DummyProduct(Atoi(path[|ProductsPrefix|..]).value)))
  {
    if verb != MethodGet then Error("Method not allowed", StatusMethodNotAllowed)
    else
      var n := Atoi(path[|ProductsPrefix|..]);
      if n.None? then Error("Invalid ID", StatusBadRequest)
      else Response(StatusOK, ProductJson(DummyProduct(n.value)))
  }

  /** Every Go int, zero and negatives included, gets the dummy product back. */
  lemma GetProductHandlerAnyId(id: int)
    requires MinInt <= id <= MaxInt
    ensures GetProductHandler(MethodGet, ProductsPrefix + Itoa(id)) ==
              Response(StatusOK, ProductJson(DummyProduct(id)))
  {
    AtoiItoa(id);
    assert (ProductsPrefix + Itoa(id))[|ProductsPrefix|..] == Itoa(id);
  }
}
