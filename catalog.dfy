/**
 * The product catalog: a map from product id to product, seeded once and
 * then only read.
 */
module Catalog {
  import opened Errors
  import opened Domain

  type Products = map<ProductId, Product>

  /** The catalog as seeded at start-up; prices are in cents. */
  function SeedProducts(): Products
  {
    map[
      "PROD-1" := Product("PROD-1", "Wireless Mouse", 2500),
      "PROD-2" := Product("PROD-2", "Mechanical Keyboard", 15000),
      "PROD-3" := Product("PROD-3", "iPhone 15", 99900)]
  }

  /** Looks a product up, or fails when the id is not in the catalog. */
  function GetProduct(products: Products, id: ProductId): (r: Result<Product>)
    ensures r.Success? <==> id in products
    ensures r.Success? ==> r.value == products[id]
    ensures r.Failure? ==> r.error == Error(ProductNotFound, "Product not found: " + id)
  {
    if id in products then Success(products[id])
    else Failure(Error(ProductNotFound, "Product not found: " + id))
  }

  /** Every product is stored under its own id. */
  predicate KeyedById(products: Products)
  {
    forall id :: id in products ==> products[id].id == id
  }

  /** The seeded catalog stores each product under its own id, so a lookup returns a product with the requested id. */
  lemma SeedIsKeyedById()
    ensures KeyedById(SeedProducts())
    ensures forall id :: GetProduct(SeedProducts(), id).Success? ==> GetProduct(SeedProducts(), id).value.id == id
  {
  }

  /** The seeded entries, as a lookup sees them. */
  lemma SeedLookups()
    ensures GetProduct(SeedProducts(), "PROD-1") == Success(Product("PROD-1", "Wireless Mouse", 2500))
    ensures GetProduct(SeedProducts(), "PROD-2").Success?
    ensures GetProduct(SeedProducts(), "PROD-3").Success?
    ensures GetProduct(SeedProducts(), "UNKNOWN-ID") == Failure(Error(ProductNotFound, "Product not found: UNKNOWN-ID"))
  {
  }

  /** The in-memory catalog. */
  class ProductCatalog {
    var products: Products

    /** Seeds PROD-1, PROD-2 and PROD-3. */
    constructor Init()
      ensures products == SeedProducts()
    {
      products := map[];
      new;
      products := products["PROD-1" := Product("PROD-1", "Wireless Mouse", 2500)];
      products := products["PROD-2" := Product("PROD-2", "Mechanical Keyboard", 15000)];
      products := products["PROD-3" := Product("PROD-3", "iPhone 15", 99900)];
    }
  }
}
