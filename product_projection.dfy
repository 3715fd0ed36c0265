/** The products index projection: stock and price fields plus a low-stock
    flag; the unit of measure stays out. */
module ProductProjection {
  import opened Strings
  import opened Sorting

  datatype Product = Product(
    id: string,
    name: string,
    quantity: real,
    minimumQuantity: real,
    cost: real,
    salePrice: real,
    measure: string)

  datatype ProductIndexProjection = ProductIndexProjection(
    id: string,
    name: string,
    quantity: real,
    minimumQuantity: real,
    cost: real,
    salePrice: real,
    isLowStock: bool)

  /** `toProductIndexProjection`. */
  function ToProductIndexProjection(product: Product): ProductIndexProjection {
    ProductIndexProjection(
      product.id, product.name, product.quantity, product.minimumQuantity,
      product.cost, product.salePrice,
      product.quantity <= product.minimumQuantity)
  }

  /** The fields are copied, a product is low on stock exactly when its
      quantity is at or below the minimum, and the measure plays no part. */
  lemma ProjectionFields(product: Product, measure: string)
    ensures var r := ToProductIndexProjection(product);
      && r.id == product.id && r.name == product.name
      && r.quantity == product.quantity && r.minimumQuantity == product.minimumQuantity
      && r.cost == product.cost && r.salePrice == product.salePrice
      && (r.isLowStock <==> product.quantity <= product.minimumQuantity)
      && r == ToProductIndexProjection(product.(measure := measure))
  {
  }

  /** `a.id.localeCompare(b.id) <= 0`. */
  predicate ById(a: ProductIndexProjection, b: ProductIndexProjection) {
    StrLe(a.id, b.id)
  }

  lemma ByIdIsTotalPreorder()
    ensures TotalPreorder(ById)
  {
    forall a: ProductIndexProjection, b: ProductIndexProjection ensures ById(a, b) || ById(b, a) {
      StrLeTotal(a.id, b.id);
    }
    forall a: ProductIndexProjection, b: ProductIndexProjection, c: ProductIndexProjection
      | ById(a, b) && ById(b, c) ensures ById(a, c)
    {
      StrLeTransitive(a.id, b.id, c.id);
    }
  }

  /** `sortProductsForIndex`: sorts the array in place and returns it. */
  method SortProductsForIndex(products: array<ProductIndexProjection>) returns (r: array<ProductIndexProjection>)
    modifies products
    ensures r == products
    ensures r[..] == SortBy(old(products[..]), ById)
  {
    SortInPlace(products, ById);
    r := products;
  }

  /** The sorted products are a permutation of the input in ascending id
      order, and sorting them again changes nothing; so running the
      projection and sort twice over the same input gives the same list. */
  lemma SortedProductsIndex(ps: seq<ProductIndexProjection>)
    ensures multiset(SortBy(ps, ById)) == multiset(ps)
    ensures forall i, j :: 0 <= i < j < |ps| ==> StrLe(SortBy(ps, ById)[i].id, SortBy(ps, ById)[j].id)
    ensures SortBy(SortBy(ps, ById), ById) == SortBy(ps, ById)
  {
    ByIdIsTotalPreorder();
    SortBySorted(ps, ById);
    SortByIdempotent(ps, ById);
  }

  /** With distinct ids the order is fully determined by the ids: any two
      inputs holding the same products, in whatever order, sort to the same
      list, so the store's ordering cannot change the ETag. */
  lemma SortDeterminedByContents(ps: seq<ProductIndexProjection>, qs: seq<ProductIndexProjection>)
    requires multiset(ps) == multiset(qs)
    requires forall i, j :: 0 <= i < j < |ps| ==> ps[i].id != ps[j].id
    ensures SortBy(ps, ById) == SortBy(qs, ById)
  {
    ByIdIsTotalPreorder();
    forall x, y | x in ps && y in ps && x != y ensures !(ById(x, y) && ById(y, x)) {
      var i :| 0 <= i < |ps| && ps[i] == x;
      var j :| 0 <= j < |ps| && ps[j] == y;
      if StrLe(x.id, y.id) && StrLe(y.id, x.id) {
        StrLeAntisymmetric(x.id, y.id);
      }
    }
    SortByDeterminedByContents(ps, qs, ById);
  }
}
