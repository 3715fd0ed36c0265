/** The recipes index projection: listing fields only; sections, nested
    recipes, images, description and detail stay out. */
module RecipeProjection {
  import opened Wrappers
  import opened Strings
  import opened Sorting

  datatype RecipeProduct = RecipeProduct(productId: string, quantity: real)
  datatype RecipeSection = RecipeSection(id: string, name: string, products: seq<RecipeProduct>)
  datatype RecipeNested = RecipeNested(recipeId: string, quantity: real)

  /** `Recipe` as the document store holds it; `images` and `categories`
      may be missing from a document. */
  datatype Recipe = Recipe(
    id: string,
    name: string,
    cost: real,
    onSale: bool,
    onSaleQuery: bool,
    customizable: bool,
    salePrice: real,
    suggestedPrice: real,
    profitPercentage: real,
    unit: real,
    images: Option<seq<string>>,
    description: string,
    detail: string,
    categories: Option<seq<string>>,
    sections: seq<RecipeSection>,
    recipes: seq<RecipeNested>)

  /** `RecipeIndexProjection`.  `hasImages` is `None` when it evaluates to
      `undefined` (no `images` field), which serialisation then omits. */
  datatype RecipeIndexProjection = RecipeIndexProjection(
    id: string,
    name: string,
    cost: real,
    salePrice: real,
    onSale: bool,
    unit: real,
    profitPercentage: real,
    hasImages: Option<bool>,
    categories: seq<string>)

  /** `recipe.images && recipe.images.length > 0`. */
  function HasImages(images: Option<seq<string>>): Option<bool> {
    match images
    case None => None
    case Some(list) => Some(|list| > 0)
  }

  /** `toRecipeIndexProjection`. */
  function ToRecipeIndexProjection(recipe: Recipe): RecipeIndexProjection {
    RecipeIndexProjection(
      recipe.id, recipe.name, recipe.cost, recipe.salePrice, recipe.onSale,
      recipe.unit, recipe.profitPercentage,
      HasImages(recipe.images),
      recipe.categories.GetOr([]))
  }

  /** The listing fields are copied; `hasImages` is true exactly when images
      are present and non-empty, false exactly when the list is present and
      empty; `categories` defaults to the empty list; and the projection is
      the same whatever the sections, nested recipes, image names,
      description and detail are. */
  lemma ProjectionFields(recipe: Recipe, sections: seq<RecipeSection>, recipes: seq<RecipeNested>,
                         description: string, detail: string)
    ensures var r := ToRecipeIndexProjection(recipe);
      && r.id == recipe.id && r.name == recipe.name && r.cost == recipe.cost
      && r.salePrice == recipe.salePrice && r.onSale == recipe.onSale
      && r.unit == recipe.unit && r.profitPercentage == recipe.profitPercentage
      && (r.hasImages == Some(true) <==> recipe.images.Some? && |recipe.images.value| > 0)
      && (r.hasImages == Some(false) <==> recipe.images == Some([]))
      && (r.categories == if recipe.categories.Some? then recipe.categories.value else [])
      && r == ToRecipeIndexProjection(recipe.(sections := sections, recipes := recipes,
                                              description := description, detail := detail))
  {
  }

  /** Only whether there are images matters, not which. */
  lemma ProjectionIgnoresImageNames(recipe: Recipe, images: seq<string>)
    requires recipe.images.Some? && (|images| > 0 <==> |recipe.images.value| > 0)
    ensures ToRecipeIndexProjection(recipe) == ToRecipeIndexProjection(recipe.(images := Some(images)))
  {
  }

  /** `a.id.localeCompare(b.id) <= 0`. */
  predicate ById(a: RecipeIndexProjection, b: RecipeIndexProjection) {
    StrLe(a.id, b.id)
  }

  lemma ByIdIsTotalPreorder()
    ensures TotalPreorder(ById)
  {
    forall a: RecipeIndexProjection, b: RecipeIndexProjection ensures ById(a, b) || ById(b, a) {
      StrLeTotal(a.id, b.id);
    }
    forall a: RecipeIndexProjection, b: RecipeIndexProjection, c: RecipeIndexProjection
      | ById(a, b) && ById(b, c) ensures ById(a, c)
    {
      StrLeTransitive(a.id, b.id, c.id);
    }
  }

  /** `sortRecipesForIndex`: sorts the array in place and returns it. */
  method SortRecipesForIndex(recipes: array<RecipeIndexProjection>) returns (r: array<RecipeIndexProjection>)
    modifies recipes
    ensures r == recipes
    ensures r[..] == SortBy(old(recipes[..]), ById)
  {
    SortInPlace(recipes, ById);
    r := recipes;
  }

  /** The sorted recipes are a permutation of the input in ascending id order. */
  lemma SortedRecipesIndex(rs: seq<RecipeIndexProjection>)
    ensures multiset(SortBy(rs, ById)) == multiset(rs)
    ensures forall i, j :: 0 <= i < j < |rs| ==> StrLe(SortBy(rs, ById)[i].id, SortBy(rs, ById)[j].id)
  {
    ByIdIsTotalPreorder();
    SortBySorted(rs, ById);
  }
}
