/**
 * The stored document: a recipe, its category, and the field copy performed
 * by the mapper when an existing recipe is updated.
 */
module Domain {

  import opened Wrappers

  const MinInt32: int := -0x8000_0000
  const MaxInt32: int := 0x7fff_ffff

  /** Java's `Integer`: a 32-bit two's-complement integer. */
  type Int32 = n: int | MinInt32 <= n <= MaxInt32

  /** The category enumeration; the two constants used throughout the application. */
  datatype Category = VEGETARIAN | NON_VEGETARIAN

  /** A recipe document, keyed in the repository by its `id`. */
  datatype Recipe = Recipe(
    id: string,
    title: string,
    servings: Int32,
    ingredients: set<string>,
    instructions: string,
    category: Category)

  /** The name of an enum constant, as `Enum.name()` returns it. */
  function CategoryName(c: Category): string
  {
    match c
    case VEGETARIAN => "VEGETARIAN"
    case NON_VEGETARIAN => "NON_VEGETARIAN"
  }

  /**
   * `Category.valueOf(name)`: the constant whose name is exactly `name`, or
   * None where Java throws IllegalArgumentException.
   */
  function CategoryOf(name: string): (c: Option<Category>)
    ensures c.Some? ==> CategoryName(c.value) == name
    ensures c.None? ==> forall k: Category :: CategoryName(k) != name
  {
    if name == "VEGETARIAN" then Some(VEGETARIAN)
    else if name == "NON_VEGETARIAN" then Some(NON_VEGETARIAN)
    else None
  }

  /** `valueOf` and `name` are inverse: every constant is found by its own name, and only by it. */
  lemma CategoryOfIffName(name: string, c: Category)
    ensures CategoryOf(name) == Some(c) <==> name == CategoryName(c)
  {
  }

  /**
   * The mapper's `update(target, input)`: every field of `input` is copied onto
   * `target` except `id`, which is ignored.
   */
  function Update(target: Recipe, input: Recipe): (r: Recipe)
    ensures r.id == target.id
    ensures r.title == input.title && r.servings == input.servings
    ensures r.ingredients == input.ingredients && r.instructions == input.instructions
    ensures r.category == input.category
  {
    input.(id := target.id)
  }

  /** The mapper's `asInput`: a field-by-field copy of a recipe. */
  function AsInput(recipe: Recipe): (r: Recipe)
    ensures r == recipe
  {
    Recipe(recipe.id, recipe.title, recipe.servings, recipe.ingredients, recipe.instructions, recipe.category)
  }

  /** Updating with an input that already carries the target's id stores the input itself. */
  lemma UpdateSameIdIsInput(target: Recipe, input: Recipe)
    ensures Update(target, input) == input <==> input.id == target.id
  {
  }

  /** Only the last of two successive updates matters: the first one's fields are all overwritten. */
  lemma UpdateLastWins(target: Recipe, first: Recipe, second: Recipe)
    ensures Update(Update(target, first), second) == Update(target, second)
  {
  }
}
