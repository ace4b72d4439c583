# Recipes service: query filters and the keyed recipe store

This project models the two parts of the recipes REST application that hold
decision logic:

- **The query-filter builder** (`SearchCriteriaBuilder.addCondition`). It turns
  the multi-valued map of query parameters of a list request into one
  conjunctive predicate over recipes. It walks the map in iteration order and
  adds clauses to a mutable `BooleanBuilder`:
  - `servings` adds equality with the first value, parsed by `Integer.parseInt`.
  - `includes` adds one "ingredient present" clause per value.
  - `excludes` adds one negated "ingredient present" clause per value.
  - `instructions` and `title` add one case-insensitive containment clause per value.
  - `category` adds equality with the enum constant named by the first value.
  - Every other key is ignored.
- **The recipe service** (`RecipeServiceImpl`) over its document repository.
  The repository is a `map<string, Recipe>` field of a class; every stored
  recipe sits under its own id. The service offers:
  - listing, filtering and lookup by id, with a not-found error;
  - save and create;
  - full update, and merge-patch and JSON-patch updates, which copy every field
    except `id` back onto the stored recipe;
  - deletion by id, and deletion of everything.

Modules:

- `Wrappers` (`wrappers.dfy`): the `Option` and `Result` types.
- `Domain` (`domain.dfy`): the `Recipe` document, the `Category` enum with
  `valueOf`/`name`, and the mapper's id-ignoring `update`.
- `Text` (`text.dfy`): ASCII lower-casing, substring search, case-insensitive
  containment, and `Integer.parseInt` in base 10 with its 32-bit range check.
- `SearchCriteria` (`search_criteria.dfy`): the query expressions and their
  meaning (`Eval`), the `BooleanBuilder` class, and the builder method
  `AddCondition`. `AddCondition` is a loop over the entries. For each entry it
  calls `AddEntry`, which holds the per-key switch and the loop over the
  values. The loops are proved against the pure specification `Matches`
  (which recipes a filter map admits) and `FirstError` (which exception it
  raises). Lemmas about these two functions state the properties of the filter.
- `Services` (`services.dfy`): the class `RecipeServiceImpl` with the
  repository map, the invariant `Valid()` (each recipe is stored under its own
  id), and one member per service operation.
- `Scenarios` (`scenarios.dfy`): the filters and the save/delete sequence of
  the application's own tests, stated and proved on the tests' data. The integration test's
  recipe instructions are shortened there to keep the proofs small.

An empty builder's `getValue()` is `null`. The model represents it as `None`,
read as "no condition", so `GetFilteredRecipe` then returns every stored
recipe. What the repository library does when it is given a `null` predicate
is not part of this model (see "Left out").

The service interface declares `updateRecipe(String, Recipe)` while the
implementation takes an `IORecipe` (`RecipeService.java:42` against
`RecipeServiceImpl.java:60`). The model follows the implementation and treats
the input record as a `Recipe` with the same fields, converted unchanged.

## Model

| member | source | states |
|---|---|---|
| `Domain.CategoryOfIffName` | src/main/java/com/abn/recipes/utils/SearchCriteriaBuilder.java:41 | `Category.valueOf(name)` yields constant `c` exactly when `name` is `c`'s own name; every other string is rejected |
| `Domain.CategoryOf` | src/main/java/com/abn/recipes/utils/SearchCriteriaBuilder.java:41 | `Category.valueOf(name)` returns a constant whose name is `name`, and fails only when no constant has that name |
| `Domain.AsInput` | src/main/java/com/abn/recipes/utils/RecipeMapper.java:19 | the mapper's `asInput` copy equals the recipe it copies, field for field |
| `Domain.Update` | src/main/java/com/abn/recipes/utils/RecipeMapper.java:14-15 | the mapper's update keeps the target's `id` and takes title, servings, ingredients, instructions and category from the input |
| `Domain.UpdateSameIdIsInput` | src/main/java/com/abn/recipes/utils/RecipeMapper.java:14-15 | the update result equals the input record exactly when the input already carries the target's id |
| `Domain.UpdateLastWins` | src/main/java/com/abn/recipes/utils/RecipeMapper.java:14-15 | after two successive updates only the second input's fields remain, so the copy overwrites every non-id field |
| `Text.ToLowerIdempotent` | src/main/java/com/abn/recipes/utils/SearchCriteriaBuilder.java:35 | lower-casing an already lower-cased string changes nothing |
| `Text.Contains` | src/main/java/com/abn/recipes/utils/SearchCriteriaBuilder.java:35 | the search answers true exactly when the needle occurs at some position of the text |
| `Text.ContainsIgnoreCase` | src/main/java/com/abn/recipes/utils/SearchCriteriaBuilder.java:34-39 | `containsIgnoreCase` holds exactly when the lower-cased value occurs somewhere in the lower-cased field |
| `Text.ContainsImpliesContainsIgnoreCase` | src/main/java/com/abn/recipes/utils/SearchCriteriaBuilder.java:35 | an exact occurrence of the value in the field is also a case-insensitive match (the helper behind `Scenarios.OvenKeepsFriedEgg`) |
| `Text.ContainsIgnoreCaseOfLowered` | src/main/java/com/abn/recipes/utils/SearchCriteriaBuilder.java:38 | lower-casing both the field and the value leaves the answer unchanged |
| `Text.ContainsIgnoreCaseIgnoresCase` | src/main/java/com/abn/recipes/utils/SearchCriteriaBuilder.java:35-38 | changing the letter case of the field, of the value, or of both does not change whether they match |
| `Text.EmptyNeedleAlwaysContained` | src/main/java/com/abn/recipes/utils/SearchCriteriaBuilder.java:35 | an empty value is contained in every field, so an empty `instructions` or `title` value rules out no recipe |
| `Text.ParseInt` | src/main/java/com/abn/recipes/utils/SearchCriteriaBuilder.java:26 | a parsed string is a base-10 text of the result (optional `-` or `+`, then at least one digit); a rejected string is the text of no 32-bit integer |
| `Text.ParseIntIff` | src/main/java/com/abn/recipes/utils/SearchCriteriaBuilder.java:26 | `Integer.parseInt(s)` returns `n` exactly when `s` is an optional sign followed by digits denoting `n` and `n` lies in the 32-bit range |
| `Text.DecimalTextUnique` | src/main/java/com/abn/recipes/utils/SearchCriteriaBuilder.java:26 | a string denotes at most one integer, so the parse result is determined |
| `Text.ParseIntAcceptsSignsAndZeros` | src/main/java/com/abn/recipes/utils/SearchCriteriaBuilder.java:26 | `"+4"` parses to 4, `"007"` to 7 and `"-0"` to 0, as in Java |
| `Text.ParseIntRangeEdges` | src/main/java/com/abn/recipes/utils/SearchCriteriaBuilder.java:26 | the text of the least 32-bit integer parses, and the text of one more than the greatest is rejected |
| `Text.FormatIntIsDecimalText` | src/main/java/com/abn/recipes/utils/SearchCriteriaBuilder.java:26 | the decimal text of any integer is a base-10 text of that integer |
| `Text.ParseIntRejectsNonDigit` | src/main/java/com/abn/recipes/utils/SearchCriteriaBuilder.java:26 | `Integer.parseInt` fails on any non-digit character other than one leading sign |
| `Text.ParseFormatRoundTrip` | src/main/java/com/abn/recipes/utils/SearchCriteriaBuilder.java:26 | the decimal text of every 32-bit integer parses back to that integer |
| `Text.DigitsValueOfFormatNat` | src/main/java/com/abn/recipes/utils/SearchCriteriaBuilder.java:26 | the digits of a natural number's decimal text evaluate back to that number |
| `Text.FormatNat` | src/main/java/com/abn/recipes/utils/SearchCriteriaBuilder.java:26 | a natural number's decimal text is non-empty and made of digits only |
| `SearchCriteria.Conjoin` | src/main/java/com/abn/recipes/utils/SearchCriteriaBuilder.java:29 | the value after a run of `and` calls is absent exactly when no clause was added |
| `SearchCriteria.HoldsConjoin` | src/main/java/com/abn/recipes/utils/SearchCriteriaBuilder.java:29 | that value holds of a recipe exactly when every added clause does |
| `SearchCriteria.BooleanBuilder.GetValue` | src/main/java/com/abn/recipes/utils/SearchCriteriaBuilder.java:47 | `getValue()` is null (here `None`) exactly when no clause was added, and otherwise holds of a recipe iff every added clause does |
| `SearchCriteria.BooleanBuilder.And` | src/main/java/com/abn/recipes/utils/SearchCriteriaBuilder.java:29 | `and(p)` records `p` as one more clause; it makes `p` the value of an empty builder and conjoins it otherwise; a recipe satisfies the new value iff it satisfied the old one and `p` |
| `SearchCriteria.BooleanBuilder.AndNot` | src/main/java/com/abn/recipes/utils/SearchCriteriaBuilder.java:32 | `andNot(p)` conjoins the negation of `p` |
| `SearchCriteria.Eval` | src/main/java/com/abn/recipes/utils/SearchCriteriaBuilder.java:26-41 | what each query clause means for a recipe: servings equality, ingredient membership (negated for `andNot`), case-insensitive containment in instructions or title (the lower-cased value occurs at some position of the lower-cased field), category equality, and conjunction |
| `SearchCriteria.EntryError` | src/main/java/com/abn/recipes/utils/SearchCriteriaBuilder.java:25-42 | only `servings` and `category` entries can raise an error: an empty value list, an unparsable number, or an unknown category name |
| `SearchCriteria.AddEntry` | src/main/java/com/abn/recipes/utils/SearchCriteriaBuilder.java:24-44 | one entry raises exactly `EntryError`; on an error it adds nothing, and otherwise the builder's value becomes the old value conjoined with that entry's meaning |
| `SearchCriteria.AddCondition` | src/main/java/com/abn/recipes/utils/SearchCriteriaBuilder.java:20-48 | the build fails iff some entry is erroneous, with the first error in iteration order; otherwise a recipe satisfies the result iff `Matches(filters, r)`, and the value is "no condition" iff no entry adds a clause |
| `SearchCriteria.FirstErrorAppend` | src/main/java/com/abn/recipes/utils/SearchCriteriaBuilder.java:23-46 | the error of a map split in two is the first half's error if it has one, else the second half's |
| `SearchCriteria.FirstErrorNoneIff` | src/main/java/com/abn/recipes/utils/SearchCriteriaBuilder.java:23-46 | a map builds without error exactly when none of its entries raises one |
| `SearchCriteria.AllValuesMatchSnoc` | src/main/java/com/abn/recipes/utils/SearchCriteriaBuilder.java:29 | one more value adds exactly one more clause to the per-value conjunction |
| `SearchCriteria.MatchesAppend` | src/main/java/com/abn/recipes/utils/SearchCriteriaBuilder.java:21-47 | the filter is a conjunction: a map split in two matches iff both halves match |
| `SearchCriteria.ReorderingPreservesMeaning` | src/main/java/com/abn/recipes/utils/SearchCriteriaBuilder.java:23-46 | visiting the same entries in another order changes neither acceptance nor the set of matching recipes |
| `SearchCriteria.MatchedRecipeSatisfiesEntry` | src/main/java/com/abn/recipes/utils/SearchCriteriaBuilder.java:24-42 | a matched recipe has `servings` equal to the parsed first value, its category named by the first value, every `includes` value and no `excludes` value among its ingredients, and every `instructions`/`title` value contained ignoring case |
| `SearchCriteria.EntryConditionsSufficient` | src/main/java/com/abn/recipes/utils/SearchCriteriaBuilder.java:24-42 | conversely, a recipe meeting all of those per-key conditions is matched |
| `SearchCriteria.UnconvertibleFirstValueFails` | src/main/java/com/abn/recipes/utils/SearchCriteriaBuilder.java:25-42 | a `servings` or `category` entry with no value, a non-numeric number or an unknown category name makes the whole build fail |
| `SearchCriteria.NonNumericServingsError` | src/main/java/com/abn/recipes/utils/SearchCriteriaBuilder.java:26 | a lone non-numeric `servings` value raises the number-format error naming that value |
| `SearchCriteria.UnknownKeyIgnored` | src/main/java/com/abn/recipes/utils/SearchCriteriaBuilder.java:43-44 | an entry under an unrecognised key, appended last, changes neither the error nor the matching recipes, and adds no clause |
| `SearchCriteria.UnknownKeyIgnoredAnywhere` | src/main/java/com/abn/recipes/utils/SearchCriteriaBuilder.java:43-44 | an entry under an unrecognised key, at any position of the map, changes neither the error nor the matching recipes |
| `SearchCriteria.OnlyUnknownKeys` | src/main/java/com/abn/recipes/utils/SearchCriteriaBuilder.java:43-47 | a map of unrecognised keys only builds without error, adds no clause (the builder's value is empty) and matches every recipe |
| `SearchCriteria.MoreValuesNarrow` | src/main/java/com/abn/recipes/utils/SearchCriteriaBuilder.java:28-39 | one more value under `includes`, `excludes`, `instructions` or `title` keeps acceptance unchanged and can only shrink the set of matching recipes |
| `Services.KeyedStoreValueCount` | src/main/java/com/abn/recipes/services/RecipeServiceImpl.java:33-36 | a store whose recipes sit under their own ids holds as many distinct recipes as ids |
| `Services.RecipeServiceImpl.GetAllRecipes` | src/main/java/com/abn/recipes/services/RecipeServiceImpl.java:33-36 | every stored recipe is listed, nothing else is, and the list has one recipe per stored id |
| `Services.RecipeServiceImpl.GetFilteredRecipe` | src/main/java/com/abn/recipes/services/RecipeServiceImpl.java:38-47 | the result is exactly the stored recipes satisfying `Matches(filters, _)`; an erroneous filter fails with the builder's first error |
| `Services.RecipeServiceImpl.FindRecipeById` | src/main/java/com/abn/recipes/services/RecipeServiceImpl.java:84-90 | a present id yields its stored recipe (whose id is that id); an absent id fails with not-found and the message `Recipe not found for this id :: <id>` |
| `Services.RecipeServiceImpl.Save` | src/main/java/com/abn/recipes/services/RecipeServiceImpl.java:54-57 | stores the recipe under its id, leaves every other entry unchanged, returns the recipe, and grows the store by one only for a new id |
| `Services.RecipeServiceImpl.CreateRecipe` | src/main/java/com/abn/recipes/services/RecipeServiceImpl.java:49-52 | creation is a save of the converted input |
| `Services.RecipeServiceImpl.UpdateRecipe` | src/main/java/com/abn/recipes/services/RecipeServiceImpl.java:59-64 | an absent id fails with not-found and leaves the store unchanged; otherwise the stored recipe keeps its id and takes every other field from the details, and nothing else changes |
| `Services.RecipeServiceImpl.PatchAndSave` | src/main/java/com/abn/recipes/services/RecipeServiceImpl.java:66-82 | absent id: not-found, store unchanged; rejected patch: store unchanged; otherwise the patched fields are stored under the original id whatever the patch did to `id` |
| `Services.RecipeServiceImpl.SaveMergePatch` | src/main/java/com/abn/recipes/services/RecipeServiceImpl.java:66-73 | a merge patch on an absent id fails with not-found; a rejected patch fails; both leave the store unchanged; an accepted patch succeeds and stores the patched recipe under the original id, changing nothing else |
| `Services.RecipeServiceImpl.SaveJsonPatch` | src/main/java/com/abn/recipes/services/RecipeServiceImpl.java:75-82 | the same for a JSON patch |
| `Services.RecipeServiceImpl.DeleteRecipeById` | src/main/java/com/abn/recipes/services/RecipeServiceImpl.java:92-95 | removes that id and no other entry; the store shrinks by one when the id was present and is unchanged otherwise |
| `Services.RecipeServiceImpl.DeleteAllRecipes` | src/main/java/com/abn/recipes/services/RecipeServiceImpl.java:97-100 | leaves the store empty |
| `Scenarios.ServingsFourIncludesPotato` | src/test/java/com/abn/recipes/controllers/RecipeControllerIntegrationTest.java:94-101 | on the integration test's four recipes, `servings=4&includes=potato` matches exactly the salmon recipe |
| `Scenarios.CategoryVegetarian` | src/test/java/com/abn/recipes/controllers/RecipeControllerIntegrationTest.java:85-92 | `category=VEGETARIAN` matches exactly the vegetarian recipes |
| `Scenarios.OvenKeepsFriedEgg` | src/test/java/com/abn/recipes/controllers/RecipeControllerIntegrationTest.java:103-111 | `instructions=oven&excludes=salmon` matches the fried egg recipe |
| `Scenarios.OvenDropsSalmon` | src/test/java/com/abn/recipes/controllers/RecipeControllerIntegrationTest.java:103-111 | the same filter rejects the salmon recipe, although its instructions mention the oven |
| `Scenarios.SaveTwoDeleteOne` | src/test/java/com/abn/recipes/repositories/RecipeRepositoryTest.java:98-120 | after saving recipes 1 and 2 and deleting 2, one recipe remains, id 2 is not found with the service's message, and recipe 1 is still stored; deleting all leaves none. The step in between, updating 1 with 2's details, is the scenario's own (it exercises `updateRecipe`, RecipeServiceImpl.java:59-64) and keeps id 1 while taking the new title |

## Left out

- The controller: HTTP routing and status codes, and the choice between listing all recipes and filtering when the parameter map is empty. This is a two-way dispatch over operations that the model does cover.
- Patch application: the JSON Patch (RFC 6902) and JSON Merge Patch (RFC 7396) semantics and the bean validation run after them belong to a library. Each patch is a parameter of type `Recipe -> Option<Recipe>`, where `None` means the patch was rejected.
- The mapper's generated code: `update` is modelled only as "copy every field except `id`". The `IORecipe` to `Recipe` conversion is taken as the identity on the same fields.
- Java `null`: null fields, null ids, null value lists, and the repository generating an id for a recipe saved without one. Every recipe in the model carries an id.
- Storage and query internals: Mongo storage and the QueryDSL predicate objects. A predicate is modelled by its meaning over the `Recipe` datatype.
- The order of the lists returned by `getAllRecipes` and `getFilteredRecipe`: the repository fixes it, so the model returns sets.
- `Text.ContainsIgnoreCase`: case-insensitive containment folds only ASCII letters. Unicode case folding and the database's regular-expression matching are not modelled.
- `Text.ParseInt`: accepts only ASCII digits, while Java's `Character.digit` also accepts other Unicode decimal digits. Overflow outside the 32-bit range is rejected, as Java rejects it.
- `Services.RecipeServiceImpl.GetFilteredRecipe`: for a filter map that adds no clause, the builder's value is `null`. The model reads that as "no condition" and assumes that the repository's `findAll(null)` returns every stored recipe. The Spring Data library may instead reject a `null` predicate; that library is not part of this model. The same assumption underlies the "matches every recipe" part of `SearchCriteria.OnlyUnknownKeys`.
- `Domain.CategoryOf`: the `Category` enum's source file is not part of this model. The two constants `VEGETARIAN` and `NON_VEGETARIAN` that the tests use are taken as the whole enum, so `valueOf` accepts exactly those two names.
- Configuration (Jackson), the duplicate `RecipeDTO` data class, and the Lombok builders.
