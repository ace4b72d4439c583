/**
 * The recipe service over its repository. The document store is modelled as
 * a map from id to recipe; every stored recipe sits under its own id.
 */
module Services {

  import opened Wrappers
  import opened Domain
  import opened SearchCriteria

  /** The errors the service raises. */
  datatype ServiceError =
    | NotFound(message: string)   // ResourceNotFoundException
    | PatchRejected               // the patch cannot be applied, or its result fails validation

  function NotFoundMessage(id: string): string
  {
    "Recipe not found for this id :: " + id
  }

  /** Each stored recipe carries the id it is stored under. */
  ghost predicate KeyedById(store: map<string, Recipe>)
  {
    forall id | id in store :: store[id].id == id
  }

  /** Distinct ids hold distinct recipes, so the store lists as many recipes as it has ids. */
  lemma {:induction false} KeyedStoreValueCount(store: map<string, Recipe>)
    requires KeyedById(store)
    ensures |store.Values| == |store|
    decreases |store|
  {
    if |store| > 0 {
      var id :| id in store;
      var rest := store - {id};
      KeyedStoreValueCount(rest);
      assert store[id] !in rest.Values;
      forall v ensures v in store.Values <==> v in rest.Values || v == store[id] {
        if v in store.Values {
          var k :| k in store && store[k] == v;
          assert k != id ==> k in rest && rest[k] == v;
        }
        if v in rest.Values {
          var k :| k in rest && rest[k] == v;
          assert k in store && store[k] == v;
        }
      }
      assert store.Values == rest.Values + {store[id]};
    }
  }

  class RecipeServiceImpl {
    /** The repository's documents, id to recipe. */
    var repository: map<string, Recipe>

    ghost predicate Valid()
      reads this
    {
      KeyedById(repository)
    }

    constructor ()
      ensures Valid() && repository == map[]
    {
      repository := map[];
    }

    /** `getAllRecipes`: every stored recipe, each once. */
    function GetAllRecipes(): (all: set<Recipe>)
      reads this
      requires Valid()
      ensures forall id | id in repository :: repository[id] in all
      ensures forall r | r in all :: r.id in repository && repository[r.id] == r
      ensures |all| == |repository|
    {
      KeyedStoreValueCount(repository);
      repository.Values
    }

    /**
     * `getFilteredRecipe`: the stored recipes that satisfy the predicate built
     * from `filters`, or the error raised while building it.
     */
    method GetFilteredRecipe(filters: FilterMap) returns (res: Result<set<Recipe>, FilterError>)
      requires Valid()
      ensures res.Failure? <==> FirstError(filters).Some?
      ensures res.Failure? ==> res.error == FirstError(filters).value
      ensures res.Success? ==> forall r ::
        r in res.value <==> r.id in repository && repository[r.id] == r && Matches(filters, r)
    {
      var condition := AddCondition(filters);
      if condition.Failure? {
        return Failure(condition.error);
      }
      var found := set r | r in repository.Values && Holds(condition.value, r);
      return Success(found);
    }

    /** `findRecipeById`: the stored recipe, or not-found with the id in the message. */
    function FindRecipeById(recipeId: string): (res: Result<Recipe, ServiceError>)
      reads this
      requires Valid()
      ensures res.Success? <==> recipeId in repository
      ensures res.Success? ==> res.value == repository[recipeId] && res.value.id == recipeId
      ensures res.Failure? ==> res.error == NotFound("Recipe not found for this id :: " + recipeId)
    {
      if recipeId in repository then Success(repository[recipeId])
      else Failure(NotFound(NotFoundMessage(recipeId)))
    }

    /** `save`: stores the recipe under its id, replacing any previous one, and returns it. */
    method Save(recipe: Recipe) returns (saved: Recipe)
      requires Valid()
      modifies this
      ensures Valid()
      ensures saved == recipe
      ensures repository == old(repository)[recipe.id := recipe]
      ensures recipe.id in old(repository) ==> |repository| == |old(repository)|
      ensures recipe.id !in old(repository) ==> |repository| == |old(repository)| + 1
    {
      repository := repository[recipe.id := recipe];
      saved := recipe;
    }

    /** `createRecipe`: saves the recipe converted from the input record (which has the same fields). */
    method CreateRecipe(recipe: Recipe) returns (saved: Recipe)
      requires Valid()
      modifies this
      ensures Valid()
      ensures saved == recipe && repository == old(repository)[recipe.id := recipe]
    {
      saved := Save(recipe);
    }

    /**
     * `updateRecipe`: looks the recipe up, copies every field of the details but
     * the id onto it, and saves it. A missing id fails before anything is saved.
     */
    method UpdateRecipe(recipeId: string, recipeDetails: Recipe) returns (res: Result<Recipe, ServiceError>)
      requires Valid()
      modifies this
      ensures Valid()
      ensures recipeId !in old(repository) ==>
        res == Failure(NotFound(NotFoundMessage(recipeId))) && repository == old(repository)
      ensures recipeId in old(repository) ==>
        && res.Success?
        && res.value.id == recipeId
        && res.value == recipeDetails.(id := recipeId)
        && repository == old(repository)[recipeId := res.value]
    {
      var found := FindRecipeById(recipeId);
      if found.Failure? {
        return Failure(found.error);
      }
      var recipe := Update(found.value, recipeDetails);
      var saved := Save(recipe);
      return Success(saved);
    }

    /**
     * The shared body of the two patch operations: look up, patch a copy, copy
     * the patched fields but the id back onto the stored recipe, and save it.
     */
    method PatchAndSave(recipeId: string, applyPatch: Recipe -> Option<Recipe>) returns (res: Result<Recipe, ServiceError>)
      requires Valid()
      modifies this
      ensures Valid()
      ensures recipeId !in old(repository) ==>
        res == Failure(NotFound(NotFoundMessage(recipeId))) && repository == old(repository)
      ensures recipeId in old(repository) && applyPatch(old(repository)[recipeId]).None? ==>
        res == Failure(PatchRejected) && repository == old(repository)
      ensures recipeId in old(repository) && applyPatch(old(repository)[recipeId]).Some? ==>
        && res.Success?
        && res.value == applyPatch(old(repository)[recipeId]).value.(id := recipeId)
        && repository == old(repository)[recipeId := res.value]
    {
      var found := FindRecipeById(recipeId);
      if found.Failure? {
        return Failure(found.error);
      }
      var recipeResource := AsInput(found.value);
      var patchedRecipeResource := applyPatch(recipeResource);
      if patchedRecipeResource.None? {
        return Failure(PatchRejected);
      }
      var recipe := Update(found.value, patchedRecipeResource.value);
      var saved := Save(recipe);
      return Success(saved);
    }

    /** `saveMergePatch`, with the merge patch (and its validation) given as a function. */
    method SaveMergePatch(recipeId: string, mergePatch: Recipe -> Option<Recipe>) returns (res: Result<Recipe, ServiceError>)
      requires Valid()
      modifies this
      ensures Valid()
      ensures recipeId !in old(repository) ==>
        res == Failure(NotFound(NotFoundMessage(recipeId))) && repository == old(repository)
      ensures recipeId in old(repository) && mergePatch(old(repository)[recipeId]).None? ==>
        res == Failure(PatchRejected) && repository == old(repository)
      ensures recipeId in old(repository) && mergePatch(old(repository)[recipeId]).Some? ==>
        && res.Success?
        && res.value == mergePatch(old(repository)[recipeId]).value.(id := recipeId)
        && repository == old(repository)[recipeId := res.value]
    {
      res := PatchAndSave(recipeId, mergePatch);
    }

    /** `saveJsonPatch`, with the JSON patch (and its validation) given as a function. */
    method SaveJsonPatch(recipeId: string, jsonPatch: Recipe -> Option<Recipe>) returns (res: Result<Recipe, ServiceError>)
      requires Valid()
      modifies this
      ensures Valid()
      ensures recipeId !in old(repository) ==>
        res == Failure(NotFound(NotFoundMessage(recipeId))) && repository == old(repository)
      ensures recipeId in old(repository) && jsonPatch(old(repository)[recipeId]).None? ==>
        res == Failure(PatchRejected) && repository == old(repository)
      ensures recipeId in old(repository) && jsonPatch(old(repository)[recipeId]).Some? ==>
        && res.Success?
        && res.value == jsonPatch(old(repository)[recipeId]).value.(id := recipeId)
        && repository == old(repository)[recipeId := res.value]
    {
      res := PatchAndSave(recipeId, jsonPatch);
    }

    /** `deleteRecipeById`: removes that id, if present, and nothing else. */
    method DeleteRecipeById(recipeId: string)
      requires Valid()
      modifies this
      ensures Valid()
      ensures repository == old(repository) - {recipeId}
      ensures recipeId !in repository
      ensures recipeId in old(repository) ==> |repository| == |old(repository)| - 1
      ensures recipeId !in old(repository) ==> repository == old(repository)
      ensures forall id | id in old(repository) && id != recipeId :: id in repository && repository[id] == old(repository)[id]
    {
      repository := repository - {recipeId};
    }

    /** `deleteAllRecipes`: empties the repository. */
    method DeleteAllRecipes()
      requires Valid()
      modifies this
      ensures Valid()
      ensures repository == map[]
    {
      repository := map[];
    }
  }
}
