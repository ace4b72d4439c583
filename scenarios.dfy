/**
 * Concrete runs of the model on the data the application's own tests use:
 * the four recipes of the integration test (their instructions abbreviated)
 * and the repository test's save-and-delete sequence.
 */
module Scenarios {

  import opened Wrappers
  import opened Domain
  import opened Text
  import opened SearchCriteria
  import opened Services

  function IntegrationRecipes(): seq<Recipe>
  {
    [ Recipe("0", "Fried egg with tomato", 2, {"egg", "tomato"},
             "crack the egg on the pan. Bake in oven.", NON_VEGETARIAN),
      Recipe("1", "Kadai paneer", 3, {"paneer", "bell pepper"},
             "heat butter in a kadai and saute the spices", VEGETARIAN),
      Recipe("2", "mixed veg", 2, {"bell pepper", "potato", "mushroom"},
             "chop and stir in kadai", VEGETARIAN),
      Recipe("3", "salmon with potato", 4, {"salmon", "potato"},
             "grill the fish with potato in the oven", NON_VEGETARIAN) ]
  }

  /** `?servings=4&includes=potato` selects exactly the salmon recipe. */
  lemma ServingsFourIncludesPotato()
    ensures forall r | r in IntegrationRecipes() ::
      Matches([("servings", ["4"]), ("includes", ["potato"])], r) <==> r.id == "3"
  {
    assert ParseInt("4") == Some(4) by {
      assert AllDigits("4");
      assert "4"[..0] == [];
      assert DigitsValue("4") == 4;
    }
  }

  /** `?category=VEGETARIAN` selects exactly the two vegetarian recipes. */
  lemma CategoryVegetarian()
    ensures forall r | r in IntegrationRecipes() ::
      Matches([("category", ["VEGETARIAN"])], r) <==> r.category == VEGETARIAN
  {
    forall r | r in IntegrationRecipes()
      ensures Matches([("category", ["VEGETARIAN"])], r) <==> r.category == VEGETARIAN
    {
      assert EntryMatches("category", ["VEGETARIAN"], r) <==> r.category == VEGETARIAN;
    }
  }

  /** `?instructions=oven&excludes=salmon` keeps the fried egg, whose instructions mention the oven. */
  lemma OvenKeepsFriedEgg()
    ensures Matches([("instructions", ["oven"]), ("excludes", ["salmon"])], IntegrationRecipes()[0])
  {
    var egg := IntegrationRecipes()[0];
    assert OccursAt("oven", egg.instructions, 34) by {
      assert egg.instructions[34..38] == "oven";
    }
    ContainsImpliesContainsIgnoreCase(egg.instructions, "oven", 34);
  }

  /** The same filter drops the salmon recipe, although its instructions mention the oven too. */
  lemma OvenDropsSalmon()
    ensures !Matches([("instructions", ["oven"]), ("excludes", ["salmon"])], IntegrationRecipes()[3])
  {
    var salmon := IntegrationRecipes()[3];
    assert !EntryMatches("excludes", ["salmon"], salmon) by {
      assert "salmon" in ["salmon"] && "salmon" in salmon.ingredients;
    }
    assert ("excludes", ["salmon"]) in [("instructions", ["oven"]), ("excludes", ["salmon"])];
  }

  /**
   * The repository test's sequence: save two recipes, delete one, one remains
   * and the other is gone; then update the survivor and delete everything.
   */
  method SaveTwoDeleteOne() returns (afterDelete: nat, missing: Result<Recipe, ServiceError>,
                                     kept: Result<Recipe, ServiceError>, updated: Result<Recipe, ServiceError>,
                                     afterClear: nat)
    ensures afterDelete == 1
    ensures missing == Failure(NotFound("Recipe not found for this id :: 2"))
    ensures kept.Success? && kept.value.id == "1" && kept.value.title == "Fried egg with tomato"
    ensures updated.Success? && updated.value.id == "1" && updated.value.title == "Fried potatoes"
    ensures afterClear == 0
  {
    var service := new RecipeServiceImpl();
    var first := Recipe("1", "Fried egg with tomato", 2, {"potato", "egg"},
                        "crack the egg on the pan with little oil.", NON_VEGETARIAN);
    var second := Recipe("2", "Fried potatoes", 3, {"potato", "cauliflower"},
                         "Bake potatoes and cauliflower in oven.", VEGETARIAN);
    var saved := service.Save(first);
    saved := service.Save(second);
    service.DeleteRecipeById(second.id);
    afterDelete := |service.GetAllRecipes()|;
    assert "Recipe not found for this id :: " + "2" == "Recipe not found for this id :: 2";
    missing := service.FindRecipeById("2");
    kept := service.FindRecipeById("1");
    updated := service.UpdateRecipe("1", second);
    service.DeleteAllRecipes();
    afterClear := |service.GetAllRecipes()|;
  }
}
