/**
 * The query-filter builder: a multi-valued map of query parameters is folded,
 * entry by entry and value by value, into one conjunctive predicate over
 * recipes held by a mutable boolean builder.
 */
module SearchCriteria {

  import opened Wrappers
  import opened Domain
  import opened Text

  /** The filter map in iteration order: each key with its list of values. */
  type FilterMap = seq<(string, seq<string>)>

  /** Predicates over a recipe document, as the query expressions built from the recipe metamodel. */
  datatype Expr =
    | ServingsEq(n: Int32)
    | IngredientsContains(ingredient: string)
    | InstructionsContainsIgnoreCase(text: string)
    | TitleContainsIgnoreCase(text: string)
    | CategoryEq(category: Category)
    | Not(operand: Expr)
    | And(left: Expr, right: Expr)

  /**
   * What an expression means for one stored recipe; a text clause holds when the
   * lower-cased value occurs at some position of the lower-cased field.
   */
  function Eval(e: Expr, r: Recipe): (b: bool)
    ensures e.InstructionsContainsIgnoreCase? ==>
      (b <==> exists i: nat :: OccursAt(ToLower(e.text), ToLower(r.instructions), i))
    ensures e.TitleContainsIgnoreCase? ==>
      (b <==> exists i: nat :: OccursAt(ToLower(e.text), ToLower(r.title), i))
  {
    match e
    case ServingsEq(n) => r.servings == n
    case IngredientsContains(v) => v in r.ingredients
    case InstructionsContainsIgnoreCase(v) => ContainsIgnoreCase(r.instructions, v)
    case TitleContainsIgnoreCase(v) => ContainsIgnoreCase(r.title, v)
    case CategoryEq(c) => r.category == c
    case Not(p) => !Eval(p, r)
    case And(p, q) => Eval(p, r) && Eval(q, r)
  }

  /** The value of a builder: None is the empty builder, which imposes no condition. */
  function Holds(value: Option<Expr>, r: Recipe): bool
  {
    match value
    case None => true
    case Some(e) => Eval(e, r)
  }

  /**
   * The value a `BooleanBuilder` holds after conjoining `clauses` in order, each
   * `and` wrapping the value so far: nothing for no clause at all.
   */
  function Conjoin(clauses: seq<Expr>): (v: Option<Expr>)
    ensures v.None? <==> clauses == []
  {
    if |clauses| == 0 then None
    else
      var rest := Conjoin(clauses[..|clauses| - 1]);
      var p := clauses[|clauses| - 1];
      Some(if rest.None? then p else Expr.And(rest.value, p))
  }

  /** The conjoined value holds of a recipe iff every clause does. */
  lemma {:induction false} HoldsConjoin(clauses: seq<Expr>, r: Recipe)
    ensures Holds(Conjoin(clauses), r) <==> forall c | c in clauses :: Eval(c, r)
  {
    if |clauses| > 0 {
      var front := clauses[..|clauses| - 1];
      var p := clauses[|clauses| - 1];
      HoldsConjoin(front, r);
      assert clauses == front + [p];
      assert (forall c | c in clauses :: Eval(c, r)) <==> (forall c | c in front :: Eval(c, r)) && Eval(p, r);
    }
  }

  /**
   * QueryDSL's `BooleanBuilder`: a mutable conjunction, empty to start with,
   * whose `getValue()` is null until a first clause is added.
   */
  class BooleanBuilder {
    var value: Option<Expr>
    /** The clauses conjoined so far, in order. */
    ghost var clauses: seq<Expr>

    ghost predicate Valid()
      reads this
    {
      value == Conjoin(clauses)
    }

    constructor ()
      ensures Valid() && clauses == []
    {
      value := None;
      clauses := [];
    }

    /** Conjoins `p` to the current value (or makes `p` the value of an empty builder). */
    method And(p: Expr)
      requires Valid()
      modifies this
      ensures Valid() && clauses == old(clauses) + [p]
      ensures value == Some(if old(value).None? then p else Expr.And(old(value).value, p))
      ensures forall r :: Holds(value, r) <==> Holds(old(value), r) && Eval(p, r)
    {
      clauses := clauses + [p];
      assert clauses[..|clauses| - 1] == old(clauses);
      if value.None? {
        value := Some(p);
      } else {
        value := Some(Expr.And(value.value, p));
      }
    }

    /** Conjoins the negation of `p`. */
    method AndNot(p: Expr)
      requires Valid()
      modifies this
      ensures Valid() && clauses == old(clauses) + [Not(p)]
      ensures value == Some(if old(value).None? then Not(p) else Expr.And(old(value).value, Not(p)))
      ensures forall r :: Holds(value, r) <==> Holds(old(value), r) && !Eval(p, r)
    {
      And(Not(p));
    }

    /** `getValue()`: null for an empty builder, otherwise the conjunction of every clause added. */
    function GetValue(): (v: Option<Expr>)
      requires Valid()
      reads this
      ensures v.None? <==> clauses == []
      ensures forall r :: Holds(v, r) <==> forall c | c in clauses :: Eval(c, r)
    {
      forall r: Recipe ensures Holds(value, r) <==> forall c | c in clauses :: Eval(c, r) {
        HoldsConjoin(clauses, r);
      }
      value
    }
  }

  /** Why building the predicate fails; each is an exception in the source. */
  datatype FilterError =
    | MissingValue(key: string)        // `value.get(0)` on an empty list
    | NumberFormat(input: string)      // `Integer.parseInt` rejects the first value
    | NoSuchCategory(name: string)     // `Category.valueOf` finds no constant of that name

  /** The keys that take each of their values as one clause. */
  predicate IsMultiValuedKey(key: string)
  {
    key == "includes" || key == "excludes" || key == "instructions" || key == "title"
  }

  /** The six keys the builder recognises; every other key is ignored. */
  predicate IsHandledKey(key: string)
  {
    key == "servings" || key == "category" || IsMultiValuedKey(key)
  }

  /** The error one entry raises, if any. */
  function EntryError(key: string, values: seq<string>): (err: Option<FilterError>)
    ensures err.Some? ==> key == "servings" || key == "category"
  {
    if key == "servings" then
      if |values| == 0 then Some(MissingValue(key))
      else if ParseInt(values[0]).None? then Some(NumberFormat(values[0]))
      else None
    else if key == "category" then
      if |values| == 0 then Some(MissingValue(key))
      else if CategoryOf(values[0]).None? then Some(NoSuchCategory(values[0]))
      else None
    else None
  }

  /** The error of the first entry, in iteration order, that raises one. */
  function FirstError(filters: FilterMap): Option<FilterError>
  {
    if |filters| == 0 then None
    else if EntryError(filters[0].0, filters[0].1).Some? then EntryError(filters[0].0, filters[0].1)
    else FirstError(filters[1..])
  }

  /** Whether one value of a multi-valued key is satisfied by the recipe. */
  predicate ValueMatches(key: string, v: string, r: Recipe)
  {
    if key == "includes" then v in r.ingredients
    else if key == "excludes" then v !in r.ingredients
    else if key == "instructions" then ContainsIgnoreCase(r.instructions, v)
    else if key == "title" then ContainsIgnoreCase(r.title, v)
    else true
  }

  /** The meaning of one filter entry, stated over the recipe's fields. */
  predicate EntryMatches(key: string, values: seq<string>, r: Recipe)
  {
    if key == "servings" then
      |values| > 0 && ParseInt(values[0]) == Some(r.servings)
    else if key == "category" then
      |values| > 0 && CategoryOf(values[0]) == Some(r.category)
    else
      forall v | v in values :: ValueMatches(key, v, r)
  }

  /** The specification of the filter: the recipe satisfies every entry. */
  predicate Matches(filters: FilterMap, r: Recipe)
  {
    forall e | e in filters :: EntryMatches(e.0, e.1, r)
  }

  /** Whether an entry contributes at least one clause to the builder. */
  predicate AddsClause(key: string, values: seq<string>)
  {
    key == "servings" || key == "category" || (IsMultiValuedKey(key) && |values| > 0)
  }

  lemma {:induction false} FirstErrorAppend(a: FilterMap, b: FilterMap)
    ensures FirstError(a + b) == if FirstError(a).Some? then FirstError(a) else FirstError(b)
  {
    if |a| > 0 {
      assert (a + b)[0] == a[0];
      assert (a + b)[1..] == a[1..] + b;
      FirstErrorAppend(a[1..], b);
    } else {
      assert a + b == b;
    }
  }

  /** No error is raised exactly when no entry raises one, whatever their order. */
  lemma {:induction false} FirstErrorNoneIff(filters: FilterMap)
    ensures FirstError(filters).None? <==> forall e | e in filters :: EntryError(e.0, e.1).None?
  {
    if |filters| > 0 {
      FirstErrorNoneIff(filters[1..]);
      assert forall e | e in filters :: e == filters[0] || e in filters[1..];
    }
  }

  lemma AllValuesMatchSnoc(key: string, values: seq<string>, v: string, r: Recipe)
    ensures (forall w | w in values + [v] :: ValueMatches(key, w, r)) <==>
            (forall w | w in values :: ValueMatches(key, w, r)) && ValueMatches(key, v, r)
  {
  }

  /**
   * Adds the clauses of one map entry to the builder: the body of the
   * per-entry callback of `addCondition`. An entry that raises an error adds
   * nothing.
   */
  method AddEntry(queryBuilder: BooleanBuilder, key: string, value: seq<string>) returns (err: Option<FilterError>)
    requires queryBuilder.Valid()
    modifies queryBuilder
    ensures queryBuilder.Valid()
    ensures err == EntryError(key, value)
    ensures err.Some? ==> queryBuilder.value == old(queryBuilder.value)
    ensures err.None? ==> forall r :: Holds(queryBuilder.value, r) <==> Holds(old(queryBuilder.value), r) && EntryMatches(key, value, r)
    ensures queryBuilder.value.None? <==> old(queryBuilder.value).None? && (err.Some? || !AddsClause(key, value))
  {
    if key == "servings" {
      if |value| == 0 {
        return Some(MissingValue(key));
      }
      var n := ParseInt(value[0]);
      if n.None? {
        return Some(NumberFormat(value[0]));
      }
      queryBuilder.And(ServingsEq(n.value));
    } else if key == "includes" || key == "excludes" || key == "instructions" || key == "title" {
      var j := 0;
      while j < |value|
        invariant 0 <= j <= |value|
        invariant queryBuilder.Valid()
        invariant forall r :: Holds(queryBuilder.value, r) <==>
          Holds(old(queryBuilder.value), r) && forall v | v in value[..j] :: ValueMatches(key, v, r)
        invariant queryBuilder.value.None? <==> j == 0 && old(queryBuilder.value).None?
      {
        var tempVal := value[j];
        assert value[..j + 1] == value[..j] + [tempVal];
        ghost var before := queryBuilder.value;
        if key == "includes" {
          queryBuilder.And(IngredientsContains(tempVal));
        } else if key == "excludes" {
          queryBuilder.AndNot(IngredientsContains(tempVal));
        } else if key == "instructions" {
          queryBuilder.And(InstructionsContainsIgnoreCase(tempVal));
        } else {
          queryBuilder.And(TitleContainsIgnoreCase(tempVal));
        }
        assert forall r :: Holds(queryBuilder.value, r) <==> Holds(before, r) && ValueMatches(key, tempVal, r);
        forall r: Recipe
          ensures (forall v | v in value[..j + 1] :: ValueMatches(key, v, r)) <==>
                  (forall v | v in value[..j] :: ValueMatches(key, v, r)) && ValueMatches(key, tempVal, r)
        {
          AllValuesMatchSnoc(key, value[..j], tempVal, r);
        }
        j := j + 1;
      }
      assert value[..j] == value;
    } else if key == "category" {
      if |value| == 0 {
        return Some(MissingValue(key));
      }
      var c := CategoryOf(value[0]);
      if c.None? {
        return Some(NoSuchCategory(value[0]));
      }
      queryBuilder.And(CategoryEq(c.value));
    }
    return None;
  }

  /**
   * Builds the predicate for a filter map, like `addCondition`: one clause per
   * recognised key and value, conjoined in iteration order.
   */
  method AddCondition(searchMap: FilterMap) returns (res: Result<Option<Expr>, FilterError>)
    ensures res.Failure? <==> FirstError(searchMap).Some?
    ensures res.Failure? ==> res.error == FirstError(searchMap).value
    ensures res.Success? ==> forall r :: Holds(res.value, r) <==> Matches(searchMap, r)
    ensures res.Success? ==> (res.value.None? <==> forall e | e in searchMap :: !AddsClause(e.0, e.1))
  {
    var queryBuilder := new BooleanBuilder();
    var i := 0;
    while i < |searchMap|
      invariant 0 <= i <= |searchMap|
      invariant queryBuilder.Valid()
      invariant FirstError(searchMap[..i]) == None
      invariant forall r :: Holds(queryBuilder.value, r) <==> Matches(searchMap[..i], r)
      invariant queryBuilder.value.None? <==> forall e | e in searchMap[..i] :: !AddsClause(e.0, e.1)
    {
      var (key, value) := searchMap[i];
      assert searchMap[..i + 1] == searchMap[..i] + [(key, value)];
      FirstErrorAppend(searchMap[..i], [(key, value)]);
      var err := AddEntry(queryBuilder, key, value);
      if err.Some? {
        FirstErrorAppend(searchMap[..i + 1], searchMap[i + 1..]);
        assert searchMap == searchMap[..i + 1] + searchMap[i + 1..];
        return Failure(err.value);
      }
      i := i + 1;
    }
    assert searchMap[..i] == searchMap;
    return Success(queryBuilder.GetValue());
  }

  // ---------------------------------------------------------------------------
  // Properties of the filter

  /** The filter is a conjunction: a map split in two matches iff both halves match. */
  lemma MatchesAppend(f: FilterMap, g: FilterMap, r: Recipe)
    ensures Matches(f + g, r) <==> Matches(f, r) && Matches(g, r)
  {
  }

  /**
   * The order in which the entries are visited changes neither whether the
   * filter is accepted nor which recipes it matches.
   */
  lemma ReorderingPreservesMeaning(f: FilterMap, g: FilterMap, r: Recipe)
    requires multiset(f) == multiset(g)
    ensures FirstError(f).None? <==> FirstError(g).None?
    ensures Matches(f, r) <==> Matches(g, r)
  {
    assert forall e :: e in f <==> e in g by {
      forall e ensures e in f <==> e in g {
        assert e in f <==> e in multiset(f);
        assert e in g <==> e in multiset(g);
      }
    }
    FirstErrorNoneIff(f);
    FirstErrorNoneIff(g);
  }

  /**
   * What an accepted filter promises about every recipe it matches, key by key:
   * `servings` and `category` use only the first value, the other keys every value.
   */
  lemma MatchedRecipeSatisfiesEntry(f: FilterMap, key: string, values: seq<string>, r: Recipe)
    requires (key, values) in f && Matches(f, r)
    ensures key == "servings" ==> |values| > 0 && ParseInt(values[0]) == Some(r.servings)
    ensures key == "category" ==> |values| > 0 && CategoryOf(values[0]) == Some(r.category)
    ensures key == "includes" ==> forall v | v in values :: v in r.ingredients
    ensures key == "excludes" ==> forall v | v in values :: v !in r.ingredients
    ensures key == "instructions" ==> forall v | v in values :: ContainsIgnoreCase(r.instructions, v)
    ensures key == "title" ==> forall v | v in values :: ContainsIgnoreCase(r.title, v)
  {
  }

  /** Conversely, a recipe that satisfies every entry in those terms is matched. */
  lemma EntryConditionsSufficient(f: FilterMap, r: Recipe)
    requires forall e | e in f ::
      && (e.0 == "servings" ==> |e.1| > 0 && ParseInt(e.1[0]) == Some(r.servings))
      && (e.0 == "category" ==> |e.1| > 0 && CategoryOf(e.1[0]) == Some(r.category))
      && (e.0 == "includes" ==> forall v | v in e.1 :: v in r.ingredients)
      && (e.0 == "excludes" ==> forall v | v in e.1 :: v !in r.ingredients)
      && (e.0 == "instructions" ==> forall v | v in e.1 :: ContainsIgnoreCase(r.instructions, v))
      && (e.0 == "title" ==> forall v | v in e.1 :: ContainsIgnoreCase(r.title, v))
    ensures Matches(f, r)
  {
  }

  /** A `servings` or `category` entry whose first value cannot be converted makes the whole filter fail. */
  lemma UnconvertibleFirstValueFails(f: FilterMap, i: nat)
    requires i < |f|
    requires f[i].0 == "servings" || f[i].0 == "category"
    requires |f[i].1| == 0
      || (f[i].0 == "servings" && ParseInt(f[i].1[0]).None?)
      || (f[i].0 == "category" && CategoryOf(f[i].1[0]).None?)
    ensures FirstError(f).Some?
  {
    FirstErrorNoneIff(f);
    assert f[i] in f;
  }

  /** When the only entry is a bad `servings` value, the error names that value. */
  lemma NonNumericServingsError(values: seq<string>)
    requires |values| > 0 && ParseInt(values[0]).None?
    ensures FirstError([("servings", values)]) == Some(NumberFormat(values[0]))
  {
  }

  /** An entry under an unrecognised key neither raises an error nor restricts the match. */
  lemma UnknownKeyIgnored(f: FilterMap, key: string, values: seq<string>, r: Recipe)
    requires !IsHandledKey(key)
    ensures FirstError(f + [(key, values)]) == FirstError(f)
    ensures Matches(f + [(key, values)], r) <==> Matches(f, r)
    ensures !AddsClause(key, values)
  {
    FirstErrorAppend(f, [(key, values)]);
    MatchesAppend(f, [(key, values)], r);
  }

  /**
   * An unrecognised entry anywhere in the map changes neither the error nor the
   * matching recipes.
   */
  lemma UnknownKeyIgnoredAnywhere(f: FilterMap, key: string, values: seq<string>, g: FilterMap, r: Recipe)
    requires !IsHandledKey(key)
    ensures FirstError(f + [(key, values)] + g) == FirstError(f + g)
    ensures Matches(f + [(key, values)] + g, r) <==> Matches(f + g, r)
  {
    FirstErrorAppend(f, [(key, values)]);
    FirstErrorAppend(f + [(key, values)], g);
    FirstErrorAppend(f, g);
    MatchesAppend(f + [(key, values)], g, r);
    MatchesAppend(f, [(key, values)], r);
    MatchesAppend(f, g, r);
  }

  /**
   * A map holding only unrecognised keys is accepted, adds no clause (the
   * builder stays empty) and matches every recipe.
   */
  lemma OnlyUnknownKeys(f: FilterMap, r: Recipe)
    requires forall e | e in f :: !IsHandledKey(e.0)
    ensures FirstError(f) == None
    ensures forall e | e in f :: !AddsClause(e.0, e.1)
    ensures Matches(f, r)
  {
    FirstErrorNoneIff(f);
  }

  /**
   * Monotonicity: one more value under `includes`, `excludes`, `instructions`
   * or `title` can only shrink the set of matching recipes.
   */
  lemma MoreValuesNarrow(f: FilterMap, i: nat, v: string, r: Recipe)
    requires i < |f| && IsMultiValuedKey(f[i].0)
    ensures FirstError(f[i := (f[i].0, f[i].1 + [v])]).None? <==> FirstError(f).None?
    ensures Matches(f[i := (f[i].0, f[i].1 + [v])], r) ==> Matches(f, r)
  {
    var g := f[i := (f[i].0, f[i].1 + [v])];
    FirstErrorNoneIff(f);
    FirstErrorNoneIff(g);
    forall e | e in f
      ensures e in g || (e == f[i] && g[i] in g)
    {
      var k :| 0 <= k < |f| && f[k] == e;
      if k != i {
        assert g[k] == e;
      }
    }
    if Matches(g, r) {
      assert g[i] in g;
      AllValuesMatchSnoc(f[i].0, f[i].1, v, r);
      assert EntryMatches(f[i].0, f[i].1, r);
    }
  }
}
