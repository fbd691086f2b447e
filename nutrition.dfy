/**
 * The nutrition resolver: one search of the nutrition database, the choice of
 * a value for each macro from the first food's nutrient list, and the scaling
 * from the database's 100 g reference to the requested mass. Amounts are
 * integers counting tenths of a unit (kcal or g).
 */
module Nutrition {
  import opened Wrappers
  import Text

  /** A `{nutrientName, value}` record; either field may be missing. */
  datatype Nutrient = Nutrient(nutrientName: Option<string>, value: Option<int>)

  /** A food record; `foodNutrients` may be missing. */
  datatype Food = Food(foodNutrients: Option<seq<Nutrient>>)

  /** The outcome of the search request: it throws, or `resp.data.foods` (possibly missing). */
  datatype Search = Threw | Response(foods: Option<seq<Food>>)

  /** Calories, protein, carbohydrate and fat, in tenths. */
  datatype Macros = Macros(calories: int, protein: int, carbs: int, fat: int)

  const Zero := Macros(0, 0, 0, 0)

  /** The name fragments searched for each macro, in the order they are tried. */
  const EnergyTerms: seq<string> := ["energy", "calories"]
  const ProteinTerms: seq<string> := ["protein"]
  const CarbTerms: seq<string> := ["carbohydrate"]
  const FatTerms: seq<string> := ["total lipid", "total fat", "lipid"]

  /** `name.includes(term)`. */
  predicate Includes(name: string, term: string) {
    exists i | 0 <= i <= |name| - |term| :: term <= name[i..]
  }

  /** A key counts as configured when it is present and not the empty string. */
  predicate KeyPresent(apiKey: Option<string>) {
    apiKey.Some? && apiKey.value != ""
  }

  /** A nutrient has a (non-empty) name whose lower-cased form contains one of the terms. */
  predicate Matches(n: Nutrient, terms: seq<string>) {
    n.nutrientName.Some? && n.nutrientName.value != "" &&
    exists t | t in terms :: Includes(Text.ToLower(n.nutrientName.value), t)
  }

  /** `n.value || 0`. */
  function ValueOrZero(n: Nutrient): int {
    n.value.GetOr(0)
  }

  /**
   * The value `findVal` returns: that of the first nutrient, in list order,
   * that matches any term; 0 when none does.
   */
  function FirstMatchValue(nutr: seq<Nutrient>, terms: seq<string>): int {
    if nutr == [] then 0
    else if Matches(nutr[0], terms) then ValueOrZero(nutr[0])
    else FirstMatchValue(nutr[1..], terms)
  }

  /** The earliest matching nutrient decides, whatever comes after it. */
  lemma {:induction false} FirstMatchWins(nutr: seq<Nutrient>, terms: seq<string>, k: nat)
    requires k < |nutr| && Matches(nutr[k], terms)
    requires forall j :: 0 <= j < k ==> !Matches(nutr[j], terms)
    ensures FirstMatchValue(nutr, terms) == ValueOrZero(nutr[k])
  {
    if k > 0 {
      FirstMatchWins(nutr[1..], terms, k - 1);
    }
  }

  /** Without a matching nutrient the macro is 0. */
  lemma {:induction false} NoMatchIsZero(nutr: seq<Nutrient>, terms: seq<string>)
    requires forall j :: 0 <= j < |nutr| ==> !Matches(nutr[j], terms)
    ensures FirstMatchValue(nutr, terms) == 0
  {
    if nutr != [] {
      NoMatchIsZero(nutr[1..], terms);
    }
  }

  /** A nutrient without a name, or with an empty one, never matches. */
  lemma UnnamedNeverMatches(n: Nutrient, terms: seq<string>)
    requires n.nutrientName.None? || n.nutrientName == Some("")
    ensures !Matches(n, terms)
  {
  }

  /**
   * Nutrient order takes precedence over term order: a nutrient matching only
   * the last fat term ("lipid") wins over a later one matching the first
   * ("total lipid").
   */
  lemma NutrientOrderBeatsTermOrder()
    ensures FirstMatchValue([Nutrient(Some("Lipids"), Some(30)), Nutrient(Some("Total lipid (fat)"), Some(100))], FatTerms) == 30
  {
    var first := Nutrient(Some("Lipids"), Some(30));
    var name := Text.ToLower("Lipids");
    assert name == "lipids";
    assert "lipid" <= name[0..];
    assert Includes(name, "lipid");
    assert Matches(first, FatTerms) by {
      assert "lipid" in FatTerms;
    }
  }

  /** `findVal(terms)`: the nested search, nutrients outside, terms inside, with early return. */
  method FindVal(nutr: seq<Nutrient>, terms: seq<string>) returns (v: int)
    ensures v == FirstMatchValue(nutr, terms)
  {
    var i := 0;
    while i < |nutr|
      invariant 0 <= i <= |nutr|
      invariant FirstMatchValue(nutr[i..], terms) == FirstMatchValue(nutr, terms)
    {
      var n := nutr[i];
      assert nutr[i..][0] == n && nutr[i..][1..] == nutr[i + 1..];
      if n.nutrientName.Some? && n.nutrientName.value != "" {
        var name := Text.ToLower(n.nutrientName.value);
        var j := 0;
        while j < |terms|
          invariant 0 <= j <= |terms|
          invariant forall k :: 0 <= k < j ==> !Includes(name, terms[k])
        {
          if Includes(name, terms[j]) {
            return ValueOrZero(n);
          }
          j := j + 1;
        }
      }
      i := i + 1;
    }
    return 0;
  }

  /**
   * `+(v * grams / 100).toFixed(1)` for v in tenths: the scaled amount rounded
   * to the nearest tenth, ties away from zero.
   */
  function Scale(v: int, grams: int): (r: int)
    ensures v * grams >= 0 ==> 100 * r - 50 <= v * grams < 100 * r + 50
    ensures v * grams < 0 ==> 100 * r - 50 < v * grams <= 100 * r + 50
  {
    var p := v * grams;
    if p >= 0 then (p + 50) / 100 else -((-p + 50) / 100)
  }

  /** Scaling by a whole multiple of 100 g is exact multiplication. */
  lemma ScaleByHundreds(v: int, k: int)
    ensures Scale(v, 100 * k) == v * k
  {
  }

  /** The four macros of one nutrient list, unscaled. */
  function RawMacros(nutr: seq<Nutrient>): Macros {
    Macros(FirstMatchValue(nutr, EnergyTerms), FirstMatchValue(nutr, ProteinTerms),
           FirstMatchValue(nutr, CarbTerms), FirstMatchValue(nutr, FatTerms))
  }

  function ScaleMacros(m: Macros, grams: int): Macros {
    Macros(Scale(m.calories, grams), Scale(m.protein, grams), Scale(m.carbs, grams), Scale(m.fat, grams))
  }

  /** The first food of a response, when the response has one. */
  function FirstFood(response: Search): Option<Food> {
    if response.Response? && response.foods.Some? && response.foods.value != []
    then Some(response.foods.value[0]) else None
  }

  /** What `getNutritionByQuery` resolves to, given whether the key is set and the search outcome. */
  function Resolve(grams: int, keyPresent: bool, response: Search): Option<Macros> {
    if !keyPresent then Some(Zero)
    else match FirstFood(response)
      case None => None
      case Some(food) => Some(ScaleMacros(RawMacros(food.foodNutrients.GetOr([])), grams))
  }

  /** Without a key the estimate is all zeros, whatever the search would have answered. */
  lemma NoKeyGivesZeros(grams: int, r1: Search, r2: Search)
    ensures Resolve(grams, false, r1) == Some(Zero)
    ensures Resolve(grams, false, r1) == Resolve(grams, false, r2)
  {
  }

  /** A thrown request, a missing `foods` list or an empty one gives no data. */
  lemma NoFoodGivesNull(grams: int, response: Search)
    requires response.Threw? || response.foods.None? || response.foods == Some([])
    ensures Resolve(grams, true, response) == None
  {
  }

  /** Only the first food is consulted: responses agreeing on it agree on the result. */
  lemma OnlyFirstFoodConsulted(grams: int, r1: Search, r2: Search)
    requires r1.Response? && r2.Response? && r1.foods.Some? && r2.foods.Some?
    requires r1.foods.value != [] && r2.foods.value != [] && r1.foods.value[0] == r2.foods.value[0]
    ensures Resolve(grams, true, r1) == Resolve(grams, true, r2)
    ensures Resolve(grams, true, r1).Some?
  {
  }

  /**
   * A food without `foodNutrients` gives zero for every macro, and each of
   * the four macros with no matching nutrient is zero.
   */
  lemma {:induction false} UnmatchedMacroIsZero(grams: int, response: Search)
    requires FirstFood(response).Some?
    ensures Resolve(grams, true, response).Some?
    ensures var nutr := FirstFood(response).value.foodNutrients.GetOr([]);
      var r := Resolve(grams, true, response).value;
      ((forall n :: n in nutr ==> !Matches(n, EnergyTerms)) ==> r.calories == 0) &&
      ((forall n :: n in nutr ==> !Matches(n, ProteinTerms)) ==> r.protein == 0) &&
      ((forall n :: n in nutr ==> !Matches(n, CarbTerms)) ==> r.carbs == 0) &&
      ((forall n :: n in nutr ==> !Matches(n, FatTerms)) ==> r.fat == 0)
    ensures FirstFood(response).value.foodNutrients.None? ==> Resolve(grams, true, response) == Some(Zero)
  {
    var nutr := FirstFood(response).value.foodNutrients.GetOr([]);
    if forall n :: n in nutr ==> !Matches(n, EnergyTerms) {
      NoMatchIsZero(nutr, EnergyTerms);
    }
    if forall n :: n in nutr ==> !Matches(n, ProteinTerms) {
      NoMatchIsZero(nutr, ProteinTerms);
    }
    if forall n :: n in nutr ==> !Matches(n, CarbTerms) {
      NoMatchIsZero(nutr, CarbTerms);
    }
    if forall n :: n in nutr ==> !Matches(n, FatTerms) {
      NoMatchIsZero(nutr, FatTerms);
    }
  }

  /** At the 100 g reference the values are the database's own; at 100k g they are k times those. */
  lemma {:induction false} ResolveScalesLinearly(response: Search, k: int)
    requires FirstFood(response).Some?
    ensures Resolve(100, true, response) == Some(RawMacros(FirstFood(response).value.foodNutrients.GetOr([])))
    ensures var base := Resolve(100, true, response).value;
      Resolve(100 * k, true, response) ==
      Some(Macros(base.calories * k, base.protein * k, base.carbs * k, base.fat * k))
  {
    var raw := RawMacros(FirstFood(response).value.foodNutrients.GetOr([]));
    ScaleByHundreds(raw.calories, 1);
    ScaleByHundreds(raw.protein, 1);
    ScaleByHundreds(raw.carbs, 1);
    ScaleByHundreds(raw.fat, 1);
    ScaleByHundreds(raw.calories, k);
    ScaleByHundreds(raw.protein, k);
    ScaleByHundreds(raw.carbs, k);
    ScaleByHundreds(raw.fat, k);
  }

  /**
   * `getNutritionByQuery(query, grams, apiKey)`; `search` answers the database
   * request for a query, and `requests` lists the queries sent to it. Every
   * thrown error ends in `None` (`null`).
   */
  method GetNutritionByQuery(query: string, grams: int, apiKey: Option<string>, search: string -> Search)
    returns (r: Option<Macros>, requests: seq<string>)
    ensures r == Resolve(grams, KeyPresent(apiKey), search(query))
    ensures requests == if KeyPresent(apiKey) then [query] else []
  {
    requests := [];
    if !KeyPresent(apiKey) {
      return Some(Zero), requests;
    }
    requests := requests + [query];
    var response := search(query);
    if response.Threw? {
      return None, requests;
    }
    var foods := response.foods;
    if foods.None? || |foods.value| == 0 {
      return None, requests;
    }
    var food := foods.value[0];
    var nutr := food.foodNutrients.GetOr([]);

    var calories := FindVal(nutr, EnergyTerms);
    var protein := FindVal(nutr, ProteinTerms);
    var carbs := FindVal(nutr, CarbTerms);
    var fat := FindVal(nutr, FatTerms);

    calories := Scale(calories, grams);
    protein := Scale(protein, grams);
    carbs := Scale(carbs, grams);
    fat := Scale(fat, grams);

    return Some(Macros(calories, protein, carbs, fat)), requests;
  }
}
