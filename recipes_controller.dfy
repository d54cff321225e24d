/**
 * The recipe list endpoint and the payload sanitiser of the recipes
 * controller: number conversion, tag matching, the database where-clause,
 * the in-memory filter chain and the pagination arithmetic.
 */
module RecipesController {
  import opened Wrappers
  import opened Seqs
  import opened Text
  import opened SchemaRules
  import opened JsMath
  import RecipeValidation

  // ------------------------------------------------- toInt and toDecimal

  /** A payload value as `Number(value)` sees it: null, undefined, a number,
      or something whose conversion is NaN. */
  datatype Value = Undefined | Null | Numeric(x: real) | NotNumeric

  /** toInt: null for null, undefined and NaN, else the number truncated
      towards zero. */
  function ToInt(v: Value): (r: Option<int>)
    ensures r.None? <==> !v.Numeric?
    ensures r.Some? ==> Abs(v.x - r.value as real) < 1.0 && Abs(r.value as real) <= Abs(v.x)
  {
    match v
    case Numeric(x) => Some(Trunc(x))
    case _ => None
  }

  /** A whole number converts to itself. */
  lemma ToIntWhole(x: real)
    requires IsInteger(x)
    ensures ToInt(Numeric(x)) == Some(x.Floor)
  {
    var n := x.Floor;
    assert x == n as real;
    assert -x == (-n) as real;
  }

  /** 10 ** precision for the precision of 2 that every call uses. */
  const Hundred: real := 100.0

  /** toDecimal: null for null, undefined and NaN, else the number rounded
      to two decimal places, halves upwards. */
  function ToDecimal(v: Value): (r: Option<real>)
    ensures r.None? <==> !v.Numeric?
    ensures r.Some? ==> IsInteger(r.value * Hundred)
    ensures r.Some? ==> r.value - 0.005 <= v.x < r.value + 0.005
  {
    match v
    case Numeric(x) => Some(Round(x * Hundred) as real / Hundred)
    case _ => None
  }

  lemma NearestWhole(a: int, b: int)
    requires a as real - 0.5 <= b as real < a as real + 0.5
    ensures a == b
  {
  }

  /** A value already given to two places is left alone, so rounding twice
      is rounding once. */
  lemma ToDecimalIdempotent(x: real)
    ensures var d := ToDecimal(Numeric(x)).value;
            ToDecimal(Numeric(d)) == Some(d)
  {
    var d := ToDecimal(Numeric(x)).value;
    var e := ToDecimal(Numeric(d)).value;
    NearestWhole((e * Hundred).Floor, (d * Hundred).Floor);
  }

  // ------------------------------------------------ sanitizeRecipePayload

  /** What `Array.isArray` sees. */
  datatype Listed<T> = Items(items: seq<T>) | NotArray

  datatype IngredientPayload = IngredientPayload(name: string, quantity: Value, unit: string, note: Option<string>)

  /** A recipe body as the create and update handlers receive it. */
  datatype Payload = Payload(
    title: Option<string>, description: Option<string>, category: Option<string>, imageUrl: Option<string>,
    ingredients: Listed<IngredientPayload>, steps: Listed<string>, tags: Listed<string>,
    servings: Value, cookTimeMin: Value, kcalPerServing: Value,
    proteinPerServing: Value, fatPerServing: Value, carbsPerServing: Value)

  datatype IngredientData = IngredientData(name: string, quantity: real, unit: string, note: Option<string>)

  /** The payload after sanitising: the counts are whole numbers, the
      macros are rounded or null, and tags is always a list. */
  datatype RecipeData = RecipeData(
    title: Option<string>, description: Option<string>, category: Option<string>, imageUrl: Option<string>,
    ingredients: Listed<IngredientData>, steps: Listed<string>, tags: seq<string>,
    servings: int, cookTimeMin: int, kcalPerServing: int,
    proteinPerServing: Option<real>, fatPerServing: Option<real>, carbsPerServing: Option<real>)

  function SanitizeIngredient(ing: IngredientPayload): IngredientData {
    IngredientData(ing.name, ToDecimal(ing.quantity).GetOr(0.0), ing.unit, ing.note)
  }

  /** sanitizeRecipePayload: copy the payload, then convert its fields one
      by one. */
  method Sanitize(payload: Payload) returns (data: RecipeData)
    ensures data.servings == if payload.servings.Numeric? then Trunc(payload.servings.x) else 1
    ensures data.cookTimeMin == if payload.cookTimeMin.Numeric? then Trunc(payload.cookTimeMin.x) else 1
    ensures data.kcalPerServing == if payload.kcalPerServing.Numeric? then Trunc(payload.kcalPerServing.x) else 0
    ensures data.proteinPerServing == ToDecimal(payload.proteinPerServing)
    ensures data.fatPerServing == ToDecimal(payload.fatPerServing)
    ensures data.carbsPerServing == ToDecimal(payload.carbsPerServing)
    ensures data.ingredients.Items? <==> payload.ingredients.Items?
    ensures data.ingredients.Items? ==>
              && |data.ingredients.items| == |payload.ingredients.items|
              && forall k :: 0 <= k < |data.ingredients.items| ==>
                   var before, after := payload.ingredients.items[k], data.ingredients.items[k];
                   && after.name == before.name && after.unit == before.unit && after.note == before.note
                   && after.quantity == (if before.quantity.Numeric? then ToDecimal(before.quantity).value else 0.0)
    ensures data.steps == payload.steps
    ensures data.tags == if payload.tags.Items? then payload.tags.items else []
    ensures data.title == payload.title && data.description == payload.description
    ensures data.category == payload.category && data.imageUrl == payload.imageUrl
  {
    var servings := ToInt(payload.servings).GetOr(1);
    var cookTimeMin := ToInt(payload.cookTimeMin).GetOr(1);
    var kcal := ToInt(payload.kcalPerServing).GetOr(0);
    var protein := ToDecimal(payload.proteinPerServing);
    var fat := ToDecimal(payload.fatPerServing);
    var carbs := ToDecimal(payload.carbsPerServing);
    var ingredients: Listed<IngredientData> := NotArray;
    if payload.ingredients.Items? {
      ingredients := Items(Map(payload.ingredients.items, SanitizeIngredient));
    }
    var tags := [];
    if payload.tags.Items? {
      tags := payload.tags.items;
    }
    data := RecipeData(payload.title, payload.description, payload.category, payload.imageUrl,
                       ingredients, payload.steps, tags, servings, cookTimeMin, kcal, protein, fat, carbs);
  }

  /** The payload of a body the create schema accepted. */
  function PayloadOf(r: RecipeValidation.RecipeData): Payload {
    Payload(Some(r.title), Some(r.description), Some(r.category), None,
            Items(Map(r.ingredients, (i: RecipeValidation.IngredientInput) =>
              IngredientPayload(i.name.GetOr(""), if i.quantity.Some? then Numeric(i.quantity.value) else Undefined,
                                i.unit.GetOr(""), i.note))),
            Items(r.steps), Items(r.tags),
            Numeric(r.servings as real), Numeric(r.cookTimeMin as real), Numeric(r.kcalPerServing as real),
            Numeric(r.proteinPerServing), Numeric(r.fatPerServing), Numeric(r.carbsPerServing))
  }

  /** On a body the create schema accepted, sanitising keeps the whole
      numbers as they are. */
  lemma ValidCountsSurvive(r: RecipeValidation.RecipeData)
    ensures ToInt(PayloadOf(r).servings) == Some(r.servings)
    ensures ToInt(PayloadOf(r).cookTimeMin) == Some(r.cookTimeMin)
    ensures ToInt(PayloadOf(r).kcalPerServing) == Some(r.kcalPerServing)
  {
    ToIntWhole(r.servings as real);
    ToIntWhole(r.cookTimeMin as real);
    ToIntWhole(r.kcalPerServing as real);
  }

  // ---------------------------------------------------------- updateRecipe

  /** The columns of a recipe row that sanitising always sets. */
  datatype Columns = Columns(
    servings: int, cookTimeMin: int, kcalPerServing: int,
    proteinPerServing: Option<real>, fatPerServing: Option<real>, carbsPerServing: Option<real>,
    tags: seq<string>)

  /** What an update's data says about those columns: None for a key left
      undefined, which `prisma.recipe.update` does not touch. */
  datatype ColumnWrites = ColumnWrites(
    servings: Option<int>, cookTimeMin: Option<int>, kcalPerServing: Option<int>,
    proteinPerServing: Option<Option<real>>, fatPerServing: Option<Option<real>>,
    carbsPerServing: Option<Option<real>>, tags: Option<seq<string>>)

  /** The row after the update: written keys replace the stored values. */
  function Updated(row: Columns, w: ColumnWrites): Columns {
    Columns(w.servings.GetOr(row.servings), w.cookTimeMin.GetOr(row.cookTimeMin),
            w.kcalPerServing.GetOr(row.kcalPerServing), w.proteinPerServing.GetOr(row.proteinPerServing),
            w.fatPerServing.GetOr(row.fatPerServing), w.carbsPerServing.GetOr(row.carbsPerServing),
            w.tags.GetOr(row.tags))
  }

  /** Sanitised data has every one of these keys, so all are written. */
  function WritesOf(data: RecipeData): ColumnWrites {
    ColumnWrites(Some(data.servings), Some(data.cookTimeMin), Some(data.kcalPerServing),
                 Some(data.proteinPerServing), Some(data.fatPerServing), Some(data.carbsPerServing),
                 Some(data.tags))
  }

  /** An update body with a title and a cook time only, which the update
      schema accepts. */
  function TitleAndCookTime(title: string, cookTimeMin: int): Payload {
    Payload(Some(title), None, None, None, NotArray, NotArray, NotArray,
            Undefined, Numeric(cookTimeMin as real), Undefined, Undefined, Undefined, Undefined)
  }

  /** updateRecipe as written sanitises the partial body like a full one,
      so changing the title and cook time also resets servings to 1, kcal to
      0, the macros to null and the tags to []. */
  method PartialUpdateResets(row: Columns, title: string, cookTimeMin: int) returns (after: Columns)
    ensures after.cookTimeMin == cookTimeMin
    ensures after.servings == 1 && after.kcalPerServing == 0
    ensures after.proteinPerServing == None && after.fatPerServing == None && after.carbsPerServing == None
    ensures after.tags == []
  {
    ToIntWhole(cookTimeMin as real);
    var data := Sanitize(TitleAndCookTime(title, cookTimeMin));
    after := Updated(row, WritesOf(data));
  }

  /** Sanitising for an update: the keys the body has are converted as
      sanitizeRecipePayload converts them, and the keys it leaves undefined
      (for tags: anything but an array) stay undefined. */
  method SanitizeUpdate(payload: Payload) returns (w: ColumnWrites)
    ensures w.servings == if payload.servings.Undefined? then None else Some(ToInt(payload.servings).GetOr(1))
    ensures w.cookTimeMin == if payload.cookTimeMin.Undefined? then None else Some(ToInt(payload.cookTimeMin).GetOr(1))
    ensures w.kcalPerServing == if payload.kcalPerServing.Undefined? then None else Some(ToInt(payload.kcalPerServing).GetOr(0))
    ensures w.proteinPerServing == if payload.proteinPerServing.Undefined? then None else Some(ToDecimal(payload.proteinPerServing))
    ensures w.fatPerServing == if payload.fatPerServing.Undefined? then None else Some(ToDecimal(payload.fatPerServing))
    ensures w.carbsPerServing == if payload.carbsPerServing.Undefined? then None else Some(ToDecimal(payload.carbsPerServing))
    ensures w.tags == if payload.tags.Items? then Some(payload.tags.items) else None
  {
    var servings, cookTimeMin, kcal := None, None, None;
    if !payload.servings.Undefined? {
      servings := Some(ToInt(payload.servings).GetOr(1));
    }
    if !payload.cookTimeMin.Undefined? {
      cookTimeMin := Some(ToInt(payload.cookTimeMin).GetOr(1));
    }
    if !payload.kcalPerServing.Undefined? {
      kcal := Some(ToInt(payload.kcalPerServing).GetOr(0));
    }
    var protein, fat, carbs := None, None, None;
    if !payload.proteinPerServing.Undefined? {
      protein := Some(ToDecimal(payload.proteinPerServing));
    }
    if !payload.fatPerServing.Undefined? {
      fat := Some(ToDecimal(payload.fatPerServing));
    }
    if !payload.carbsPerServing.Undefined? {
      carbs := Some(ToDecimal(payload.carbsPerServing));
    }
    var tags := None;
    if payload.tags.Items? {
      tags := Some(payload.tags.items);
    }
    w := ColumnWrites(servings, cookTimeMin, kcal, protein, fat, carbs, tags);
  }

  /** With the corrected sanitising, the same update changes the cook time
      and leaves every other column as stored. */
  method PartialUpdateKeeps(row: Columns, title: string, cookTimeMin: int) returns (after: Columns)
    ensures after == row.(cookTimeMin := cookTimeMin)
  {
    ToIntWhole(cookTimeMin as real);
    var w := SanitizeUpdate(TitleAndCookTime(title, cookTimeMin));
    after := Updated(row, w);
  }

  /** On a body with every one of these keys, the corrected sanitising
      writes exactly what sanitizeRecipePayload writes. */
  method CompleteBodyWritesAgree(payload: Payload) returns (data: RecipeData, w: ColumnWrites)
    requires !payload.servings.Undefined? && !payload.cookTimeMin.Undefined? && !payload.kcalPerServing.Undefined?
    requires !payload.proteinPerServing.Undefined? && !payload.fatPerServing.Undefined?
    requires !payload.carbsPerServing.Undefined? && payload.tags.Items?
    ensures w == WritesOf(data)
  {
    data := Sanitize(payload);
    w := SanitizeUpdate(payload);
  }

  // ---------------------------------------------------------- filterByTags

  /** The search tokens of a `tags` parameter: comma-split, trimmed and
      lower-cased. */
  function SearchTokens(tags: string): (tokens: seq<string>)
    ensures |tokens| >= 1
  {
    Map(Split(tags, ','), (t: string) => Lower(Trim(t)))
  }

  /** Some tag, already lower-cased, contains the token. */
  function TagMatches(loweredTags: seq<string>, token: string): (r: bool)
    ensures r <==> exists tag :: tag in loweredTags && Includes(tag, token)
  {
    Any(loweredTags, (tag: string) => Includes(tag, token))
  }

  /** Some token matches some tag. */
  function MatchesSomeToken(tokens: seq<string>, loweredTags: seq<string>): (r: bool)
    ensures r <==> exists t :: t in tokens && TagMatches(loweredTags, t)
  {
    Any(tokens, (t: string) => TagMatches(loweredTags, t))
  }

  /** filterByTags: some search token occurs in some lower-cased tag of the
      recipe. */
  function FilterByTags(tags: string, recipeTags: seq<string>): bool {
    MatchesSomeToken(SearchTokens(tags), Map(recipeTags, Lower))
  }

  /** A recipe without tags never matches. */
  lemma UntaggedNeverMatches(tags: string)
    ensures !FilterByTags(tags, [])
  {
    assert Map([], Lower) == [];
  }

  /** An empty token occurs in every tag. */
  lemma EmptyTokenMatches(tokens: seq<string>, loweredTags: seq<string>)
    requires [] in tokens && loweredTags != []
    ensures MatchesSomeToken(tokens, loweredTags)
  {
    IncludesEmpty(loweredTags[0]);
    assert TagMatches(loweredTags, []);
  }

  /** An empty piece, as a trailing comma leaves, is an empty token: such a
      search matches every recipe that has a tag at all. */
  lemma EmptyPieceMatchesAnyTagged(pieces: seq<string>, recipeTags: seq<string>)
    requires |pieces| >= 1 && forall p :: p in pieces ==> ',' !in p
    requires [] in pieces && recipeTags != []
    ensures FilterByTags(Join(pieces, ','), recipeTags)
  {
    EmptyPieceIsEmptyToken(pieces);
    EmptyTokenMatches(SearchTokens(Join(pieces, ',')), Map(recipeTags, Lower));
  }

  lemma EmptyPieceIsEmptyToken(pieces: seq<string>)
    requires |pieces| >= 1 && forall p :: p in pieces ==> ',' !in p
    requires [] in pieces
    ensures [] in SearchTokens(Join(pieces, ','))
  {
    SplitJoin(pieces, ',');
    var tokens := SearchTokens(Join(pieces, ','));
    var k :| 0 <= k < |pieces| && pieces[k] == [];
    assert Lower(Trim([])) == [];
    assert tokens[k] == [];
  }

  /** Without a comma the search is a single token: the trimmed,
      lower-cased parameter must occur in one of the lower-cased tags. */
  lemma SingleToken(tags: string, recipeTags: seq<string>)
    requires ',' !in tags
    ensures FilterByTags(tags, recipeTags) == TagMatches(Map(recipeTags, Lower), Lower(Trim(tags)))
  {
    SplitPiece(tags, ',');
    MapSingle(Split(tags, ','), tags, (t: string) => Lower(Trim(t)));
    OneToken(Lower(Trim(tags)), Map(recipeTags, Lower));
  }

  lemma OneToken(token: string, loweredTags: seq<string>)
    ensures MatchesSomeToken([token], loweredTags) == TagMatches(loweredTags, token)
  {
    if TagMatches(loweredTags, token) {
      assert token in [token];
    }
  }

  // -------------------------------------------------------------- recipes

  /** The stored recipe as the list endpoint sees it. */
  datatype Recipe = Recipe(
    id: string, title: string, description: string, category: string, tags: seq<string>,
    kcalPerServing: int, proteinPerServing: real, fatPerServing: real, carbsPerServing: real)

  /** A query-string value is truthy when present and not 0 (and a string
      when present and not empty). */
  predicate Truthy(v: Option<real>) {
    v.Some? && v.value != 0.0
  }

  predicate TruthyText(v: Option<string>) {
    v.Some? && v.value != []
  }

  // ------------------------------------------------------ where-clause

  datatype CategoryWhere = AnyCategory | CategoryIs(name: string) | CategoryIn(names: seq<string>)

  /** The database filter: a category condition and a kcal range. */
  datatype Where = Where(category: CategoryWhere, kcalMin: Option<real>, kcalMax: Option<real>)

  /** The category condition: a non-empty `categories` list wins over
      `category`; a `categories` made only of commas and blanks gives no
      condition at all, even if `category` is set. */
  function CategoryCondition(categories: Option<string>, category: Option<string>): (w: CategoryWhere)
    ensures TruthyText(categories) ==>
              w == (if SplitTrimmed(categories.value, ',') != [] then CategoryIn(SplitTrimmed(categories.value, ','))
                    else AnyCategory)
    ensures !TruthyText(categories) ==> w == (if TruthyText(category) then CategoryIs(category.value) else AnyCategory)
  {
    if TruthyText(categories) then
      var list := SplitTrimmed(categories.value, ',');
      if |list| > 0 then CategoryIn(list) else AnyCategory
    else if TruthyText(category) then CategoryIs(category.value)
    else AnyCategory
  }

  /** The where-object built up by getRecipes. */
  function BuildWhere(q: RecipeValidation.Query): Where {
    Where(CategoryCondition(q.categories, q.category),
          if Truthy(q.minKcal) then q.minKcal else None,
          if Truthy(q.maxKcal) then q.maxKcal else None)
  }

  predicate MatchesWhere(w: Where, r: Recipe) {
    && (match w.category
        case AnyCategory => true
        case CategoryIs(c) => r.category == c
        case CategoryIn(cs) => r.category in cs)
    && (w.kcalMin.Some? ==> r.kcalPerServing as real >= w.kcalMin.value)
    && (w.kcalMax.Some? ==> r.kcalPerServing as real <= w.kcalMax.value)
  }

  /** A non-empty `categories` list decides the category alone. */
  lemma CategoriesTakePrecedence(q: RecipeValidation.Query, r: Recipe)
    requires TruthyText(q.categories) && SplitTrimmed(q.categories.value, ',') != []
    ensures MatchesWhere(BuildWhere(q), r) ==> r.category in SplitTrimmed(q.categories.value, ',')
    ensures BuildWhere(q).category == BuildWhere(q.(category := None)).category
  {
  }

  // ------------------------------------------------- in-memory filters

  /** The text search: the lower-cased query occurs in the lower-cased
      title, description or category. */
  predicate MatchesQuery(query: string, r: Recipe) {
    var needle := Lower(query);
    Includes(Lower(r.title), needle) || Includes(Lower(r.description), needle) || Includes(Lower(r.category), needle)
  }

  /** A macro range filter, once it applies: a missing or zero bound means
      0 below and nothing above, and both bounds are inclusive. */
  predicate InRange(value: real, min: Option<real>, max: Option<real>) {
    && (if Truthy(min) then min.value else 0.0) <= value
    && (Truthy(max) ==> value <= max.value)
  }

  predicate RangeApplies(min: Option<real>, max: Option<real>) {
    Truthy(min) || Truthy(max)
  }

  // The callbacks handed to `recipes.filter`.

  function QueryFilter(query: string): Recipe -> bool {
    (r: Recipe) => MatchesQuery(query, r)
  }

  function TagFilter(tags: string): Recipe -> bool {
    (r: Recipe) => FilterByTags(tags, r.tags)
  }

  function ProteinFilter(min: Option<real>, max: Option<real>): Recipe -> bool {
    (r: Recipe) => InRange(r.proteinPerServing, min, max)
  }

  function FatFilter(min: Option<real>, max: Option<real>): Recipe -> bool {
    (r: Recipe) => InRange(r.fatPerServing, min, max)
  }

  function CarbsFilter(min: Option<real>, max: Option<real>): Recipe -> bool {
    (r: Recipe) => InRange(r.carbsPerServing, min, max)
  }

  // Each step of the chain, as a condition on one recipe: the step's
  // callback must accept it whenever the step applies.

  predicate TextOk(q: RecipeValidation.Query, r: Recipe) {
    TruthyText(q.query) ==> QueryFilter(q.query.GetOr([]))(r)
  }

  predicate TagsOk(q: RecipeValidation.Query, r: Recipe) {
    TruthyText(q.tags) ==> TagFilter(q.tags.GetOr([]))(r)
  }

  predicate ProteinOk(q: RecipeValidation.Query, r: Recipe) {
    RangeApplies(q.minProtein, q.maxProtein) ==> ProteinFilter(q.minProtein, q.maxProtein)(r)
  }

  predicate FatOk(q: RecipeValidation.Query, r: Recipe) {
    RangeApplies(q.minFat, q.maxFat) ==> FatFilter(q.minFat, q.maxFat)(r)
  }

  predicate CarbsOk(q: RecipeValidation.Query, r: Recipe) {
    RangeApplies(q.minCarbs, q.maxCarbs) ==> CarbsFilter(q.minCarbs, q.maxCarbs)(r)
  }

  /** Everything the in-memory steps ask of a recipe. */
  predicate Keeps(q: RecipeValidation.Query, r: Recipe) {
    TextOk(q, r) && TagsOk(q, r) && ProteinOk(q, r) && FatOk(q, r) && CarbsOk(q, r)
  }

  /** A bound of exactly 0 is no bound: `?minProtein=0` alone does not
      filter at all, so recipes with any protein value pass. */
  lemma ZeroBoundsIgnored(q: RecipeValidation.Query, r: Recipe)
    requires q.minProtein == Some(0.0) && !Truthy(q.maxProtein)
    ensures ProteinOk(q, r)
  {
  }

  /** Bounds are inclusive, and with only a maximum the lower bound is 0. */
  lemma RangeBounds(value: real, min: Option<real>, max: Option<real>)
    ensures Truthy(min) && Truthy(max) ==> (InRange(value, min, max) <==> min.value <= value <= max.value)
    ensures !Truthy(min) && Truthy(max) ==> (InRange(value, min, max) <==> 0.0 <= value <= max.value)
    ensures Truthy(min) && !Truthy(max) ==> (InRange(value, min, max) <==> min.value <= value)
  {
  }

  // ------------------------------------------------------------ pagination

  /** Math.ceil(total / limit). */
  function CeilDiv(total: nat, limit: nat): (pages: nat)
    requires limit >= 1
    ensures total <= pages * limit
    ensures pages == 0 || (pages - 1) * limit < total
  {
    if total % limit == 0 then total / limit else total / limit + 1
  }

  /** The rows that match the where clause, in catalogue order. The
      catalogue stands for the table as `findMany` orders it, by createdAt
      newest first; `PageOf` then skips and takes. */
  function DbMatches(catalogue: seq<Recipe>, q: RecipeValidation.Query): seq<Recipe> {
    Filter(catalogue, (r: Recipe) => MatchesWhere(BuildWhere(q), r))
  }

  function PageOf(rows: seq<Recipe>, page: nat, limit: nat): (r: seq<Recipe>)
    requires page >= 1
    ensures |r| <= limit
    ensures (page - 1) * limit >= |rows| ==> r == []
    ensures (page - 1) * limit < |rows| ==>
              r == rows[(page - 1) * limit .. if page * limit <= |rows| then page * limit else |rows|]
  {
    var skip := (page - 1) * limit;
    if skip >= |rows| then [] else rows[skip .. if skip + limit <= |rows| then skip + limit else |rows|]
  }

  datatype Pagination = Pagination(page: nat, limit: nat, total: nat, pages: nat)

  /** The in-memory part of getRecipes: the text search, the tag search
      and the three macro ranges, each only when its parameters ask for it,
      one after the other on what the previous step left. */
  method ApplyInMemoryFilters(q: RecipeValidation.Query, rows: seq<Recipe>) returns (filtered: seq<Recipe>)
    ensures filtered == Filter(rows, (r: Recipe) => Keeps(q, r))
  {
    filtered := rows;
    FilterAll(rows, (r: Recipe) => true);
    if TruthyText(q.query) {
      filtered := Filter(filtered, QueryFilter(q.query.value));
      assert q.query.value == q.query.GetOr([]);
    }
    TextStep(q, rows, filtered);
    ghost var before := filtered;
    if TruthyText(q.tags) {
      filtered := Filter(filtered, TagFilter(q.tags.value));
      assert q.tags.value == q.tags.GetOr([]);
    }
    TagsStep(q, rows, before, filtered);
    before := filtered;
    if RangeApplies(q.minProtein, q.maxProtein) {
      filtered := Filter(filtered, ProteinFilter(q.minProtein, q.maxProtein));
    }
    ProteinStep(q, rows, before, filtered);
    before := filtered;
    if RangeApplies(q.minFat, q.maxFat) {
      filtered := Filter(filtered, FatFilter(q.minFat, q.maxFat));
    }
    FatStep(q, rows, before, filtered);
    before := filtered;
    if RangeApplies(q.minCarbs, q.maxCarbs) {
      filtered := Filter(filtered, CarbsFilter(q.minCarbs, q.maxCarbs));
    }
    CarbsStep(q, rows, before, filtered);
  }

  /** getRecipes: one page of database matches, run through the in-memory
      filters one after the other. `total` counts the database matches, so
      it ignores the in-memory filters. */
  method GetRecipes(q: RecipeValidation.Query, catalogue: seq<Recipe>) returns (recipes: seq<Recipe>, pagination: Pagination)
    requires q.page >= 1 && q.limit >= 1
    ensures recipes == Filter(PageOf(DbMatches(catalogue, q), q.page, q.limit), (r: Recipe) => Keeps(q, r))
    ensures pagination.total == |DbMatches(catalogue, q)|
    ensures pagination == Pagination(q.page, q.limit, pagination.total, CeilDiv(pagination.total, q.limit))
  {
    var rows := PageOf(DbMatches(catalogue, q), q.page, q.limit);
    var total := |DbMatches(catalogue, q)|;
    recipes := ApplyInMemoryFilters(q, rows);
    pagination := Pagination(q.page, q.limit, total, CeilDiv(total, q.limit));
  }

  // The steps of the chain, each applied to what the previous ones left.

  lemma TextStep(q: RecipeValidation.Query, rows: seq<Recipe>, after: seq<Recipe>)
    requires after == if TruthyText(q.query) then Filter(rows, QueryFilter(q.query.GetOr([]))) else rows
    ensures after == Filter(rows, (r: Recipe) => TextOk(q, r))
  {
    FilterAll(rows, (r: Recipe) => true);
    Narrow(rows, (r: Recipe) => true, TruthyText(q.query), QueryFilter(q.query.GetOr([])),
           (r: Recipe) => TextOk(q, r), after);
  }

  lemma TagsStep(q: RecipeValidation.Query, rows: seq<Recipe>, before: seq<Recipe>, after: seq<Recipe>)
    requires before == Filter(rows, (r: Recipe) => TextOk(q, r))
    requires after == if TruthyText(q.tags) then Filter(before, TagFilter(q.tags.GetOr([]))) else before
    ensures after == Filter(rows, (r: Recipe) => TextOk(q, r) && TagsOk(q, r))
  {
    Narrow(rows, (r: Recipe) => TextOk(q, r), TruthyText(q.tags), TagFilter(q.tags.GetOr([])),
           (r: Recipe) => TextOk(q, r) && TagsOk(q, r), after);
  }

  lemma ProteinStep(q: RecipeValidation.Query, rows: seq<Recipe>, before: seq<Recipe>, after: seq<Recipe>)
    requires before == Filter(rows, (r: Recipe) => TextOk(q, r) && TagsOk(q, r))
    requires after == if RangeApplies(q.minProtein, q.maxProtein)
                      then Filter(before, ProteinFilter(q.minProtein, q.maxProtein)) else before
    ensures after == Filter(rows, (r: Recipe) => TextOk(q, r) && TagsOk(q, r) && ProteinOk(q, r))
  {
    Narrow(rows, (r: Recipe) => TextOk(q, r) && TagsOk(q, r),
           RangeApplies(q.minProtein, q.maxProtein), ProteinFilter(q.minProtein, q.maxProtein),
           (r: Recipe) => TextOk(q, r) && TagsOk(q, r) && ProteinOk(q, r), after);
  }

  lemma FatStep(q: RecipeValidation.Query, rows: seq<Recipe>, before: seq<Recipe>, after: seq<Recipe>)
    requires before == Filter(rows, (r: Recipe) => TextOk(q, r) && TagsOk(q, r) && ProteinOk(q, r))
    requires after == if RangeApplies(q.minFat, q.maxFat) then Filter(before, FatFilter(q.minFat, q.maxFat)) else before
    ensures after == Filter(rows, (r: Recipe) => TextOk(q, r) && TagsOk(q, r) && ProteinOk(q, r) && FatOk(q, r))
  {
    Narrow(rows, (r: Recipe) => TextOk(q, r) && TagsOk(q, r) && ProteinOk(q, r),
           RangeApplies(q.minFat, q.maxFat), FatFilter(q.minFat, q.maxFat),
           (r: Recipe) => TextOk(q, r) && TagsOk(q, r) && ProteinOk(q, r) && FatOk(q, r), after);
  }

  lemma CarbsStep(q: RecipeValidation.Query, rows: seq<Recipe>, before: seq<Recipe>, after: seq<Recipe>)
    requires before == Filter(rows, (r: Recipe) => TextOk(q, r) && TagsOk(q, r) && ProteinOk(q, r) && FatOk(q, r))
    requires after == if RangeApplies(q.minCarbs, q.maxCarbs)
                      then Filter(before, CarbsFilter(q.minCarbs, q.maxCarbs)) else before
    ensures after == Filter(rows, (r: Recipe) => Keeps(q, r))
  {
    Narrow(rows, (r: Recipe) => TextOk(q, r) && TagsOk(q, r) && ProteinOk(q, r) && FatOk(q, r),
           RangeApplies(q.minCarbs, q.maxCarbs), CarbsFilter(q.minCarbs, q.maxCarbs),
           (r: Recipe) => Keeps(q, r), after);
  }

  /** The result keeps the database order and holds only recipes of the
      requested page. */
  lemma ResultIsSubsequenceOfPage(q: RecipeValidation.Query, catalogue: seq<Recipe>)
    requires q.page >= 1 && q.limit >= 1
    ensures var page := PageOf(DbMatches(catalogue, q), q.page, q.limit);
            IsSubsequence(Filter(page, (r: Recipe) => Keeps(q, r)), page)
  {
    FilterIsSubsequence(PageOf(DbMatches(catalogue, q), q.page, q.limit), (r: Recipe) => Keeps(q, r));
  }
}
