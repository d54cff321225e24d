/**
 * ingredientSchema, recipeCreateSchema, its partial update form, and
 * recipeQuerySchema.
 */
module RecipeValidation {
  import opened Wrappers
  import opened SchemaRules

  // --------------------------------------------------------- ingredients

  datatype IngredientInput = IngredientInput(
    name: Option<string>, quantity: Option<real>, unit: Option<string>, note: Option<string>)

  const NonEmpty: seq<LengthCheck> := [MinLength(1)]

  /** The issues of ingredient k of the list, at ingredients.k.<key>. */
  function IngredientIssues(k: nat, ing: IngredientInput): (issues: seq<Issue>)
    ensures issues == [] <==> IngredientOk(ing)
  {
    var at := [Key("ingredients"), Index(k)];
    StringField(at + [Key("name")], ing.name, NonEmpty, false)
    + NumberField(at + [Key("quantity")], ing.quantity, [Positive], false)
    + StringField(at + [Key("unit")], ing.unit, NonEmpty, false)
  }

  /** A non-empty name, a positive quantity and a non-empty unit; the note
      is free. */
  predicate IngredientOk(ing: IngredientInput) {
    && ing.name.Some? && |ing.name.value| >= 1
    && ing.quantity.Some? && ing.quantity.value > 0.0
    && ing.unit.Some? && |ing.unit.value| >= 1
  }

  // -------------------------------------------------------------- recipes

  /** A recipe body; `imageUrl` may be absent, null or a string. */
  datatype RecipeInput = RecipeInput(
    title: Option<string>,
    description: Option<string>,
    ingredients: Option<seq<IngredientInput>>,
    steps: Option<seq<string>>,
    imageUrl: Option<Option<string>>,
    tags: Option<seq<string>>,
    category: Option<string>,
    servings: Option<real>,
    cookTimeMin: Option<real>,
    kcalPerServing: Option<real>,
    proteinPerServing: Option<real>,
    fatPerServing: Option<real>,
    carbsPerServing: Option<real>)

  const TitleChecks: seq<LengthCheck> := [MinLength(1), MaxLength(200)]
  const DescriptionChecks: seq<LengthCheck> := [MinLength(1), MaxLength(1000)]
  const PositiveInt: seq<NumberCheck> := [Int, Positive]
  const NonnegativeInt: seq<NumberCheck> := [Int, Nonnegative]
  const NonnegativeNumber: seq<NumberCheck> := [Nonnegative]

  /** An array field: the length issue first, then each element's. */
  function IngredientsField(v: Option<seq<IngredientInput>>, partial: bool): (issues: seq<Issue>)
    ensures issues == [] <==>
            if v.None? then partial else |v.value| >= 1 && forall j :: 0 <= j < |v.value| ==> IngredientOk(v.value[j])
  {
    match v
    case None => if partial then [] else [Issue([Key("ingredients")], Required)]
    case Some(xs) => LengthIssues([Key("ingredients")], |xs|, NonEmpty) + ElementIssues(xs, 0, IngredientIssues)
  }

  function StepIssues(k: nat, step: string): (issues: seq<Issue>)
    ensures issues == [] <==> |step| >= 1
  {
    LengthIssues([Key("steps"), Index(k)], |step|, NonEmpty)
  }

  function StepsField(v: Option<seq<string>>, partial: bool): (issues: seq<Issue>)
    ensures issues == [] <==>
            if v.None? then partial else |v.value| >= 1 && forall j :: 0 <= j < |v.value| ==> |v.value[j]| >= 1
  {
    match v
    case None => if partial then [] else [Issue([Key("steps")], Required)]
    case Some(xs) => LengthIssues([Key("steps")], |xs|, NonEmpty) + ElementIssues(xs, 0, StepIssues)
  }

  /** The issues of recipeCreateSchema (partial = false) or of
      recipeUpdateSchema (partial = true), key by key. imageUrl and tags
      raise none here. */
  function RecipeIssues(r: RecipeInput, partial: bool): seq<Issue> {
    StringField([Key("title")], r.title, TitleChecks, partial)
    + StringField([Key("description")], r.description, DescriptionChecks, partial)
    + IngredientsField(r.ingredients, partial)
    + StepsField(r.steps, partial)
    + StringField([Key("category")], r.category, NonEmpty, partial)
    + NumberField([Key("servings")], r.servings, PositiveInt, partial)
    + NumberField([Key("cookTimeMin")], r.cookTimeMin, PositiveInt, partial)
    + NumberField([Key("kcalPerServing")], r.kcalPerServing, NonnegativeInt, partial)
    + NumberField([Key("proteinPerServing")], r.proteinPerServing, NonnegativeNumber, partial)
    + NumberField([Key("fatPerServing")], r.fatPerServing, NonnegativeNumber, partial)
    + NumberField([Key("carbsPerServing")], r.carbsPerServing, NonnegativeNumber, partial)
  }

  predicate LengthIn(s: string, lo: nat, hi: nat) {
    lo <= |s| <= hi
  }

  predicate PositiveInteger(v: Option<real>) {
    v.Some? && IsInteger(v.value) && v.value > 0.0
  }

  predicate NonnegativeValue(v: Option<real>) {
    v.Some? && v.value >= 0.0
  }

  /** What recipeCreateSchema demands, field by field. */
  predicate AcceptableRecipe(r: RecipeInput) {
    && r.title.Some? && LengthIn(r.title.value, 1, 200)
    && r.description.Some? && LengthIn(r.description.value, 1, 1000)
    && r.ingredients.Some? && |r.ingredients.value| >= 1
    && (forall j :: 0 <= j < |r.ingredients.value| ==> IngredientOk(r.ingredients.value[j]))
    && r.steps.Some? && |r.steps.value| >= 1
    && (forall j :: 0 <= j < |r.steps.value| ==> |r.steps.value[j]| >= 1)
    && r.category.Some? && |r.category.value| >= 1
    && PositiveInteger(r.servings) && PositiveInteger(r.cookTimeMin)
    && NonnegativeValue(r.kcalPerServing) && IsInteger(r.kcalPerServing.value)
    && NonnegativeValue(r.proteinPerServing) && NonnegativeValue(r.fatPerServing) && NonnegativeValue(r.carbsPerServing)
  }

  lemma TwoChecks(x: real, checks: seq<NumberCheck>)
    requires |checks| == 2
    ensures (forall c :: c in checks ==> PassesNumber(x, c)) <==> PassesNumber(x, checks[0]) && PassesNumber(x, checks[1])
  {
  }

  lemma TwoLengthChecks(n: nat, checks: seq<LengthCheck>)
    requires |checks| == 2
    ensures (forall c :: c in checks ==> PassesLength(n, c)) <==> PassesLength(n, checks[0]) && PassesLength(n, checks[1])
  {
  }

  lemma CreateAcceptsExactly(r: RecipeInput)
    ensures RecipeIssues(r, false) == [] <==> AcceptableRecipe(r)
  {
    TextFieldsExactly(r);
    CountFieldsExactly(r);
  }

  /** The title, description and category pass the create schema exactly
      when their lengths are in range. */
  lemma TextFieldsExactly(r: RecipeInput)
    ensures StringField([Key("title")], r.title, TitleChecks, false) == []
            <==> r.title.Some? && LengthIn(r.title.value, 1, 200)
    ensures StringField([Key("description")], r.description, DescriptionChecks, false) == []
            <==> r.description.Some? && LengthIn(r.description.value, 1, 1000)
    ensures StringField([Key("category")], r.category, NonEmpty, false) == []
            <==> r.category.Some? && |r.category.value| >= 1
  {
    if r.title.Some? { TwoLengthChecks(|r.title.value|, TitleChecks); }
    if r.description.Some? { TwoLengthChecks(|r.description.value|, DescriptionChecks); }
  }

  /** The integer counts pass the create schema exactly when they are
      positive (servings, cookTimeMin) or non-negative (kcal) integers. */
  lemma CountFieldsExactly(r: RecipeInput)
    ensures NumberField([Key("servings")], r.servings, PositiveInt, false) == [] <==> PositiveInteger(r.servings)
    ensures NumberField([Key("cookTimeMin")], r.cookTimeMin, PositiveInt, false) == [] <==> PositiveInteger(r.cookTimeMin)
    ensures NumberField([Key("kcalPerServing")], r.kcalPerServing, NonnegativeInt, false) == []
            <==> NonnegativeValue(r.kcalPerServing) && IsInteger(r.kcalPerServing.value)
  {
    PositiveIntField([Key("servings")], r.servings);
    PositiveIntField([Key("cookTimeMin")], r.cookTimeMin);
    NonnegativeIntField([Key("kcalPerServing")], r.kcalPerServing);
  }

  lemma PositiveIntField(path: Path, v: Option<real>)
    ensures NumberField(path, v, PositiveInt, false) == [] <==> PositiveInteger(v)
  {
    if v.Some? { TwoChecks(v.value, PositiveInt); }
  }

  lemma NonnegativeIntField(path: Path, v: Option<real>)
    ensures NumberField(path, v, NonnegativeInt, false) == [] <==> NonnegativeValue(v) && IsInteger(v.value)
  {
    if v.Some? { TwoChecks(v.value, NonnegativeInt); }
  }

  /** A recipe once recipeCreateSchema has accepted it: tags default to []. */
  datatype RecipeData = RecipeData(
    title: string, description: string, ingredients: seq<IngredientInput>, steps: seq<string>,
    imageUrl: Option<Option<string>>, tags: seq<string>, category: string,
    servings: int, cookTimeMin: int, kcalPerServing: int,
    proteinPerServing: real, fatPerServing: real, carbsPerServing: real)

  /** recipeCreateSchema.safeParse: the typed recipe, or every issue. */
  function ParseRecipeCreate(r: RecipeInput): (res: Result<RecipeData, seq<Issue>>)
    ensures res.Ok? <==> AcceptableRecipe(r)
    ensures res.Err? ==> res.error != [] && res.error == RecipeIssues(r, false)
    ensures res.Ok? ==> && res.value.tags == (if r.tags.Some? then r.tags.value else [])
                        && res.value.servings >= 1 && res.value.cookTimeMin >= 1 && res.value.kcalPerServing >= 0
                        && res.value.servings as real == r.servings.value
                        && res.value.cookTimeMin as real == r.cookTimeMin.value
                        && res.value.kcalPerServing as real == r.kcalPerServing.value
  {
    CreateAcceptsExactly(r);
    var issues := RecipeIssues(r, false);
    if issues != [] then Err(issues)
    else Ok(RecipeData(r.title.value, r.description.value, r.ingredients.value, r.steps.value,
                       r.imageUrl, r.tags.GetOr([]), r.category.value,
                       r.servings.value.Floor, r.cookTimeMin.value.Floor, r.kcalPerServing.value.Floor,
                       r.proteinPerServing.value, r.fatPerServing.value, r.carbsPerServing.value))
  }

  /** The complete recipe of the create-schema test: accepted. */
  function ValidRecipe(): (r: RecipeInput)
    ensures AcceptableRecipe(r)
  {
    RecipeInput(Some("Test Recipe"), Some("A test recipe description"),
      Some([IngredientInput(Some("Tomato"), Some(2.0), Some("pieces"), None)]), Some(["Step 1", "Step 2"]),
      None, Some(["lunch"]), Some("Main Course"), Some(2.0), Some(30.0), Some(250.0), Some(20.5), Some(10.2), Some(25.3))
  }

  // ------------------------------------------------- which issue comes first

  /** A body that is valid except for what each lemma below changes. */
  function Sample(): (r: RecipeInput)
    ensures AcceptableRecipe(r)
  {
    RecipeInput(Some("Test Recipe"), Some("Description"),
      Some([IngredientInput(Some("Test"), Some(1.0), Some("piece"), None)]), Some(["Step 1"]),
      None, Some([]), Some("Main Course"), Some(1.0), Some(10.0), Some(100.0), Some(10.0), Some(5.0), Some(10.0))
  }

  /** An empty title is rejected, and its issue comes first, at title. */
  lemma EmptyTitleFirst(r: RecipeInput)
    requires r.title == Some("")
    ensures RecipeIssues(r, false) != [] && RecipeIssues(r, false)[0].path == [Key("title")]
  {
    assert StringField([Key("title")], r.title, TitleChecks, false)[0] == Issue([Key("title")], TooSmall);
  }

  /** An empty ingredient list behind a valid title and description is
      rejected with its first issue at ingredients. */
  lemma NoIngredientsFirst(r: RecipeInput)
    requires r.title.Some? && LengthIn(r.title.value, 1, 200)
    requires r.description.Some? && LengthIn(r.description.value, 1, 1000)
    requires r.ingredients == Some([])
    ensures RecipeIssues(r, false) != [] && RecipeIssues(r, false)[0].path == [Key("ingredients")]
  {
    TwoLengthChecks(|r.title.value|, TitleChecks);
    TwoLengthChecks(|r.description.value|, DescriptionChecks);
    assert IngredientsField(r.ingredients, false)[0] == Issue([Key("ingredients")], TooSmall);
  }

  /** A negative kcal count in an otherwise valid body is rejected at
      kcalPerServing, and that is the first issue. */
  lemma NegativeKcalFirst(kcal: real)
    requires kcal < 0.0
    ensures var r := Sample().(kcalPerServing := Some(kcal));
            RecipeIssues(r, false) != [] && RecipeIssues(r, false)[0].path == [Key("kcalPerServing")]
  {
    var r := Sample().(kcalPerServing := Some(kcal));
    CreateAcceptsExactly(Sample());
    var before := StringField([Key("title")], r.title, TitleChecks, false)
      + StringField([Key("description")], r.description, DescriptionChecks, false)
      + IngredientsField(r.ingredients, false)
      + StepsField(r.steps, false)
      + StringField([Key("category")], r.category, NonEmpty, false)
      + NumberField([Key("servings")], r.servings, PositiveInt, false)
      + NumberField([Key("cookTimeMin")], r.cookTimeMin, PositiveInt, false);
    assert before == [];
    var kcalIssues := NumberField([Key("kcalPerServing")], r.kcalPerServing, NonnegativeInt, false);
    assert !PassesNumber(kcal, NonnegativeInt[1]);
    assert kcalIssues != [];
  }

  /** The update schema drops only the complaints about absent keys, so
      every body the create schema accepts is a valid update. */
  lemma UpdateIssuesAreCreateIssues(r: RecipeInput)
    ensures forall i :: i in RecipeIssues(r, true) ==> i in RecipeIssues(r, false)
    ensures RecipeIssues(r, false) == [] ==> RecipeIssues(r, true) == []
  {
    StringFieldWeaker([Key("title")], r.title, TitleChecks);
    StringFieldWeaker([Key("description")], r.description, DescriptionChecks);
    assert WeakerIssues(IngredientsField(r.ingredients, true), IngredientsField(r.ingredients, false));
    assert WeakerIssues(StepsField(r.steps, true), StepsField(r.steps, false));
    StringFieldWeaker([Key("category")], r.category, NonEmpty);
    NumberFieldWeaker([Key("servings")], r.servings, PositiveInt);
    NumberFieldWeaker([Key("cookTimeMin")], r.cookTimeMin, PositiveInt);
    NumberFieldWeaker([Key("kcalPerServing")], r.kcalPerServing, NonnegativeInt);
    NumberFieldWeaker([Key("proteinPerServing")], r.proteinPerServing, NonnegativeNumber);
    NumberFieldWeaker([Key("fatPerServing")], r.fatPerServing, NonnegativeNumber);
    NumberFieldWeaker([Key("carbsPerServing")], r.carbsPerServing, NonnegativeNumber);
    var p, f := StringField([Key("title")], r.title, TitleChecks, true),
                StringField([Key("title")], r.title, TitleChecks, false);
    WeakerConcat(p, f, StringField([Key("description")], r.description, DescriptionChecks, true),
                       StringField([Key("description")], r.description, DescriptionChecks, false));
    p, f := p + StringField([Key("description")], r.description, DescriptionChecks, true),
            f + StringField([Key("description")], r.description, DescriptionChecks, false);
    WeakerConcat(p, f, IngredientsField(r.ingredients, true), IngredientsField(r.ingredients, false));
    p, f := p + IngredientsField(r.ingredients, true), f + IngredientsField(r.ingredients, false);
    WeakerConcat(p, f, StepsField(r.steps, true), StepsField(r.steps, false));
    p, f := p + StepsField(r.steps, true), f + StepsField(r.steps, false);
    WeakerConcat(p, f, StringField([Key("category")], r.category, NonEmpty, true),
                       StringField([Key("category")], r.category, NonEmpty, false));
    p, f := p + StringField([Key("category")], r.category, NonEmpty, true),
            f + StringField([Key("category")], r.category, NonEmpty, false);
    WeakerConcat(p, f, NumberField([Key("servings")], r.servings, PositiveInt, true),
                       NumberField([Key("servings")], r.servings, PositiveInt, false));
    p, f := p + NumberField([Key("servings")], r.servings, PositiveInt, true),
            f + NumberField([Key("servings")], r.servings, PositiveInt, false);
    WeakerConcat(p, f, NumberField([Key("cookTimeMin")], r.cookTimeMin, PositiveInt, true),
                       NumberField([Key("cookTimeMin")], r.cookTimeMin, PositiveInt, false));
    p, f := p + NumberField([Key("cookTimeMin")], r.cookTimeMin, PositiveInt, true),
            f + NumberField([Key("cookTimeMin")], r.cookTimeMin, PositiveInt, false);
    WeakerConcat(p, f, NumberField([Key("kcalPerServing")], r.kcalPerServing, NonnegativeInt, true),
                       NumberField([Key("kcalPerServing")], r.kcalPerServing, NonnegativeInt, false));
    p, f := p + NumberField([Key("kcalPerServing")], r.kcalPerServing, NonnegativeInt, true),
            f + NumberField([Key("kcalPerServing")], r.kcalPerServing, NonnegativeInt, false);
    WeakerConcat(p, f, NumberField([Key("proteinPerServing")], r.proteinPerServing, NonnegativeNumber, true),
                       NumberField([Key("proteinPerServing")], r.proteinPerServing, NonnegativeNumber, false));
    p, f := p + NumberField([Key("proteinPerServing")], r.proteinPerServing, NonnegativeNumber, true),
            f + NumberField([Key("proteinPerServing")], r.proteinPerServing, NonnegativeNumber, false);
    WeakerConcat(p, f, NumberField([Key("fatPerServing")], r.fatPerServing, NonnegativeNumber, true),
                       NumberField([Key("fatPerServing")], r.fatPerServing, NonnegativeNumber, false));
    p, f := p + NumberField([Key("fatPerServing")], r.fatPerServing, NonnegativeNumber, true),
            f + NumberField([Key("fatPerServing")], r.fatPerServing, NonnegativeNumber, false);
    WeakerConcat(p, f, NumberField([Key("carbsPerServing")], r.carbsPerServing, NonnegativeNumber, true),
                       NumberField([Key("carbsPerServing")], r.carbsPerServing, NonnegativeNumber, false));
    p, f := p + NumberField([Key("carbsPerServing")], r.carbsPerServing, NonnegativeNumber, true),
            f + NumberField([Key("carbsPerServing")], r.carbsPerServing, NonnegativeNumber, false);
  }

  /** {} and {title, cookTimeMin} are valid updates. */
  lemma PartialUpdatesAccepted(title: string, cookTimeMin: real)
    requires LengthIn(title, 1, 200) && IsInteger(cookTimeMin) && cookTimeMin > 0.0
    ensures RecipeIssues(RecipeInput(None, None, None, None, None, None, None, None, None, None, None, None, None), true) == []
    ensures RecipeIssues(RecipeInput(Some(title), None, None, None, None, None, None, None, Some(cookTimeMin),
                                     None, None, None, None), true) == []
  {
    TwoLengthChecks(|title|, TitleChecks);
    TwoChecks(cookTimeMin, PositiveInt);
  }

  // --------------------------------------------------------------- query

  /** What `Number(raw)` made of a query-string value. */
  datatype Coerced = Number(value: real) | NaN

  datatype QueryInput = QueryInput(
    query: Option<string>, tags: Option<string>, category: Option<string>, categories: Option<string>,
    minKcal: Option<Coerced>, maxKcal: Option<Coerced>,
    minProtein: Option<Coerced>, maxProtein: Option<Coerced>,
    minFat: Option<Coerced>, maxFat: Option<Coerced>,
    minCarbs: Option<Coerced>, maxCarbs: Option<Coerced>,
    page: Option<Coerced>, limit: Option<Coerced>)

  /** An optional coerced number with checks; NaN is not a number to zod. */
  function CoercedField(key: string, v: Option<Coerced>, checks: seq<NumberCheck>): (issues: seq<Issue>)
    ensures issues == [] <==> v.None? || (v.value.Number? && forall c :: c in checks ==> PassesNumber(v.value.value, c))
  {
    match v
    case None => []
    case Some(NaN) => [Issue([Key(key)], NotANumber)]
    case Some(Number(x)) => NumberIssues([Key(key)], x, checks)
  }

  const PageChecks: seq<NumberCheck> := [Int, Positive]
  const LimitChecks: seq<NumberCheck> := [Int, Positive, Max(100.0)]

  function QueryIssues(q: QueryInput): seq<Issue> {
    CoercedField("minKcal", q.minKcal, []) + CoercedField("maxKcal", q.maxKcal, [])
    + CoercedField("minProtein", q.minProtein, []) + CoercedField("maxProtein", q.maxProtein, [])
    + CoercedField("minFat", q.minFat, []) + CoercedField("maxFat", q.maxFat, [])
    + CoercedField("minCarbs", q.minCarbs, []) + CoercedField("maxCarbs", q.maxCarbs, [])
    + CoercedField("page", q.page, PageChecks) + CoercedField("limit", q.limit, LimitChecks)
  }

  /** The parsed query: every bound a number, page and limit defaulted. */
  datatype Query = Query(
    query: Option<string>, tags: Option<string>, category: Option<string>, categories: Option<string>,
    minKcal: Option<real>, maxKcal: Option<real>,
    minProtein: Option<real>, maxProtein: Option<real>,
    minFat: Option<real>, maxFat: Option<real>,
    minCarbs: Option<real>, maxCarbs: Option<real>,
    page: nat, limit: nat)

  function BoundOf(v: Option<Coerced>): Option<real>
    requires v.Some? ==> v.value.Number?
  {
    if v.None? then None else Some(v.value.value)
  }

  /** A page or limit: the default when absent, else the whole number given. */
  function WholeOr(v: Option<Coerced>, default: nat): nat
    requires v.Some? ==> v.value.Number? && IsInteger(v.value.value) && v.value.value > 0.0
  {
    if v.None? then default else v.value.value.Floor
  }

  /** recipeQuerySchema.safeParse. */
  function ParseQuery(q: QueryInput): (res: Result<Query, seq<Issue>>)
    ensures res.Err? <==> QueryIssues(q) != []
    ensures res.Err? ==> res.error == QueryIssues(q)
    ensures res.Ok? ==> && 1 <= res.value.page && 1 <= res.value.limit <= 100
                        && (q.page.None? ==> res.value.page == 1)
                        && (q.limit.None? ==> res.value.limit == 20)
                        && (q.page.Some? ==> res.value.page as real == q.page.value.value)
                        && (q.limit.Some? ==> res.value.limit as real == q.limit.value.value)
  {
    var issues := QueryIssues(q);
    if issues != [] then Err(issues)
    else
      TwoChecks(if q.page.Some? then q.page.value.value else 1.0, PageChecks);
      assert q.limit.Some? ==> forall c :: c in LimitChecks ==> PassesNumber(q.limit.value.value, c);
      assert q.limit.Some? ==>
        PassesNumber(q.limit.value.value, LimitChecks[0]) && PassesNumber(q.limit.value.value, LimitChecks[1])
        && PassesNumber(q.limit.value.value, LimitChecks[2]);
      Ok(Query(q.query, q.tags, q.category, q.categories,
               BoundOf(q.minKcal), BoundOf(q.maxKcal), BoundOf(q.minProtein), BoundOf(q.maxProtein),
               BoundOf(q.minFat), BoundOf(q.maxFat), BoundOf(q.minCarbs), BoundOf(q.maxCarbs),
               WholeOr(q.page, 1), WholeOr(q.limit, 20)))
  }

  /** A page or limit of zero, a fraction, or a limit above 100 is refused. */
  lemma QueryRejectsBadPaging(q: QueryInput)
    requires || (q.page.Some? && q.page.value.Number? && (q.page.value.value <= 0.0 || !IsInteger(q.page.value.value)))
             || (q.limit.Some? && q.limit.value.Number? && q.limit.value.value > 100.0)
    ensures ParseQuery(q).Err?
  {
    if q.limit.Some? && q.limit.value.Number? && q.limit.value.value > 100.0 {
      assert !PassesNumber(q.limit.value.value, LimitChecks[2]);
    } else {
      assert !PassesNumber(q.page.value.value, PageChecks[0]) || !PassesNumber(q.page.value.value, PageChecks[1]);
    }
  }
}
