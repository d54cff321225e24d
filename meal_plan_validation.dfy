/**
 * mealPlanCreateSchema, its partial update form, and mealEntryCreateSchema.
 */
module MealPlanValidation {
  import opened Wrappers
  import opened SchemaRules
  import MealPlanGenerator

  // --------------------------------------------------------- meal plans

  /** A meal plan body: each key holds a number, or for weekStart a coerced
      date, or is absent. */
  datatype MealPlanInput = MealPlanInput(
    weekStart: Option<DateInput>,
    goalsKcal: Option<real>,
    goalsProtein: Option<real>,
    goalsFat: Option<real>,
    goalsCarbs: Option<real>,
    mealsPerDay: Option<real>)

  const KcalChecks: seq<NumberCheck> := [Int, Positive]
  const MacroChecks: seq<NumberCheck> := [Nonnegative]
  const MealsPerDayChecks: seq<NumberCheck> := [Int, Min(3.0), Max(6.0)]

  /** The issues of mealPlanCreateSchema (partial = false) or of
      mealPlanUpdateSchema (partial = true), key by key. */
  function PlanIssues(p: MealPlanInput, partial: bool): seq<Issue> {
    DateField([Key("weekStart")], p.weekStart, partial)
    + NumberField([Key("goalsKcal")], p.goalsKcal, KcalChecks, partial)
    + NumberField([Key("goalsProtein")], p.goalsProtein, MacroChecks, partial)
    + NumberField([Key("goalsFat")], p.goalsFat, MacroChecks, partial)
    + NumberField([Key("goalsCarbs")], p.goalsCarbs, MacroChecks, partial)
    + NumberField([Key("mealsPerDay")], p.mealsPerDay, MealsPerDayChecks, partial)
  }

  /** A whole number n with lo <= n <= hi. */
  predicate IntegerIn(x: real, lo: real, hi: real) {
    IsInteger(x) && lo <= x <= hi
  }

  /** What mealPlanCreateSchema demands, field by field. */
  predicate AcceptablePlan(p: MealPlanInput) {
    && p.weekStart.Some? && p.weekStart.value.Day?
    && p.goalsKcal.Some? && IsInteger(p.goalsKcal.value) && p.goalsKcal.value > 0.0
    && p.goalsProtein.Some? && p.goalsProtein.value >= 0.0
    && p.goalsFat.Some? && p.goalsFat.value >= 0.0
    && p.goalsCarbs.Some? && p.goalsCarbs.value >= 0.0
    && p.mealsPerDay.Some? && IntegerIn(p.mealsPerDay.value, 3.0, 6.0)
  }

  lemma CreateAcceptsExactly(p: MealPlanInput)
    ensures PlanIssues(p, false) == [] <==> AcceptablePlan(p)
  {
    KcalField(p.goalsKcal);
    MealsPerDayField(p.mealsPerDay);
  }

  lemma KcalField(v: Option<real>)
    ensures NumberField([Key("goalsKcal")], v, KcalChecks, false) == [] <==> v.Some? && IsInteger(v.value) && v.value > 0.0
  {
    if v.Some? {
      assert PassesNumber(v.value, KcalChecks[0]) && PassesNumber(v.value, KcalChecks[1])
          ==> forall c :: c in KcalChecks ==> PassesNumber(v.value, c);
    }
  }

  lemma MealsPerDayField(v: Option<real>)
    ensures NumberField([Key("mealsPerDay")], v, MealsPerDayChecks, false) == [] <==> v.Some? && IntegerIn(v.value, 3.0, 6.0)
  {
    if v.Some? {
      var x := v.value;
      assert PassesNumber(x, MealsPerDayChecks[0]) && PassesNumber(x, MealsPerDayChecks[1]) && PassesNumber(x, MealsPerDayChecks[2])
          ==> forall c :: c in MealsPerDayChecks ==> PassesNumber(x, c);
    }
  }


  /** A plan as stored once mealPlanCreateSchema has accepted it. */
  datatype MealPlanData = MealPlanData(
    weekStart: int, goalsKcal: int, goalsProtein: real, goalsFat: real, goalsCarbs: real, mealsPerDay: int)

  /** mealPlanCreateSchema.safeParse: the typed plan, or every issue. */
  function ParseMealPlanCreate(p: MealPlanInput): (r: Result<MealPlanData, seq<Issue>>)
    ensures r.Ok? <==> AcceptablePlan(p)
    ensures r.Err? ==> r.error != [] && r.error == PlanIssues(p, false)
    ensures r.Ok? ==> && r.value.goalsKcal > 0 && 3 <= r.value.mealsPerDay <= 6
                      && r.value.goalsKcal as real == p.goalsKcal.value
                      && r.value.mealsPerDay as real == p.mealsPerDay.value
                      && r.value.goalsProtein >= 0.0 && r.value.goalsFat >= 0.0 && r.value.goalsCarbs >= 0.0
  {
    CreateAcceptsExactly(p);
    var issues := PlanIssues(p, false);
    if issues != [] then Err(issues)
    else Ok(MealPlanData(p.weekStart.value.day, p.goalsKcal.value.Floor, p.goalsProtein.value,
                         p.goalsFat.value, p.goalsCarbs.value, p.mealsPerDay.value.Floor))
  }

  /** What the generator reads of a stored plan. */
  function GeneratorPlan(d: MealPlanData): MealPlanGenerator.MealPlan
    requires d.mealsPerDay >= 0
  {
    MealPlanGenerator.MealPlan(d.mealsPerDay,
      MealPlanGenerator.MacroValues(d.goalsKcal as real, d.goalsProtein, d.goalsFat, d.goalsCarbs))
  }

  /** Every plan the create schema accepts meets what the generator needs:
      a slot type for each meal of the day and a non-zero kcal goal. */
  lemma AcceptedPlanFitsGenerator(p: MealPlanInput)
    requires ParseMealPlanCreate(p).Ok?
    ensures var plan := GeneratorPlan(ParseMealPlanCreate(p).value);
            1 <= plan.mealsPerDay <= |MealPlanGenerator.SlotTypes| && plan.goals.kcal > 0.0
  {
  }

  /** The update schema drops only the complaints about absent keys: each
      of its issues is one the create schema raises too, so every body the
      create schema accepts is a valid update. */
  lemma UpdateIssuesAreCreateIssues(p: MealPlanInput)
    ensures forall i :: i in PlanIssues(p, true) ==> i in PlanIssues(p, false)
    ensures PlanIssues(p, false) == [] ==> PlanIssues(p, true) == []
  {
    assert DateField([Key("weekStart")], p.weekStart, true) == [] || DateField([Key("weekStart")], p.weekStart, true) == DateField([Key("weekStart")], p.weekStart, false);
  }

  /** With every key present, update and create raise the same issues. */
  lemma UpdateOfCompleteBody(p: MealPlanInput)
    requires p.weekStart.Some? && p.goalsKcal.Some? && p.goalsProtein.Some?
    requires p.goalsFat.Some? && p.goalsCarbs.Some? && p.mealsPerDay.Some?
    ensures PlanIssues(p, true) == PlanIssues(p, false)
  {
  }

  /** The empty object is a valid update. */
  lemma EmptyUpdateAccepted()
    ensures PlanIssues(MealPlanInput(None, None, None, None, None, None), true) == []
  {
  }

  // -------------------------------------------------------- meal entries

  /** A meal entry body. */
  datatype MealEntryInput = MealEntryInput(
    date: Option<DateInput>, slot: Option<string>, recipeId: Option<string>, servingsCount: Option<real>)

  const EntrySlots: seq<string> := ["breakfast", "lunch", "dinner", "snack1", "snack2", "snack3"]
  const ServingsChecks: seq<NumberCheck> := [Positive, MultipleOf(0.5)]

  function SlotIssues(v: Option<string>): (issues: seq<Issue>)
    ensures issues == [] <==> v.Some? && v.value in EntrySlots
  {
    match v
    case None => [Issue([Key("slot")], Required)]
    case Some(s) => if s in EntrySlots then [] else [Issue([Key("slot")], InvalidEnumValue)]
  }

  function RecipeIdIssues(v: Option<string>): (issues: seq<Issue>)
    ensures issues == [] <==> v.Some? && IsUuid(v.value)
  {
    match v
    case None => [Issue([Key("recipeId")], Required)]
    case Some(s) => if IsUuid(s) then [] else [Issue([Key("recipeId")], InvalidUuid)]
  }

  /** The issues of mealEntryCreateSchema, key by key. */
  function EntryIssues(e: MealEntryInput): seq<Issue> {
    DateField([Key("date")], e.date, false)
    + SlotIssues(e.slot)
    + RecipeIdIssues(e.recipeId)
    + NumberField([Key("servingsCount")], e.servingsCount, ServingsChecks, false)
  }

  /** A servings count passes exactly when it is a positive whole number of
      half servings. */
  lemma ServingsRule(x: real)
    ensures NumberIssues([Key("servingsCount")], x, ServingsChecks) == [] <==> x > 0.0 && IsInteger(2.0 * x)
  {
    assert x / 0.5 == 2.0 * x;
    assert PassesNumber(x, ServingsChecks[0]) && PassesNumber(x, ServingsChecks[1])
        ==> forall c :: c in ServingsChecks ==> PassesNumber(x, c);
  }

  /** What mealEntryCreateSchema demands, key by key. */
  predicate AcceptableEntry(e: MealEntryInput) {
    && e.date.Some? && e.date.value.Day?
    && e.slot.Some? && e.slot.value in EntrySlots
    && e.recipeId.Some? && IsUuid(e.recipeId.value)
    && e.servingsCount.Some? && e.servingsCount.value > 0.0 && IsInteger(2.0 * e.servingsCount.value)
  }

  lemma EntryAcceptsExactly(e: MealEntryInput)
    ensures EntryIssues(e) == [] <==> AcceptableEntry(e)
  {
    if e.servingsCount.Some? {
      ServingsRule(e.servingsCount.value);
    }
  }

  /** The schema's slot enum lists the generator's slot types, in order. */
  lemma SameSlots()
    ensures EntrySlots == MealPlanGenerator.SlotTypes
  {
  }

  /** Every entry the generator creates has a slot and a servings count this
      schema accepts, so it passes whenever its date and recipe id do. */
  lemma GeneratedEntryAccepted(e: MealPlanGenerator.MealEntry)
    requires e.slot in MealPlanGenerator.SlotTypes && e.servings in MealPlanGenerator.ServingOptions
    requires IsUuid(e.recipeId)
    ensures EntryIssues(MealEntryInput(Some(Day(e.day)), Some(e.slot), Some(e.recipeId), Some(e.servings))) == []
  {
    var input := MealEntryInput(Some(Day(e.day)), Some(e.slot), Some(e.recipeId), Some(e.servings));
    assert AcceptableEntry(input) by {
      SameSlots();
      ServingOptionsAccepted(e.servings);
    }
    EntryAcceptsExactly(input);
  }

  /** Each serving size the generator tries is a positive whole number of
      half servings. */
  lemma ServingOptionsAccepted(x: real)
    requires x in MealPlanGenerator.ServingOptions
    ensures x > 0.0 && IsInteger(2.0 * x)
  {
    if x == 0.5 {
      assert 2.0 * x == 1.0;
    } else if x == 1.0 {
      assert 2.0 * x == 2.0;
    } else if x == 1.5 {
      assert 2.0 * x == 3.0;
    } else {
      assert 2.0 * x == 4.0;
    }
  }
}
