/** The weekly meal-plan generator (app/api/src/services/mealPlanGenerator.ts).
    The store reads become parameters and the store writes become the returned
    sequence of entries. Dates are whole-day offsets from the plan's weekStart. */
module MealPlanGenerator {
  import opened Wrappers
  import opened Seqs
  import opened JsMath

  // ---------------------------------------------------------------- data

  /** Calories and the three macros: a per-serving profile, a target or a total. */
  datatype MacroValues = MacroValues(kcal: real, protein: real, fat: real, carbs: real)

  const Zero := MacroValues(0.0, 0.0, 0.0, 0.0)

  /** A catalogue recipe as the generator sees it (per serving). */
  datatype RecipeMacro = RecipeMacro(id: string, kcal: real, protein: real, fat: real, carbs: real, title: string)

  /** The plan's configuration: meals per day and the weekly goals. */
  datatype MealPlan = MealPlan(mealsPerDay: nat, goals: MacroValues)

  /** A meal entry, pre-existing (locked) or generated: the day offset from
      weekStart, the slot name, the recipe and the serving multiplier. */
  datatype MealEntry = MealEntry(day: int, slot: string, recipeId: string, servings: real)

  /** A (date, slot) pair of the week's grid. */
  datatype Slot = Slot(day: int, name: string)

  /** A ranked recipe: its distance to the average per-slot goal. */
  datatype Scored = Scored(recipe: RecipeMacro, score: real)

  /** What findBestRecipe returns: a recipe and a serving size. */
  datatype Choice = Choice(recipe: RecipeMacro, servings: real)

  const DaysPerWeek: nat := 7
  const SlotTypes: seq<string> := ["breakfast", "lunch", "dinner", "snack1", "snack2", "snack3"]
  /** The serving sizes tried for each candidate, in the order they are tried. */
  const ServingOptions: seq<real> := [0.5, 1.0, 1.5, 2.0]
  /** How many of the ranked recipes findBestRecipe looks at. */
  const CandidateLimit: nat := 20

  function MacrosOf(r: RecipeMacro): MacroValues {
    MacroValues(r.kcal, r.protein, r.fat, r.carbs)
  }

  /** The recipe with every macro multiplied by the serving size. */
  function Scale(r: RecipeMacro, servings: real): (a: RecipeMacro)
    ensures a.id == r.id && a.title == r.title
    ensures MacrosOf(a) == MacroValues(r.kcal * servings, r.protein * servings, r.fat * servings, r.carbs * servings)
  {
    r.(kcal := r.kcal * servings, protein := r.protein * servings, fat := r.fat * servings, carbs := r.carbs * servings)
  }

  function Plus(a: MacroValues, b: MacroValues): MacroValues {
    MacroValues(a.kcal + b.kcal, a.protein + b.protein, a.fat + b.fat, a.carbs + b.carbs)
  }

  // ------------------------------------------------------ macro distance

  /** `x || 1` on a number: only an exact zero is replaced by 1. */
  function OrOne(x: real): (r: real)
    ensures r != 0.0
    ensures x != 0.0 ==> r == x
    ensures x == 0.0 ==> r == 1.0
  {
    if x == 0.0 then 1.0 else x
  }

  /** calculateMacroDistance: the weighted relative deviation per axis. The
      kcal denominator is the target itself, unguarded; the other three are
      guarded with `|| 1`. */
  function Distance(r: RecipeMacro, goals: MacroValues): real
    requires goals.kcal != 0.0
  {
    Abs(r.kcal - goals.kcal) / goals.kcal
    + 0.8 * (Abs(r.protein - goals.protein) / OrOne(goals.protein))
    + 0.6 * (Abs(r.fat - goals.fat) / OrOne(goals.fat))
    + 0.6 * (Abs(r.carbs - goals.carbs) / OrOne(goals.carbs))
  }

  /** The score as JavaScript computes it: with a kcal target of exactly 0 the
      kcal term is Infinity or NaN, represented by None. */
  function Score(r: RecipeMacro, goals: MacroValues): (s: Option<real>)
    ensures s.None? <==> goals.kcal == 0.0
  {
    if goals.kcal == 0.0 then None else Some(Distance(r, goals))
  }

  /** `score < bestScore` with bestScore starting at Infinity (None): a
      non-finite score never compares below, a finite one is below Infinity. */
  predicate Below(score: Option<real>, best: Option<real>) {
    score.Some? && (best.None? || score.value < best.value)
  }

  /** A candidate equal to the target is at distance 0. */
  lemma DistanceAtTarget(r: RecipeMacro, goals: MacroValues)
    requires goals.kcal != 0.0
    requires MacrosOf(r) == goals
    ensures Distance(r, goals) == 0.0
  {
  }

  lemma RelativeDeviation(x: real, g: real)
    requires g > 0.0
    ensures Abs(x - g) / g >= 0.0
    ensures Abs(x - g) / g == 0.0 <==> x == g
  {
    if x != g {
      assert Abs(x - g) > 0.0;
    }
  }

  /** With a positive kcal target and non-negative macro targets the distance
      is non-negative, and it is 0 exactly when the candidate hits the target
      on all four axes. */
  lemma {:induction false} DistanceZeroIff(r: RecipeMacro, goals: MacroValues)
    requires goals.kcal > 0.0 && goals.protein >= 0.0 && goals.fat >= 0.0 && goals.carbs >= 0.0
    ensures Distance(r, goals) >= 0.0
    ensures Distance(r, goals) == 0.0 <==> MacrosOf(r) == goals
  {
    RelativeDeviation(r.kcal, goals.kcal);
    RelativeDeviation(r.protein, OrOne(goals.protein));
    RelativeDeviation(r.fat, OrOne(goals.fat));
    RelativeDeviation(r.carbs, OrOne(goals.carbs));
    var dp := Abs(r.protein - goals.protein) / OrOne(goals.protein);
    var df := Abs(r.fat - goals.fat) / OrOne(goals.fat);
    var dc := Abs(r.carbs - goals.carbs) / OrOne(goals.carbs);
    assert dp >= 0.0 && df >= 0.0 && dc >= 0.0 by {
      AbsOverPositive(r.protein - goals.protein, OrOne(goals.protein));
      AbsOverPositive(r.fat - goals.fat, OrOne(goals.fat));
      AbsOverPositive(r.carbs - goals.carbs, OrOne(goals.carbs));
    }
    if Distance(r, goals) == 0.0 {
      AbsZero(r.protein - goals.protein, OrOne(goals.protein));
      AbsZero(r.fat - goals.fat, OrOne(goals.fat));
      AbsZero(r.carbs - goals.carbs, OrOne(goals.carbs));
    }
  }

  lemma AbsOverPositive(d: real, g: real)
    requires g > 0.0
    ensures Abs(d) / g >= 0.0
  {
  }

  lemma AbsZero(d: real, g: real)
    requires g > 0.0 && Abs(d) / g == 0.0
    ensures d == 0.0
  {
  }

  /** Once the running kcal total exceeds the goal the remaining kcal target is
      negative, and the kcal term then rewards distance: of two candidates
      above the target, the one farther above it scores lower. */
  lemma NegativeKcalTargetPrefersFarther(near: RecipeMacro, far: RecipeMacro, goals: MacroValues)
    requires goals.kcal < 0.0
    requires goals.kcal <= near.kcal < far.kcal
    requires near.protein == far.protein && near.fat == far.fat && near.carbs == far.carbs
    ensures Distance(far, goals) < Distance(near, goals)
  {
    var a := near.kcal - goals.kcal;
    var b := far.kcal - goals.kcal;
    assert 0.0 <= a < b;
    assert a / goals.kcal > b / goals.kcal by { DivideByNegative(a, b, goals.kcal); }
  }

  lemma DivideByNegative(a: real, b: real, g: real)
    requires a < b && g < 0.0
    ensures a / g > b / g
  {
    assert a / g - b / g == (a - b) / g;
  }

  // ----------------------------------------------------------- slot grid

  /** The slots of one day: the first `m` slot names, in order. */
  function DaySlots(day: int, m: nat): seq<Slot>
    requires m <= |SlotTypes|
  {
    seq(m, i requires 0 <= i < m => Slot(day, SlotTypes[i]))
  }

  /** The slots of the first `days` days, day-major. */
  function GridPrefix(days: nat, m: nat): seq<Slot>
    requires m <= |SlotTypes|
  {
    if days == 0 then [] else GridPrefix(days - 1, m) + DaySlots(days - 1, m)
  }

  /** The week's grid of (day, slot name) pairs. */
  function Grid(m: nat): seq<Slot>
    requires m <= |SlotTypes|
  {
    GridPrefix(DaysPerWeek, m)
  }

  /** Position of slot `i` of day `d` in a day-major grid. */
  function GridIndex(d: nat, i: nat, m: nat): nat { d * m + i }

  /** The slot loops of generateMealPlan: 7 days, then `mealsPerDay` slot
      names per day. */
  method EnumerateSlots(mealsPerDay: nat) returns (slots: seq<Slot>)
    requires mealsPerDay <= |SlotTypes|
    ensures slots == Grid(mealsPerDay)
  {
    slots := [];
    for day := 0 to DaysPerWeek
      invariant slots == GridPrefix(day, mealsPerDay)
    {
      for i := 0 to mealsPerDay
        invariant slots == GridPrefix(day, mealsPerDay) + DaySlots(day, mealsPerDay)[..i]
      {
        slots := slots + [Slot(day, SlotTypes[i])];
      }
    }
  }

  lemma {:induction false} GridPrefixShape(days: nat, m: nat)
    requires m <= |SlotTypes|
    ensures |GridPrefix(days, m)| == days * m
    ensures forall d, i :: 0 <= d < days && 0 <= i < m ==>
              GridPrefix(days, m)[GridIndex(d, i, m)] == Slot(d, SlotTypes[i])
  {
    GridPrefixLength(days, m);
    forall d, i | 0 <= d < days && 0 <= i < m
      ensures GridPrefix(days, m)[GridIndex(d, i, m)] == Slot(d, SlotTypes[i])
    {
      GridPrefixCell(days, m, d, i);
    }
  }

  lemma {:induction false} GridPrefixLength(days: nat, m: nat)
    requires m <= |SlotTypes|
    ensures |GridPrefix(days, m)| == days * m
  {
    if days > 0 {
      GridPrefixLength(days - 1, m);
      RowSize(days, m);
    }
  }

  /** Slot i of day d of the first `days` days. */
  lemma {:induction false} GridPrefixCell(days: nat, m: nat, d: nat, i: nat)
    requires m <= |SlotTypes| && d < days && i < m
    ensures GridIndex(d, i, m) < |GridPrefix(days, m)|
    ensures GridPrefix(days, m)[GridIndex(d, i, m)] == Slot(d, SlotTypes[i])
  {
    var before := GridPrefix(days - 1, m);
    assert GridPrefix(days, m) == before + DaySlots(days - 1, m);
    GridPrefixLength(days - 1, m);
    RowSize(days, m);
    if d < days - 1 {
      GridPrefixCell(days - 1, m, d, i);
    } else {
      assert GridIndex(d, i, m) == |before| + i;
    }
  }

  lemma RowSize(days: nat, m: nat)
    requires days > 0
    ensures (days - 1) * m + m == days * m
  {
  }

  /** The grid has 7 x m slots, day-major: slot i of day d sits at d*m + i and
      is named SlotTypes[i]. */
  lemma GridShape(m: nat)
    requires m <= |SlotTypes|
    ensures |Grid(m)| == DaysPerWeek * m
    ensures forall d, i :: 0 <= d < DaysPerWeek && 0 <= i < m ==>
              Grid(m)[GridIndex(d, i, m)] == Slot(d, SlotTypes[i])
  {
    GridPrefixShape(DaysPerWeek, m);
  }

  lemma {:induction false} GridPrefixMembers(days: nat, m: nat, s: Slot)
    requires m <= |SlotTypes|
    ensures s in GridPrefix(days, m) <==> 0 <= s.day < days && s.name in SlotTypes[..m]
  {
    if days > 0 {
      GridPrefixMembers(days - 1, m, s);
      var day := DaySlots(days - 1, m);
      if s.day == days - 1 && s.name in SlotTypes[..m] {
        var i :| 0 <= i < m && SlotTypes[..m][i] == s.name;
        assert day[i] == s;
      }
      if s in day {
        var i :| 0 <= i < m && day[i] == s;
        assert SlotTypes[..m][i] == s.name;
      }
    }
  }

  /** The grid is exactly the product of the 7 days and the first m slot
      names. */
  lemma GridMembers(m: nat, s: Slot)
    requires m <= |SlotTypes|
    ensures s in Grid(m) <==> 0 <= s.day < DaysPerWeek && s.name in SlotTypes[..m]
  {
    GridPrefixMembers(DaysPerWeek, m, s);
  }

  lemma {:induction false} GridPrefixDistinct(days: nat, m: nat)
    requires m <= |SlotTypes|
    ensures NoDuplicates(GridPrefix(days, m))
  {
    if days > 0 {
      GridPrefixDistinct(days - 1, m);
      var day := DaySlots(days - 1, m);
      forall x | x in GridPrefix(days - 1, m) ensures x !in day {
        GridPrefixMembers(days - 1, m, x);
      }
      NoDuplicatesAppend(GridPrefix(days - 1, m), day);
    }
  }

  /** No slot identity occurs twice in the grid. */
  lemma GridDistinct(m: nat)
    requires m <= |SlotTypes|
    ensures NoDuplicates(Grid(m))
  {
    GridPrefixDistinct(DaysPerWeek, m);
  }

  /** The slots of `slots` that fall on day `d`. */
  function SlotsOn(slots: seq<Slot>, d: int): seq<Slot> {
    Filter(slots, (s: Slot) => s.day == d)
  }

  lemma {:induction false} GridPrefixPerDay(days: nat, m: nat, d: int)
    requires m <= |SlotTypes|
    ensures |SlotsOn(GridPrefix(days, m), d)| == if 0 <= d < days then m else 0
  {
    if days > 0 {
      var p := (s: Slot) => s.day == d;
      GridPrefixPerDay(days - 1, m, d);
      FilterAppend(GridPrefix(days - 1, m), DaySlots(days - 1, m), p);
      if d == days - 1 {
        FilterAll(DaySlots(days - 1, m), p);
      } else {
        FilterNone(DaySlots(days - 1, m), p);
      }
    }
  }

  /** Every day of the week has exactly m slots. */
  lemma SlotsPerDay(m: nat, d: int)
    requires m <= |SlotTypes|
    requires 0 <= d < DaysPerWeek
    ensures |SlotsOn(Grid(m), d)| == m
  {
    GridPrefixPerDay(DaysPerWeek, m, d);
  }

  // -------------------------------------------------------- locked slots

  /** The (date, slot) keys of the existing entries. */
  function LockedSlots(entries: seq<MealEntry>): set<Slot> {
    set e | e in entries :: Slot(e.day, e.slot)
  }

  /** freeSlots: the slots that no existing entry occupies, in grid order. */
  function FreeSlots(slots: seq<Slot>, entries: seq<MealEntry>): (free: seq<Slot>)
    ensures forall s :: s in free <==>
              s in slots && forall e :: e in entries ==> e.day != s.day || e.slot != s.name
  {
    var locked := LockedSlots(entries);
    var free := Filter(slots, s => s !in locked);
    assert forall s :: s in locked <==> exists e :: e in entries && e.day == s.day && e.slot == s.name;
    free
  }

  /** Free slots keep the grid's order: the filter distributes over any split
      of the slot list. */
  lemma FreeSlotsAppend(a: seq<Slot>, b: seq<Slot>, entries: seq<MealEntry>)
    ensures FreeSlots(a + b, entries) == FreeSlots(a, entries) + FreeSlots(b, entries)
  {
    var locked := LockedSlots(entries);
    FilterAppend(a, b, s => s !in locked);
  }

  /** The free slots of the grid are distinct, and there are 7 x m of them
      less the number of grid slots the existing entries lock. */
  lemma FreeSlotsCount(m: nat, entries: seq<MealEntry>)
    requires m <= |SlotTypes|
    ensures NoDuplicates(FreeSlots(Grid(m), entries))
    ensures |FreeSlots(Grid(m), entries)| == DaysPerWeek * m - |LockedSlots(entries) * (set s | s in Grid(m))|
  {
    var g := Grid(m);
    var free := FreeSlots(g, entries);
    GridShape(m);
    GridDistinct(m);
    FreeSlotsDistinct(g, entries);
    DistinctCard(g);
    DistinctCard(free);
    FreeSlotSet(g, entries);
    CardSplit((set s | s in g), LockedSlots(entries));
  }

  lemma FreeSlotsDistinct(slots: seq<Slot>, entries: seq<MealEntry>)
    requires NoDuplicates(slots)
    ensures NoDuplicates(FreeSlots(slots, entries))
  {
    var locked := LockedSlots(entries);
    FilterNoDuplicates(slots, s => s !in locked);
  }

  lemma FreeSlotSet(slots: seq<Slot>, entries: seq<MealEntry>)
    ensures (set s | s in FreeSlots(slots, entries)) == (set s | s in slots) - LockedSlots(entries)
  {
    var locked := LockedSlots(entries);
    assert forall s :: s in locked <==> exists e :: e in entries && e.day == s.day && e.slot == s.name;
  }

  /** A set splits into the part outside `b` and the part inside it. */
  lemma CardSplit(a: set<Slot>, b: set<Slot>)
    ensures |a| == |a - b| + |b * a|
  {
    assert a == (a - b) + (b * a);
    assert (a - b) !! (b * a);
  }

  /** A plan of 3 meals a day with no existing entries has 21 free slots, and
      with one entry on the first day's breakfast it has 20. */
  lemma ThreeMealsScenario(id: string)
    ensures |FreeSlots(Grid(3), [])| == 21
    ensures |FreeSlots(Grid(3), [MealEntry(0, "breakfast", id, 1.0)])| == 20
  {
    FreeSlotsCount(3, []);
    var entries := [MealEntry(0, "breakfast", id, 1.0)];
    FreeSlotsCount(3, entries);
    var breakfast := Slot(0, "breakfast");
    assert LockedSlots(entries) == {breakfast};
    GridMembers(3, breakfast);
    assert SlotTypes[..3][0] == "breakfast";
    assert LockedSlots(entries) * (set s | s in Grid(3)) == {breakfast};
  }

  // ------------------------------------------------------- locked totals

  /** Array.prototype.find on the catalogue: the first recipe with that id. */
  function FindRecipe(recipes: seq<RecipeMacro>, id: string): Option<RecipeMacro> {
    if recipes == [] then None
    else if recipes[0].id == id then Some(recipes[0])
    else FindRecipe(recipes[1..], id)
  }

  /** find returns null exactly when no recipe has the id, and otherwise the
      first recipe that has it. */
  lemma {:induction false} FindRecipeSpec(recipes: seq<RecipeMacro>, id: string)
    ensures FindRecipe(recipes, id).None? <==> forall k :: 0 <= k < |recipes| ==> recipes[k].id != id
    ensures FindRecipe(recipes, id).Some? ==>
              exists k :: && 0 <= k < |recipes| && recipes[k] == FindRecipe(recipes, id).value
                          && recipes[k].id == id && forall j :: 0 <= j < k ==> recipes[j].id != id
  {
    if recipes != [] && recipes[0].id != id {
      FindRecipeSpec(recipes[1..], id);
      assert forall k :: 1 <= k < |recipes| ==> recipes[k] == recipes[1..][k - 1];
      if FindRecipe(recipes, id).Some? {
        var k :| && 0 <= k < |recipes[1..]| && recipes[1..][k] == FindRecipe(recipes, id).value
                 && recipes[1..][k].id == id && forall j :: 0 <= j < k ==> recipes[1..][j].id != id;
        assert recipes[k + 1] == recipes[1..][k];
        assert forall j :: 1 <= j < k + 1 ==> recipes[j] == recipes[1..][j - 1];
      }
    }
  }

  function Times(m: MacroValues, factor: real): MacroValues {
    MacroValues(m.kcal * factor, m.protein * factor, m.fat * factor, m.carbs * factor)
  }

  /** What one existing entry adds to the totals: its recipe times its
      servings, or nothing when its recipe is not in the catalogue. */
  function EntryContribution(e: MealEntry, recipes: seq<RecipeMacro>): MacroValues {
    match FindRecipe(recipes, e.recipeId)
    case Some(r) => Times(MacrosOf(r), e.servings)
    case None => Zero
  }

  /** The totals the existing entries contribute. */
  function EntryTotals(entries: seq<MealEntry>, recipes: seq<RecipeMacro>): MacroValues {
    if entries == [] then Zero
    else Plus(EntryContribution(entries[0], recipes), EntryTotals(entries[1..], recipes))
  }

  lemma PlusAssociative(x: MacroValues, y: MacroValues, z: MacroValues)
    ensures Plus(Plus(x, y), z) == Plus(x, Plus(y, z))
  {
  }

  lemma PlusZero(x: MacroValues)
    ensures Plus(Zero, x) == x && Plus(x, Zero) == x
  {
  }

  /** Adding one more entry adds its contribution. */
  lemma {:induction false} EntryTotalsSnoc(entries: seq<MealEntry>, e: MealEntry, recipes: seq<RecipeMacro>)
    ensures EntryTotals(entries + [e], recipes) == Plus(EntryTotals(entries, recipes), EntryContribution(e, recipes))
  {
    var c := EntryContribution(e, recipes);
    if entries == [] {
      assert entries + [e] == [e];
      assert [e][1..] == [];
      PlusZero(c);
    } else {
      assert (entries + [e])[1..] == entries[1..] + [e];
      EntryTotalsSnoc(entries[1..], e, recipes);
      PlusAssociative(EntryContribution(entries[0], recipes), EntryTotals(entries[1..], recipes), c);
    }
  }

  lemma EntryTotalsStep(entries: seq<MealEntry>, i: nat, recipes: seq<RecipeMacro>)
    requires i < |entries|
    ensures EntryTotals(entries[..i + 1], recipes) == Plus(EntryTotals(entries[..i], recipes), EntryContribution(entries[i], recipes))
  {
    assert entries[..i + 1] == entries[..i] + [entries[i]];
    EntryTotalsSnoc(entries[..i], entries[i], recipes);
  }

  /** The loop that adds the locked entries to currentTotals. */
  method LockedTotals(entries: seq<MealEntry>, recipes: seq<RecipeMacro>) returns (totals: MacroValues)
    ensures totals == EntryTotals(entries, recipes)
  {
    totals := Zero;
    for i := 0 to |entries|
      invariant totals == EntryTotals(entries[..i], recipes)
    {
      EntryTotalsStep(entries, i, recipes);
      var recipe := FindRecipe(recipes, entries[i].recipeId);
      if recipe.Some? {
        var servings := entries[i].servings;
        totals := totals.(kcal := totals.kcal + recipe.value.kcal * servings);
        totals := totals.(protein := totals.protein + recipe.value.protein * servings);
        totals := totals.(fat := totals.fat + recipe.value.fat * servings);
        totals := totals.(carbs := totals.carbs + recipe.value.carbs * servings);
      }
    }
    assert entries[..|entries|] == entries;
  }

  /** Does the entry's recipe exist in the catalogue? */
  predicate HasKnownRecipe(e: MealEntry, recipes: seq<RecipeMacro>) {
    FindRecipe(recipes, e.recipeId).Some?
  }

  /** Entries whose recipe is not in the catalogue contribute nothing: the
      totals are those of the entries with a known recipe. */
  lemma {:induction false} UnknownRecipesContributeNothing(entries: seq<MealEntry>, recipes: seq<RecipeMacro>)
    ensures EntryTotals(entries, recipes) == EntryTotals(Filter(entries, e => HasKnownRecipe(e, recipes)), recipes)
  {
    if entries != [] {
      UnknownRecipesContributeNothing(entries[1..], recipes);
      if !HasKnownRecipe(entries[0], recipes) {
        PlusZero(EntryTotals(entries[1..], recipes));
      }
    }
  }

  /** The totals of two runs of entries add up. */
  lemma {:induction false} EntryTotalsAppend(a: seq<MealEntry>, b: seq<MealEntry>, recipes: seq<RecipeMacro>)
    ensures EntryTotals(a + b, recipes) == Plus(EntryTotals(a, recipes), EntryTotals(b, recipes))
  {
    if a == [] {
      assert a + b == b;
      PlusZero(EntryTotals(b, recipes));
    } else {
      assert (a + b)[1..] == a[1..] + b;
      EntryTotalsAppend(a[1..], b, recipes);
      PlusAssociative(EntryContribution(a[0], recipes), EntryTotals(a[1..], recipes), EntryTotals(b, recipes));
    }
  }

  // ------------------------------------------------------------- ranking

  /** The average per-slot goal: the weekly goals over 7 x mealsPerDay. */
  function GoalsPerSlot(plan: MealPlan): MacroValues
    requires plan.mealsPerDay > 0
  {
    var n := (DaysPerWeek * plan.mealsPerDay) as real;
    MacroValues(plan.goals.kcal / n, plan.goals.protein / n, plan.goals.fat / n, plan.goals.carbs / n)
  }

  /** recipeScores before sorting: every recipe with its distance to the goal. */
  function ScoreAll(recipes: seq<RecipeMacro>, goals: MacroValues): (scored: seq<Scored>)
    requires goals.kcal != 0.0
    ensures |scored| == |recipes|
    ensures forall k :: 0 <= k < |recipes| ==> scored[k] == Scored(recipes[k], Distance(recipes[k], goals))
  {
    seq(|recipes|, k requires 0 <= k < |recipes| => Scored(recipes[k], Distance(recipes[k], goals)))
  }

  ghost predicate SortedByScore(s: seq<Scored>) {
    forall i, j :: 0 <= i < j < |s| ==> s[i].score <= s[j].score
  }

  /** Puts `x` in front of the first element that does not score below it. */
  function InsertByScore(x: Scored, s: seq<Scored>): (r: seq<Scored>)
    ensures |r| == |s| + 1
    ensures multiset(r) == multiset(s) + multiset{x}
  {
    if s == [] || x.score <= s[0].score then [x] + s
    else
      assert s == [s[0]] + s[1..];
      [s[0]] + InsertByScore(x, s[1..])
  }

  /** Inserting into a list sorted by score keeps it sorted. */
  lemma {:induction false} InsertByScoreSorted(x: Scored, s: seq<Scored>)
    requires SortedByScore(s)
    ensures SortedByScore(InsertByScore(x, s))
  {
    if s != [] && x.score > s[0].score {
      assert s == [s[0]] + s[1..];
      InsertByScoreSorted(x, s[1..]);
      var rest := InsertByScore(x, s[1..]);
      forall y | y in rest ensures s[0].score <= y.score {
        InsertedMember(x, s[1..], y);
        if y != x {
          HeadLowest(s, y);
        }
      }
      ConsSorted(s[0], rest);
    }
  }

  lemma InsertedMember(x: Scored, s: seq<Scored>, y: Scored)
    requires y in InsertByScore(x, s)
    ensures y == x || y in s
  {
    assert y in multiset(InsertByScore(x, s));
  }

  /** The head of a sorted sequence scores lowest. */
  lemma HeadLowest(s: seq<Scored>, y: Scored)
    requires SortedByScore(s) && s != [] && y in s
    ensures s[0].score <= y.score
  {
    var k :| 0 <= k < |s| && s[k] == y;
  }

  /** An element no greater than any of a sorted sequence's can go in front. */
  lemma ConsSorted(h: Scored, rest: seq<Scored>)
    requires SortedByScore(rest)
    requires forall y :: y in rest ==> h.score <= y.score
    ensures SortedByScore([h] + rest)
  {
    var r := [h] + rest;
    forall i, j | 0 <= i < j < |r| ensures r[i].score <= r[j].score {
      assert r[j] == rest[j - 1];
      if i > 0 {
        assert r[i] == rest[i - 1];
      }
    }
  }

  /** `recipeScores.sort((a, b) => a.score - b.score)`: ascending score,
      ties kept in input order (`SortByScoreStable`). */
  function SortByScore(s: seq<Scored>): (r: seq<Scored>)
    ensures SortedByScore(r)
    ensures multiset(r) == multiset(s)
  {
    if s == [] then []
    else
      assert s == [s[0]] + s[1..];
      InsertByScoreSorted(s[0], SortByScore(s[1..]));
      InsertByScore(s[0], SortByScore(s[1..]))
  }

  /** The test "scores exactly v", as a predicate to filter by. */
  function ScoreIs(v: real): Scored -> bool {
    (x: Scored) => x.score == v
  }

  /** Insertion goes past lower scores only, so among the elements of one
      score the inserted one comes first. */
  lemma {:induction false} InsertByScoreTies(x: Scored, s: seq<Scored>, v: real)
    ensures Filter(InsertByScore(x, s), ScoreIs(v)) == (if x.score == v then [x] else []) + Filter(s, ScoreIs(v))
  {
    if s == [] || x.score <= s[0].score {
      assert ([x] + s)[1..] == s;
    } else {
      InsertByScoreTies(x, s[1..], v);
      assert ([s[0]] + InsertByScore(x, s[1..]))[1..] == InsertByScore(x, s[1..]);
      assert s == [s[0]] + s[1..];
    }
  }

  /** The sort is stable: the elements of any one score keep their order. */
  lemma {:induction false} SortByScoreStable(s: seq<Scored>, v: real)
    ensures Filter(SortByScore(s), ScoreIs(v)) == Filter(s, ScoreIs(v))
  {
    if s != [] {
      SortByScoreStable(s[1..], v);
      InsertByScoreTies(s[0], SortByScore(s[1..]), v);
      assert s == [s[0]] + s[1..];
    }
  }

  /** The ranking, computed once per run against the average per-slot goal. */
  function Rank(recipes: seq<RecipeMacro>, goals: MacroValues): (ranked: seq<Scored>)
    requires goals.kcal != 0.0
    ensures SortedByScore(ranked)
    ensures |ranked| == |recipes|
    ensures forall x :: x in ranked <==> x in ScoreAll(recipes, goals)
    ensures multiset(ranked) == multiset(ScoreAll(recipes, goals))
  {
    var scored := ScoreAll(recipes, goals);
    var ranked := SortByScore(scored);
    assert |ranked| == |multiset(ranked)| == |multiset(scored)| == |scored|;
    assert forall x :: x in ranked <==> x in multiset(scored);
    ranked
  }
  /** Recipes at the same distance are ranked in catalogue order, which
      decides which of them enter the top 20 and which wins a tie. */
  lemma RankStable(recipes: seq<RecipeMacro>, goals: MacroValues, v: real)
    requires goals.kcal != 0.0
    ensures Filter(Rank(recipes, goals), ScoreIs(v)) == Filter(ScoreAll(recipes, goals), ScoreIs(v))
  {
    SortByScoreStable(ScoreAll(recipes, goals), v);
  }


  // ---------------------------------------------------- findBestRecipe

  /** `candidates.slice(0, 20)` */
  function Candidates(ranked: seq<Scored>): (c: seq<Scored>)
    ensures |c| == if |ranked| < CandidateLimit then |ranked| else CandidateLimit
    ensures c == ranked[..|c|]
  {
    if |ranked| <= CandidateLimit then ranked else ranked[..CandidateLimit]
  }

  /** The distance of candidate `k` at serving size number `s`. */
  function PairScore(cands: seq<Scored>, goals: MacroValues, k: nat, s: nat): real
    requires goals.kcal != 0.0 && k < |cands| && s < |ServingOptions|
  {
    Distance(Scale(cands[k].recipe, ServingOptions[s]), goals)
  }

  /** The loops visit (candidate, serving) pairs candidate-major. */
  predicate Earlier(k1: nat, s1: nat, k2: nat, s2: nat) {
    k1 < k2 || (k1 == k2 && s1 < s2)
  }

  /** Among the pairs visited before (K, S), pair (k, s) scores lowest, and
      strictly lower than every pair visited before it. */
  ghost predicate BestBefore(cands: seq<Scored>, goals: MacroValues, k: nat, s: nat, K: nat, S: nat)
    requires goals.kcal != 0.0 && k < |cands| && s < |ServingOptions|
  {
    && Earlier(k, s, K, S)
    && (forall k', s' :: 0 <= k' < |cands| && 0 <= s' < |ServingOptions| && Earlier(k', s', K, S) ==>
          PairScore(cands, goals, k, s) <= PairScore(cands, goals, k', s'))
    && (forall k', s' :: 0 <= k' < |cands| && 0 <= s' < |ServingOptions| && Earlier(k', s', k, s) ==>
          PairScore(cands, goals, k, s) < PairScore(cands, goals, k', s'))
  }

  /** Pair (k, s) is the minimum over all pairs, and the first minimum. */
  ghost predicate IsBestPair(cands: seq<Scored>, goals: MacroValues, k: nat, s: nat)
    requires goals.kcal != 0.0 && k < |cands| && s < |ServingOptions|
  {
    BestBefore(cands, goals, k, s, |cands|, 0)
  }

  /** `c` is the first minimum-distance pair among the top candidates of the
      ranking and the four serving sizes. */
  ghost predicate IsGreedyChoice(ranked: seq<Scored>, goals: MacroValues, c: Choice) {
    && goals.kcal != 0.0
    && exists k: nat, s: nat :: k < |Candidates(ranked)| && s < |ServingOptions|
         && IsBestPair(Candidates(ranked), goals, k, s)
         && c == Choice(Candidates(ranked)[k].recipe, ServingOptions[s])
  }

  /** A greedy choice uses one of the top candidates at one of the four
      serving sizes. */
  lemma GreedyChoiceDomain(ranked: seq<Scored>, goals: MacroValues, c: Choice)
    requires IsGreedyChoice(ranked, goals, c)
    ensures c.servings in ServingOptions
    ensures exists k :: 0 <= k < |ranked| && k < CandidateLimit && ranked[k].recipe == c.recipe
  {
    var k: nat, s: nat :| k < |Candidates(ranked)| && s < |ServingOptions|
         && IsBestPair(Candidates(ranked), goals, k, s)
         && c == Choice(Candidates(ranked)[k].recipe, ServingOptions[s]);
    assert ranked[k].recipe == c.recipe;
  }

  /** The state of findBestRecipe's loops once every pair before (K, S)
      has been visited: the best pair so far, with its score, is the
      first of the lowest-scoring pairs visited. */
  ghost predicate Scanned(cands: seq<Scored>, goals: MacroValues, K: nat, S: nat,
                          best: Option<Choice>, bestScore: Option<real>, bk: nat, bs: nat) {
    && (best.None? <==> bestScore.None?)
    && (goals.kcal == 0.0 ==> best.None?)
    && (best.None? ==> (K == 0 && S == 0) || goals.kcal == 0.0)
    && (best.Some? ==> && goals.kcal != 0.0 && bk < |cands| && bs < |ServingOptions|
                       && best.value == Choice(cands[bk].recipe, ServingOptions[bs])
                       && bestScore.value == PairScore(cands, goals, bk, bs)
                       && BestBefore(cands, goals, bk, bs, K, S))
  }

  /** The inner loop of findBestRecipe: the serving sizes of candidate k. */
  method ScanServings(cands: seq<Scored>, goals: MacroValues, k: nat,
                      best: Option<Choice>, bestScore: Option<real>, ghost bk: nat, ghost bs: nat)
    returns (best': Option<Choice>, bestScore': Option<real>, ghost bk': nat, ghost bs': nat)
    requires k < |cands| && Scanned(cands, goals, k, 0, best, bestScore, bk, bs)
    ensures Scanned(cands, goals, k + 1, 0, best', bestScore', bk', bs')
  {
    best', bestScore', bk', bs' := best, bestScore, bk, bs;
    for s := 0 to |ServingOptions|
      invariant Scanned(cands, goals, k, s, best', bestScore', bk', bs')
    {
      var servings := ServingOptions[s];
      var adjusted := Scale(cands[k].recipe, servings);
      var score := Score(adjusted, goals);
      if Below(score, bestScore') {
        bestScore' := score;
        best' := Some(Choice(cands[k].recipe, servings));
        bk', bs' := k, s;
      }
    }
  }

  /** findBestRecipe: every top candidate at every serving size, keeping a pair
      only when its score is strictly below the best so far (which starts at
      Infinity). */
  method FindBestRecipe(candidates: seq<Scored>, goals: MacroValues) returns (best: Option<Choice>)
    ensures best.None? <==> |candidates| == 0 || goals.kcal == 0.0
    ensures best.Some? ==> IsGreedyChoice(candidates, goals, best.value)
  {
    if |candidates| == 0 {
      return None;
    }
    var cands := Candidates(candidates);
    best := None;
    var bestScore: Option<real> := None;
    ghost var bk: nat, bs: nat := 0, 0;
    for k := 0 to |cands|
      invariant Scanned(cands, goals, k, 0, best, bestScore, bk, bs)
    {
      best, bestScore, bk, bs := ScanServings(cands, goals, k, best, bestScore, bk, bs);
    }
    if best.Some? {
      assert IsBestPair(cands, goals, bk, bs);
    }
  }

  // --------------------------------------------------- greedy allocation

  /** What a choice adds to the running totals: the recipe times the servings. */
  function ChoiceMacros(c: Choice): MacroValues {
    MacrosOf(Scale(c.recipe, c.servings))
  }

  /** What a run of choices adds up to. */
  function ChoicesTotal(choices: seq<Choice>): MacroValues {
    if choices == [] then Zero else Plus(ChoiceMacros(choices[0]), ChoicesTotal(choices[1..]))
  }

  /** The running totals after the given choices, starting from `start`. */
  function Accumulate(start: MacroValues, choices: seq<Choice>): MacroValues {
    Plus(start, ChoicesTotal(choices))
  }

  lemma {:induction false} ChoicesTotalSnoc(choices: seq<Choice>, c: Choice)
    ensures ChoicesTotal(choices + [c]) == Plus(ChoicesTotal(choices), ChoiceMacros(c))
  {
    if choices == [] {
      assert choices + [c] == [c];
      assert [c][1..] == [];
      PlusZero(ChoiceMacros(c));
    } else {
      assert (choices + [c])[1..] == choices[1..] + [c];
      ChoicesTotalSnoc(choices[1..], c);
      PlusAssociative(ChoiceMacros(choices[0]), ChoicesTotal(choices[1..]), ChoiceMacros(c));
    }
  }

  /** remainingGoals: what is left of the weekly goal, spread over the slots
      not yet assigned. */
  function RemainingTarget(goals: MacroValues, totals: MacroValues, remaining: nat): MacroValues
    requires remaining >= 1
  {
    var n := remaining as real;
    MacroValues((goals.kcal - totals.kcal) / n, (goals.protein - totals.protein) / n,
                (goals.fat - totals.fat) / n, (goals.carbs - totals.carbs) / n)
  }

  /** Once the kcal goal is met exactly, the kcal target is 0. */
  lemma ZeroTarget(goals: MacroValues, totals: MacroValues, remaining: nat)
    requires remaining >= 1 && totals.kcal == goals.kcal
    ensures RemainingTarget(goals, totals, remaining).kcal == 0.0
  {
  }

  lemma ZeroQuotient(x: real, n: real)
    requires n > 0.0 && x / n == 0.0
    ensures x == 0.0
  {
  }

  /** Assignment k fills free slot k with the recipe and servings of choice k. */
  ghost predicate FillsInOrder(free: seq<Slot>, assignments: seq<MealEntry>, choices: seq<Choice>) {
    && |assignments| == |choices| <= |free|
    && forall k :: 0 <= k < |choices| ==>
         assignments[k] == MealEntry(free[k].day, free[k].name, choices[k].recipe.id, choices[k].servings)
  }

  lemma FillsInOrderAppend(free: seq<Slot>, assignments: seq<MealEntry>, choices: seq<Choice>, c: Choice)
    requires FillsInOrder(free, assignments, choices) && |choices| < |free|
    ensures FillsInOrder(free, assignments + [MealEntry(free[|choices|].day, free[|choices|].name, c.recipe.id, c.servings)], choices + [c])
  {
  }

  /** Choice k is the greedy choice for the target left after the choices
      before it, spread over the n - k slots not yet assigned. */
  ghost predicate GreedyChoices(ranked: seq<Scored>, goals: MacroValues, locked: MacroValues, n: nat, choices: seq<Choice>) {
    && |choices| <= n
    && forall k :: 0 <= k < |choices| ==>
         IsGreedyChoice(ranked, RemainingTarget(goals, Accumulate(locked, choices[..k]), n - k), choices[k])
  }

  lemma GreedyChoicesAppend(ranked: seq<Scored>, goals: MacroValues, locked: MacroValues, n: nat, choices: seq<Choice>, c: Choice)
    requires GreedyChoices(ranked, goals, locked, n, choices)
    requires |choices| < n
    requires IsGreedyChoice(ranked, RemainingTarget(goals, Accumulate(locked, choices), n - |choices|), c)
    ensures GreedyChoices(ranked, goals, locked, n, choices + [c])
  {
    var cs := choices + [c];
    assert forall k :: 0 <= k <= |choices| ==> cs[..k] == choices[..k];
  }

  /** One greedy assignment keeps the loop's invariants. */
  lemma AllocateStep(free: seq<Slot>, ranked: seq<Scored>, goals: MacroValues, locked: MacroValues,
                     assignments: seq<MealEntry>, choices: seq<Choice>, c: Choice)
    requires FillsInOrder(free, assignments, choices) && |choices| < |free|
    requires GreedyChoices(ranked, goals, locked, |free|, choices)
    requires IsGreedyChoice(ranked, RemainingTarget(goals, Accumulate(locked, choices), |free| - |choices|), c)
    ensures FillsInOrder(free, assignments + [MealEntry(free[|choices|].day, free[|choices|].name, c.recipe.id, c.servings)],
                         choices + [c])
    ensures GreedyChoices(ranked, goals, locked, |free|, choices + [c])
    ensures Accumulate(locked, choices + [c]) == Plus(Accumulate(locked, choices), ChoiceMacros(c))
  {
    GreedyChoicesAppend(ranked, goals, locked, |free|, choices, c);
    AccumulateStep(locked, choices, c);
    FillsInOrderAppend(free, assignments, choices, c);
  }

  /** Each choice adds exactly its recipe times its servings to the running
      totals. */
  lemma AccumulateStep(start: MacroValues, choices: seq<Choice>, c: Choice)
    ensures Accumulate(start, choices + [c]) == Plus(Accumulate(start, choices), ChoiceMacros(c))
  {
    ChoicesTotalSnoc(choices, c);
    PlusAssociative(start, ChoicesTotal(choices), ChoiceMacros(c));
  }

  /** The invariant of the greedy loop after the first `i` free slots: the
      assignments fill free slots in order with greedy choices, the running
      totals are the locked totals plus the choices, and a slot has been
      left empty only once the kcal goal was met exactly. */
  ghost predicate AllocatedUpTo(free: seq<Slot>, ranked: seq<Scored>, goals: MacroValues, locked: MacroValues,
                                i: nat, assignments: seq<MealEntry>, choices: seq<Choice>, totals: MacroValues) {
    && |choices| <= i
    && FillsInOrder(free, assignments, choices)
    && GreedyChoices(ranked, goals, locked, |free|, choices)
    && totals == Accumulate(locked, choices)
    && (|ranked| == 0 ==> assignments == [])
    && (|ranked| > 0 && |assignments| < i ==> totals.kcal == goals.kcal)
  }

  /** One pass of the greedy loop: the free slot `free[i]` receives the best
      pair for the remaining target, if there is one. */
  method AssignSlot(free: seq<Slot>, ranked: seq<Scored>, goals: MacroValues, locked: MacroValues, i: nat,
                    assignments: seq<MealEntry>, ghost choices: seq<Choice>, totals: MacroValues)
    returns (assignments': seq<MealEntry>, ghost choices': seq<Choice>, totals': MacroValues)
    requires i < |free|
    requires AllocatedUpTo(free, ranked, goals, locked, i, assignments, choices, totals)
    ensures AllocatedUpTo(free, ranked, goals, locked, i + 1, assignments', choices', totals')
  {
    assignments', choices', totals' := assignments, choices, totals;
    var slot := free[i];
    var remaining := |free| - |assignments|;
    var target := RemainingTarget(goals, totals, remaining);
    if |ranked| > 0 && |assignments| < i {
      ZeroTarget(goals, totals, remaining);
    }
    var best := FindBestRecipe(ranked, target);
    if best.Some? {
      var c := best.value;
      assert |assignments| == i;
      AssignedNext(free, ranked, goals, locked, i, assignments, choices, totals, c);
      assignments' := assignments + [MealEntry(slot.day, slot.name, c.recipe.id, c.servings)];
      choices' := choices + [c];
      totals' := Plus(totals, ChoiceMacros(c));
    } else {
      if |ranked| > 0 {
        ZeroQuotient(goals.kcal - totals.kcal, remaining as real);
      }
      SkippedNext(free, ranked, goals, locked, i, assignments, choices, totals);
    }
  }

  /** A slot that receives the greedy choice keeps the invariant. */
  lemma AssignedNext(free: seq<Slot>, ranked: seq<Scored>, goals: MacroValues, locked: MacroValues, i: nat,
                     assignments: seq<MealEntry>, choices: seq<Choice>, totals: MacroValues, c: Choice)
    requires i < |free| && |assignments| == i
    requires AllocatedUpTo(free, ranked, goals, locked, i, assignments, choices, totals)
    requires IsGreedyChoice(ranked, RemainingTarget(goals, totals, |free| - |assignments|), c)
    ensures AllocatedUpTo(free, ranked, goals, locked, i + 1,
                          assignments + [MealEntry(free[i].day, free[i].name, c.recipe.id, c.servings)],
                          choices + [c], Plus(totals, ChoiceMacros(c)))
  {
    AllocateStep(free, ranked, goals, locked, assignments, choices, c);
  }

  /** A slot left empty keeps the invariant when the kcal goal has been met,
      or the catalogue is empty. */
  lemma SkippedNext(free: seq<Slot>, ranked: seq<Scored>, goals: MacroValues, locked: MacroValues, i: nat,
                    assignments: seq<MealEntry>, choices: seq<Choice>, totals: MacroValues)
    requires AllocatedUpTo(free, ranked, goals, locked, i, assignments, choices, totals)
    requires |ranked| > 0 ==> totals.kcal == goals.kcal
    ensures AllocatedUpTo(free, ranked, goals, locked, i + 1, assignments, choices, totals)
  {
  }

  /** The greedy loop over the free slots. Each assignment is the greedy
      choice for the target re-derived from the remaining budget and the
      number of free slots not yet assigned. A slot is left empty only when
      the catalogue is empty or the kcal target is exactly 0 (the kcal goal
      has been met exactly), and then so is every later slot. */
  method Allocate(free: seq<Slot>, ranked: seq<Scored>, goals: MacroValues, locked: MacroValues)
    returns (assignments: seq<MealEntry>, ghost choices: seq<Choice>)
    ensures FillsInOrder(free, assignments, choices)
    ensures GreedyChoices(ranked, goals, locked, |free|, choices)
    ensures |ranked| == 0 ==> assignments == []
    ensures |ranked| > 0 && |assignments| < |free| ==> Accumulate(locked, choices).kcal == goals.kcal
  {
    assignments, choices := [], [];
    var totals := locked;
    PlusZero(locked);
    for i := 0 to |free|
      invariant AllocatedUpTo(free, ranked, goals, locked, i, assignments, choices, totals)
    {
      assignments, choices, totals := AssignSlot(free, ranked, goals, locked, i, assignments, choices, totals);
    }
  }
}
