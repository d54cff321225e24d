/**
 * generateMealPlan end to end: the slot grid, the locked slots, the ranked
 * catalogue, the greedy allocation, and the local "optimisation" pass built
 * on trySwap, which reorders the assignments in place.
 */
module MealPlanGeneration {
  import opened Wrappers
  import opened Seqs
  import opened MealPlanGenerator
  import opened JsMath

  // ------------------------------------------------------------ trySwap

  /** `Math.abs(x - y)` over two values of a recipe's `score` field. A
      missing field reads as undefined and the subtraction gives NaN,
      written here as None. */
  function Deviation(x: Option<real>, y: Option<real>): (d: Option<real>)
    ensures d.Some? <==> x.Some? && y.Some?
    ensures d.Some? ==> d.value >= 0.0 && (d.value == 0.0 <==> x.value == y.value)
  {
    if x.Some? && y.Some? then Some(Abs(x.value - y.value)) else None
  }

  /** JavaScript's `a >= b`: false as soon as one side is NaN. */
  predicate NotBelow(a: Option<real>, b: Option<real>) {
    a.Some? && b.Some? && a.value >= b.value
  }

  /** What trySwap decides for the entries x and y: the swap stays exactly
      when both recipes are in the catalogue and one of them has no score.
      The two deviations it compares are computed from the same two
      recipes, so no score ever makes the new one smaller. */
  predicate SwapKept(x: MealEntry, y: MealEntry, recipes: seq<RecipeMacro>, scoreOf: RecipeMacro -> Option<real>) {
    match (FindRecipe(recipes, x.recipeId), FindRecipe(recipes, y.recipeId))
    case (Some(rx), Some(ry)) => scoreOf(rx).None? || scoreOf(ry).None?
    case _ => false
  }

  /** `scoreOf` reads the `score` field of a catalogue record. */
  method TrySwap(a: array<MealEntry>, i: nat, j: nat, recipes: seq<RecipeMacro>, scoreOf: RecipeMacro -> Option<real>)
    returns (kept: bool)
    requires i < a.Length && j < a.Length
    modifies a
    ensures kept <==> SwapKept(old(a[i]), old(a[j]), recipes, scoreOf)
    ensures kept ==> a[..] == old(a[..])[i := old(a[j])][j := old(a[i])]
    ensures !kept ==> a[..] == old(a[..])
  {
    var recipeI := FindRecipe(recipes, a[i].recipeId);
    var recipeJ := FindRecipe(recipes, a[j].recipeId);
    if recipeI.None? || recipeJ.None? {
      return false;
    }
    var currentDev := Deviation(scoreOf(recipeI.value), scoreOf(recipeJ.value));
    var temp := a[i];
    a[i] := a[j];
    a[j] := temp;
    var newDev := Deviation(scoreOf(recipeI.value), scoreOf(recipeJ.value));
    if NotBelow(newDev, currentDev) {
      a[i], a[j] := a[j], a[i];
      return false;
    }
    return true;
  }

  lemma SwapPreservesMultiset(s: seq<MealEntry>, i: nat, j: nat)
    requires i < |s| && j < |s|
    ensures multiset(s[i := s[j]][j := s[i]]) == multiset(s)
  {
    if i != j {
      calc {
        multiset(s[i := s[j]][j := s[i]]);
        multiset(s[i := s[j]]) - multiset{s[j]} + multiset{s[i]};
        multiset(s) - multiset{s[i]} + multiset{s[j]} - multiset{s[j]} + multiset{s[i]};
      }
    }
  }

  // ------------------------------------------------ local optimisation

  /** Every pair of entries in s would have its swap kept. */
  ghost predicate AllSwapsKept(s: seq<MealEntry>, recipes: seq<RecipeMacro>, scoreOf: RecipeMacro -> Option<real>) {
    forall x, y :: x in s && y in s ==> SwapKept(x, y, recipes, scoreOf)
  }

  /** No pair of entries in s would have its swap kept. */
  ghost predicate NoSwapKept(s: seq<MealEntry>, recipes: seq<RecipeMacro>, scoreOf: RecipeMacro -> Option<real>) {
    forall x, y :: x in s && y in s ==> !SwapKept(x, y, recipes, scoreOf)
  }

  /** s after its first element has been carried forward to position i. */
  function Carried(s: seq<MealEntry>, i: nat): (r: seq<MealEntry>)
    requires i < |s|
    ensures |r| == |s|
  {
    s[1..i + 1] + [s[0]] + s[i + 1..]
  }

  lemma CarriedStep(s: seq<MealEntry>, i: nat)
    requires i + 1 < |s|
    ensures Carried(s, i)[i := Carried(s, i)[i + 1]][i + 1 := Carried(s, i)[i]] == Carried(s, i + 1)
  {
    var c, d := Carried(s, i), Carried(s, i + 1);
    var e := c[i := c[i + 1]][i + 1 := c[i]];
    assert |e| == |d|;
    forall k | 0 <= k < |d|
      ensures e[k] == d[k]
    {
      if k < i {
        assert e[k] == s[k + 1] == d[k];
      } else if k == i {
        assert e[k] == s[i + 1] == d[k];
      } else if k == i + 1 {
        assert e[k] == s[0] == d[k];
      } else {
        assert e[k] == s[k] == d[k];
      }
    }
  }

  /** Swaps that are kept for every pair of the original entries stay kept
      for any arrangement of them. */
  lemma KeptAnywhere(original: seq<MealEntry>, s: seq<MealEntry>, i: nat, j: nat,
                     recipes: seq<RecipeMacro>, scoreOf: RecipeMacro -> Option<real>)
    requires AllSwapsKept(original, recipes, scoreOf)
    requires multiset(s) == multiset(original) && i < |s| && j < |s|
    ensures SwapKept(s[i], s[j], recipes, scoreOf)
  {
    assert s[i] in multiset(original) && s[j] in multiset(original);
  }

  lemma CarriedFirst(s: seq<MealEntry>)
    requires |s| > 0
    ensures Carried(s, 0) == s
  {
    assert s[1..1] == [];
    assert [s[0]] + s[1..] == s;
  }

  lemma CarriedLast(s: seq<MealEntry>)
    requires |s| > 0
    ensures Carried(s, |s| - 1) == s[1..] + [s[0]]
  {
    assert s[|s|..] == [];
  }

  /** The pass after the greedy loop: for each position i it tries the
      later positions j in order and stops at the first swap kept. When
      every swap is kept (the catalogue records carry no score), the first
      entry is carried to the end and the rest move up by one; when none
      is, nothing moves. Either way the same entries remain. */
  method Refine(a: array<MealEntry>, recipes: seq<RecipeMacro>, scoreOf: RecipeMacro -> Option<real>)
    modifies a
    ensures multiset(a[..]) == multiset(old(a[..]))
    ensures a.Length > 0 && AllSwapsKept(old(a[..]), recipes, scoreOf) ==> a[..] == old(a[1..]) + [old(a[0])]
    ensures NoSwapKept(old(a[..]), recipes, scoreOf) ==> a[..] == old(a[..])
  {
    ghost var original := a[..];
    ghost var all := AllSwapsKept(original, recipes, scoreOf);
    ghost var none := NoSwapKept(original, recipes, scoreOf);
    var n := a.Length;
    if all && n > 0 {
      CarriedFirst(original);
    }
    var i := 0;
    while i < n - 1
      invariant 0 <= i && (n > 0 ==> i < n)
      invariant multiset(a[..]) == multiset(original)
      invariant all && n > 0 ==> a[..] == Carried(original, i)
      invariant none ==> a[..] == original
    {
      ghost var before := a[..];
      var j := i + 1;
      while j < n
        invariant i + 1 <= j <= n
        invariant multiset(a[..]) == multiset(original)
        invariant all ==> j == i + 1 && a[..] == before
        invariant none ==> a[..] == original
      {
        ghost var s := a[..];
        if all {
          KeptAnywhere(original, s, i, j, recipes, scoreOf);
        }
        var kept := TrySwap(a, i, j, recipes, scoreOf);
        SwapPreservesMultiset(s, i, j);
        if kept {
          break;
        }
        j := j + 1;
      }
      if all {
        assert a[..] == before[i := before[i + 1]][i + 1 := before[i]];
        CarriedStep(original, i);
      }
      i := i + 1;
    }
    if all && n > 0 {
      assert i == n - 1;
      CarriedLast(original);
    }
  }

  // --------------------------------------------------- generateMealPlan

  /** The catalogue records trySwap looks up have no `score` field. */
  function NoScore(r: RecipeMacro): Option<real> {
    None
  }

  /** The free slots of a plan: the week's grid minus the slots its
      entries already hold. */
  function PlanFreeSlots(plan: MealPlan, entries: seq<MealEntry>): seq<Slot>
    requires plan.mealsPerDay <= |SlotTypes|
  {
    FreeSlots(Grid(plan.mealsPerDay), entries)
  }

  /** The (date, slot) key of an entry. */
  function SlotOf(e: MealEntry): Slot {
    Slot(e.day, e.slot)
  }

  /** No two entries share a (date, slot) key. */
  ghost predicate DistinctSlots(es: seq<MealEntry>) {
    forall i, j :: 0 <= i < j < |es| ==> SlotOf(es[i]) != SlotOf(es[j])
  }

  /** The reordered assignments still put at most one entry in each free
      slot, and every entry in one. */
  lemma CarriedAssignments(free: seq<Slot>, assignments: seq<MealEntry>, choices: seq<Choice>, created: seq<MealEntry>)
    requires NoDuplicates(free) && FillsInOrder(free, assignments, choices)
    requires |assignments| > 0 && created == assignments[1..] + [assignments[0]]
    ensures DistinctSlots(created)
    ensures forall e :: e in created ==> SlotOf(e) in free
  {
    var n := |assignments|;
    assert forall k :: 0 <= k < n ==> SlotOf(created[k]) == free[if k + 1 < n then k + 1 else 0];
  }

  /** Each greedy assignment sits in its free slot, at one of the four
      serving sizes. */
  lemma AssignmentSlots(free: seq<Slot>, assignments: seq<MealEntry>, choices: seq<Choice>,
                        ranked: seq<Scored>, goals: MacroValues, locked: MacroValues)
    requires FillsInOrder(free, assignments, choices)
    requires GreedyChoices(ranked, goals, locked, |free|, choices)
    ensures forall e :: e in assignments ==> SlotOf(e) in free && e.servings in ServingOptions
  {
    forall e | e in assignments
      ensures SlotOf(e) in free && e.servings in ServingOptions
    {
      var k :| 0 <= k < |assignments| && assignments[k] == e;
      GreedyChoiceDomain(ranked, RemainingTarget(goals, Accumulate(locked, choices[..k]), |free| - k), choices[k]);
    }
  }

  /** A free slot is a grid slot that no existing entry holds. */
  lemma FreeNotLocked(slots: seq<Slot>, entries: seq<MealEntry>, s: Slot)
    requires s in FreeSlots(slots, entries)
    ensures s in slots && s !in LockedSlots(entries)
  {
  }

  /** What holds of each entry generateMealPlan creates: it sits in a free
      slot of the week's grid, no two share a slot, its servings are one of
      the four sizes tried and its recipe is in the catalogue. */
  lemma CreatedEntries(m: nat, entries: seq<MealEntry>, recipes: seq<RecipeMacro>, rankGoals: MacroValues,
                       goals: MacroValues, locked: MacroValues,
                       assignments: seq<MealEntry>, choices: seq<Choice>, created: seq<MealEntry>)
    requires m <= |SlotTypes| && rankGoals.kcal != 0.0
    requires FillsInOrder(FreeSlots(Grid(m), entries), assignments, choices)
    requires GreedyChoices(Rank(recipes, rankGoals), goals, locked, |FreeSlots(Grid(m), entries)|, choices)
    requires assignments == [] ==> created == []
    requires assignments != [] ==> created == assignments[1..] + [assignments[0]]
    ensures forall e :: e in created ==>
              && SlotOf(e) in Grid(m) && SlotOf(e) !in LockedSlots(entries)
              && e.servings in ServingOptions && FindRecipe(recipes, e.recipeId).Some?
    ensures DistinctSlots(created)
  {
    var free := FreeSlots(Grid(m), entries);
    if assignments != [] {
      FreeSlotsCount(m, entries);
      CarriedAssignments(free, assignments, choices, created);
      AllocatedRecipesKnown(free, assignments, choices, recipes, rankGoals, goals, locked);
      AssignmentSlots(free, assignments, choices, Rank(recipes, rankGoals), goals, locked);
      forall e | e in created
        ensures SlotOf(e) in Grid(m) && SlotOf(e) !in LockedSlots(entries)
      {
        assert e in assignments;
        FreeNotLocked(Grid(m), entries, SlotOf(e));
      }
    }
  }

  lemma PerSlotKcal(plan: MealPlan)
    requires 1 <= plan.mealsPerDay && plan.goals.kcal != 0.0
    ensures GoalsPerSlot(plan).kcal != 0.0
  {
  }

  /** The assignments copied into an array and refined by trySwap in
      place: when every swap is kept, they come back rotated by one. */
  method RefineAssignments(planned: seq<MealEntry>, recipes: seq<RecipeMacro>) returns (created: seq<MealEntry>)
    requires AllSwapsKept(planned, recipes, NoScore)
    ensures planned == [] ==> created == []
    ensures planned != [] ==> created == planned[1..] + [planned[0]]
  {
    var a := new MealEntry[|planned|](k requires 0 <= k < |planned| => planned[k]);
    assert a[..] == planned;
    Refine(a, recipes, NoScore);
    created := a[..];
  }

  /** generateMealPlan for a stored plan with its entries, against the
      whole catalogue. It returns the entries it creates, in creation
      order, together with (as ghosts) the greedy loop's assignments and
      choices that explain them. */
  method GenerateMealPlan(plan: MealPlan, entries: seq<MealEntry>, recipes: seq<RecipeMacro>)
    returns (created: seq<MealEntry>, ghost assignments: seq<MealEntry>, ghost choices: seq<Choice>)
    requires 1 <= plan.mealsPerDay <= |SlotTypes|
    requires plan.goals.kcal != 0.0
    ensures GoalsPerSlot(plan).kcal != 0.0
    ensures FillsInOrder(PlanFreeSlots(plan, entries), assignments, choices)
    ensures GreedyChoices(Rank(recipes, GoalsPerSlot(plan)), plan.goals, EntryTotals(entries, recipes),
                          |PlanFreeSlots(plan, entries)|, choices)
    ensures assignments == [] ==> created == []
    ensures assignments != [] ==> created == assignments[1..] + [assignments[0]]
    ensures recipes == [] ==> created == []
    ensures forall e :: e in created ==>
              && SlotOf(e) in Grid(plan.mealsPerDay) && SlotOf(e) !in LockedSlots(entries)
              && e.servings in ServingOptions && FindRecipe(recipes, e.recipeId).Some?
    ensures DistinctSlots(created)
    ensures recipes != [] && |assignments| < |PlanFreeSlots(plan, entries)| ==>
              Accumulate(EntryTotals(entries, recipes), choices).kcal == plan.goals.kcal
  {
    var m := plan.mealsPerDay;
    PerSlotKcal(plan);
    var goalsPerSlot := GoalsPerSlot(plan);
    var slots := EnumerateSlots(m);
    var free := FreeSlots(slots, entries);
    var ranked := Rank(recipes, goalsPerSlot);
    var totals := LockedTotals(entries, recipes);
    var planned;
    planned, choices := Allocate(free, ranked, plan.goals, totals);
    assignments := planned;
    AllocatedRecipesKnown(free, assignments, choices, recipes, goalsPerSlot, plan.goals, totals);
    created := RefineAssignments(planned, recipes);
    CreatedEntries(m, entries, recipes, goalsPerSlot, plan.goals, totals, planned, choices, created);
  }

  /** A greedy choice over the ranked catalogue is a catalogue recipe. */
  lemma ChoiceInCatalogue(recipes: seq<RecipeMacro>, rankGoals: MacroValues, target: MacroValues, c: Choice)
    requires rankGoals.kcal != 0.0
    requires IsGreedyChoice(Rank(recipes, rankGoals), target, c)
    ensures FindRecipe(recipes, c.recipe.id).Some?
  {
    var ranked := Rank(recipes, rankGoals);
    GreedyChoiceDomain(ranked, target, c);
    var k :| 0 <= k < |ranked| && k < CandidateLimit && ranked[k].recipe == c.recipe;
    assert ranked[k] in ScoreAll(recipes, rankGoals);
    var q :| 0 <= q < |recipes| && ScoreAll(recipes, rankGoals)[q] == ranked[k];
    FindRecipeSpec(recipes, c.recipe.id);
    assert recipes[q].id == c.recipe.id;
  }

  /** Every recipe the greedy loop picks comes from the catalogue, so
      trySwap finds both recipes of every pair it looks at. */
  lemma AllocatedRecipesKnown(free: seq<Slot>, assignments: seq<MealEntry>, choices: seq<Choice>,
                              recipes: seq<RecipeMacro>, rankGoals: MacroValues, goals: MacroValues, locked: MacroValues)
    requires rankGoals.kcal != 0.0
    requires FillsInOrder(free, assignments, choices)
    requires GreedyChoices(Rank(recipes, rankGoals), goals, locked, |free|, choices)
    ensures forall e :: e in assignments ==> FindRecipe(recipes, e.recipeId).Some?
    ensures AllSwapsKept(assignments, recipes, NoScore)
  {
    forall e | e in assignments
      ensures FindRecipe(recipes, e.recipeId).Some?
    {
      var k :| 0 <= k < |assignments| && assignments[k] == e;
      ChoiceInCatalogue(recipes, rankGoals, RemainingTarget(goals, Accumulate(locked, choices[..k]), |free| - k), choices[k]);
    }
  }

  // ------------------------------------------------------------ per day

  /** How many entries fall on day `d`: the per-day tally of the tests. */
  function DayCount(es: seq<MealEntry>, d: int): nat {
    if es == [] then 0 else (if es[0].day == d then 1 else 0) + DayCount(es[1..], d)
  }

  lemma {:induction false} DayCountAppend(a: seq<MealEntry>, b: seq<MealEntry>, d: int)
    ensures DayCount(a + b, d) == DayCount(a, d) + DayCount(b, d)
  {
    if a == [] {
      assert a + b == b;
    } else {
      DayCountAppend(a[1..], b, d);
      assert (a + b)[1..] == a[1..] + b;
    }
  }

  /** Moving the first entry to the end changes no day's tally. */
  lemma DayCountRotate(a: seq<MealEntry>, d: int)
    requires a != []
    ensures DayCount(a[1..] + [a[0]], d) == DayCount(a, d)
  {
    DayCountAppend(a[1..], [a[0]], d);
  }

  /** Entries laid over slots one for one fall on the days of their slots. */
  lemma {:induction false} DayCountMatchesSlots(free: seq<Slot>, es: seq<MealEntry>, d: int)
    requires |es| == |free|
    requires forall k :: 0 <= k < |es| ==> es[k].day == free[k].day
    ensures DayCount(es, d) == |SlotsOn(free, d)|
  {
    if free != [] {
      DayCountMatchesSlots(free[1..], es[1..], d);
    }
  }

  /** With no existing entries every slot of the grid is free. */
  lemma FreeSlotsNoEntries(slots: seq<Slot>)
    ensures FreeSlots(slots, []) == slots
  {
    var locked := LockedSlots([]);
    assert locked == {};
    FilterAll(slots, s => s !in locked);
  }

  /** The "respects mealsPerDay" scenario: an empty plan with 4 meals per
      day. A slot is skipped only once the running kcal total sits exactly on
      the weekly goal: the remaining per-slot kcal target is then 0 and no
      recipe is chosen, for that slot and every later one. So unless a total
      of the first 1 to 27 choices equals the goal, the run creates 28
      entries, 4 on each of the 7 days and none elsewhere. */
  method FourMealsScenario(plan: MealPlan, recipes: seq<RecipeMacro>)
    returns (created: seq<MealEntry>, ghost choices: seq<Choice>)
    requires plan.mealsPerDay == 4 && plan.goals.kcal != 0.0
    ensures recipes == [] ==> created == []
    ensures |created| <= DaysPerWeek * 4
    ensures recipes != [] &&
            (forall k :: 1 <= k <= |choices| && k < DaysPerWeek * 4 ==>
               Accumulate(Zero, choices[..k]).kcal != plan.goals.kcal) ==>
              && |created| == DaysPerWeek * 4
              && forall d :: DayCount(created, d) == if 0 <= d < DaysPerWeek then 4 else 0
  {
    ghost var assignments;
    created, assignments, choices := GenerateMealPlan(plan, [], recipes);
    FreeSlotsNoEntries(Grid(4));
    GridShape(4);
    assert EntryTotals([], recipes) == Zero;
    if recipes != [] &&
       (forall k :: 1 <= k <= |choices| && k < DaysPerWeek * 4 ==>
          Accumulate(Zero, choices[..k]).kcal != plan.goals.kcal)
    {
      NoGoalHitFillsAll(choices, plan.goals.kcal, |Grid(4)|);
      FullWeek(assignments, choices);
    }
  }

  /** A run that stops short of n slots ends with its total on the goal,
      so if no running total of fewer than n choices is on the goal, the run
      fills all n slots. */
  lemma NoGoalHitFillsAll(choices: seq<Choice>, goal: real, n: nat)
    requires goal != 0.0 && |choices| <= n
    requires |choices| < n ==> Accumulate(Zero, choices).kcal == goal
    requires forall k :: 1 <= k <= |choices| && k < n ==> Accumulate(Zero, choices[..k]).kcal != goal
    ensures |choices| == n
  {
    var total := Accumulate(Zero, choices).kcal;
    assert choices == [] ==> total == 0.0;
    assert |choices| >= 1 ==> Accumulate(Zero, choices[..|choices|]).kcal == total by {
      assert choices[..|choices|] == choices;
    }
  }

  /** A full allocation of the 4-meal grid, rotated by trySwap, has 4 entries
      on each day of the week. */
  lemma FullWeek(assignments: seq<MealEntry>, choices: seq<Choice>)
    requires FillsInOrder(Grid(4), assignments, choices)
    requires |assignments| == |Grid(4)|
    ensures assignments != []
    ensures forall d :: DayCount(assignments[1..] + [assignments[0]], d) == if 0 <= d < DaysPerWeek then 4 else 0
  {
    GridShape(4);
    forall d
      ensures DayCount(assignments[1..] + [assignments[0]], d) == if 0 <= d < DaysPerWeek then 4 else 0
    {
      DayCountRotate(assignments, d);
      DayCountMatchesSlots(Grid(4), assignments, d);
      GridPrefixPerDay(DaysPerWeek, 4, d);
    }
  }

  // ------------------------------------------------- locked entries kept

  /** The "does not overwrite locked entries" scenario as the service is
      written: a 3-meal plan whose breakfast on day 0 is locked. The service
      returns only the entries it created, and none of them is in a locked
      slot, so the list holds no day-0 breakfast and the locked entry is not
      in it. */
  method LockedBreakfastNotReturned(plan: MealPlan, id: string, recipes: seq<RecipeMacro>)
    returns (created: seq<MealEntry>)
    requires plan.mealsPerDay == 3 && plan.goals.kcal != 0.0
    ensures MealEntry(0, "breakfast", id, 1.0) !in created
    ensures forall e :: e in created ==> !(e.day == 0 && e.slot == "breakfast")
  {
    var locked := MealEntry(0, "breakfast", id, 1.0);
    ghost var assignments, choices;
    created, assignments, choices := GenerateMealPlan(plan, [locked], recipes);
    assert Slot(0, "breakfast") in LockedSlots([locked]);
  }

  /** The plan's entries after generation: the existing entries, untouched,
      followed by the created ones. The created ones fill only free grid
      slots, so no slot of an existing entry gains a second entry. */
  method GeneratePlanEntries(plan: MealPlan, entries: seq<MealEntry>, recipes: seq<RecipeMacro>)
    returns (planEntries: seq<MealEntry>)
    requires 1 <= plan.mealsPerDay <= |SlotTypes|
    requires plan.goals.kcal != 0.0
    ensures entries <= planEntries
    ensures forall e :: e in planEntries[|entries|..] ==>
              SlotOf(e) in Grid(plan.mealsPerDay) && SlotOf(e) !in LockedSlots(entries)
    ensures DistinctSlots(planEntries[|entries|..])
    ensures forall e, l :: e in planEntries && l in entries && SlotOf(e) == SlotOf(l) ==> e in entries
  {
    var created;
    ghost var assignments, choices;
    created, assignments, choices := GenerateMealPlan(plan, entries, recipes);
    planEntries := entries + created;
    assert planEntries[|entries|..] == created;
    forall e, l | e in planEntries && l in entries && SlotOf(e) == SlotOf(l)
      ensures e in entries
    {
      assert SlotOf(l) in LockedSlots(entries);
    }
  }

  /** The same scenario against the corrected result: the locked day-0
      breakfast is in the list, and it is the only entry in that slot. */
  method LockedBreakfastKept(plan: MealPlan, id: string, recipes: seq<RecipeMacro>)
    returns (planEntries: seq<MealEntry>)
    requires plan.mealsPerDay == 3 && plan.goals.kcal != 0.0
    ensures MealEntry(0, "breakfast", id, 1.0) in planEntries
    ensures forall e :: e in planEntries && e.day == 0 && e.slot == "breakfast" ==>
              e == MealEntry(0, "breakfast", id, 1.0)
  {
    var locked := MealEntry(0, "breakfast", id, 1.0);
    planEntries := GeneratePlanEntries(plan, [locked], recipes);
    assert planEntries[0] == locked;
    forall e | e in planEntries && e.day == 0 && e.slot == "breakfast"
      ensures e == locked
    {
      assert SlotOf(e) == SlotOf(locked);
    }
  }

}
