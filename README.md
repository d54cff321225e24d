# Meal planner core, modelled in Dafny

The meal planner is a recipe catalogue with weekly meal plans. This project models its in-memory logic:

- **Generator.** It fills a week of meal slots (7 days × `mealsPerDay` slot names) with recipes from the catalogue:
  - it drops the slots already taken by locked entries;
  - it adds up the macros of those locked entries;
  - it ranks every recipe by a weighted relative-deviation distance to the per-slot goal;
  - for each free slot, it greedily picks the best (recipe, servings) pair among the top 20 recipes and 4 serving sizes, aiming at what is left of the weekly budget;
  - it runs one pass of pairwise swaps over the assignments.
- **Request validation.** The zod schemas for meal plans, meal entries, recipes and the recipe-list query, written as issue lists and validity predicates.
- **Recipe list endpoint.** The number sanitisers, the sanitised recipe payload, the tag matcher, the `where` clause for categories, the in-memory filter chain and the pagination arithmetic.
- **Shopping list.** Every ingredient of every planned recipe, scaled by the servings and merged by a key made of the lower-cased, trimmed name and unit. Each total is rounded once at the end.
- **Filter sidebar.** It parses the comma-separated tag and category selections, toggles one name at a time and clears all filters.
- **Taxonomy routes.** `/tags` returns every tag in use, once each, sorted. `/categories` returns the categories, sorted.

The files are:

| file | contents |
|---|---|
| `wrappers.dfy` | `Option` and `Result` |
| `seqs.dfy` | order-keeping filter, map, subsequence and no-duplicates facts |
| `text.dfy` | ASCII lower-casing, trimming of ECMAScript white space, substring search, split and join |
| `js_math.dfy` | `Math.trunc`, `Math.round`, `Math.abs` |
| `meal_plan_generator.dfy` | slot grid, free slots, locked totals, distance, ranking, `findBestRecipe`, greedy allocation |
| `meal_plan_generation.dfy` | `trySwap` on an array, the refinement loop, and `generateMealPlan` put together |
| `schema_rules.dfy` | the zod rules these schemas use (`int`, `positive`, `nonnegative`, `min`, `max`, `multipleOf`, `uuid`, dates) |
| `meal_plan_validation.dfy` | the meal plan create and update schemas, and the meal entry schema |
| `recipe_validation.dfy` | the ingredient, recipe create and update schemas, and the query schema |
| `recipes_controller.dfy` | `toInt`, `toDecimal`, `sanitizeRecipePayload`, `filterByTags`, `getRecipes` |
| `shopping_list.dfy` | `getShoppingList` |
| `recipe_filters.dfy` | the filter sidebar and the list page's change handler |
| `taxonomy.dfy` | `/tags` and `/categories` |

The model is imperative where the source works by mutation:

- slot enumeration, locked totals, `findBestRecipe` and the greedy loop are methods with loops;
- `trySwap` and the refinement loop work on an `array`;
- `sanitizeRecipePayload` and the `getRecipes` filter chain are methods;
- the shopping-list map is filled by nested loops;
- the `/tags` Set is filled by nested loops.

Each such method is proved against a specification function, and the properties are proved about that function.

### Where the code does not do what its comments say

The distance is introduced as a "normalized Euclidean distance" (`mealPlanGenerator.ts:175`), and `trySwap` is meant to swap "if it brings us closer to goals" (`mealPlanGenerator.ts:230`). The model follows the code in both places.

- **kcal denominator.** The kcal term of the distance divides by the kcal target without guarding against zero (`mealPlanGenerator.ts:176`). The other three axes use `|| 1`.
  - `Distance` requires a non-zero kcal target.
  - `Score` returns `None` for a zero target, standing for JavaScript's Infinity/NaN.
  - With a zero target no score is below the initial `Infinity`, so `findBestRecipe` returns null. `FindBestRecipe` is therefore `None` exactly when the candidates are empty or the kcal target is 0.
  - The greedy loop then skips that slot. Totals and the assignment count stay the same, so every later slot is skipped too. `Allocate`'s last ensures states this: when fewer slots are filled than are free, the running kcal total has reached the weekly goal exactly.
- **Swap pass.** `trySwap` looks its recipes up in the list without scores (`mealPlanGenerator.ts:146`, `12-19`), so both deviations are NaN. `newDev >= currentDev` is then false, and every swap whose two recipes are found is kept.
  - The model takes the score lookup as a parameter. `SwapKept` holds exactly when both recipes are found and a score is missing.
  - `GenerateMealPlan` passes the scoreless lookup. It proves that the created entries are the assignments rotated by one: each `break` keeps one swap per `i`, which carries the first assignment to the end.
  - A swap exchanges whole assignment records, date and slot included. The created entries are therefore the same records as before the pass; only the order in which they are created changes.

## Model

| member | source | states |
|---|---|---|
| MealPlanGenerator.Scale | app/api/src/services/mealPlanGenerator.ts:196-202 | the adjusted candidate keeps id and title; each macro is multiplied by the servings |
| MealPlanGenerator.OrOne | app/api/src/services/mealPlanGenerator.ts:177-179 | `g \|\| 1`: never zero; only a target of exactly 0 becomes 1, anything else is kept |
| MealPlanGenerator.Score | app/api/src/services/mealPlanGenerator.ts:174-182 | the distance is defined (not Infinity/NaN) exactly when the kcal target is non-zero |
| MealPlanGenerator.DistanceAtTarget | app/api/src/services/mealPlanGenerator.ts:174-182 | a candidate equal to the target is at distance 0 |
| MealPlanGenerator.DistanceZeroIff | app/api/src/services/mealPlanGenerator.ts:174-182 | with a positive kcal target and non-negative other targets, the distance is ≥ 0, and 0 exactly when the candidate equals the target |
| MealPlanGenerator.NegativeKcalTargetPrefersFarther | app/api/src/services/mealPlanGenerator.ts:176 | the unguarded kcal division with a negative target scores a candidate farther from the target as better |
| MealPlanGenerator.EnumerateSlots | app/api/src/services/mealPlanGenerator.ts:63-75 | the nested loops build exactly the day-major grid `Grid(mealsPerDay)` |
| MealPlanGenerator.GridShape | app/api/src/services/mealPlanGenerator.ts:66-75 | the grid has 7 × mealsPerDay slots; slot d·m+i is day d with name slotTypes[i] |
| MealPlanGenerator.GridMembers | app/api/src/services/mealPlanGenerator.ts:66-75 | a slot is in the grid iff its day is in 0..6 and its name is one of the first mealsPerDay slot types |
| MealPlanGenerator.GridDistinct | app/api/src/services/mealPlanGenerator.ts:66-75 | no slot appears twice in the grid |
| MealPlanGenerator.SlotsPerDay | app/api/src/services/mealPlanGenerator.ts:68-75 | each day of the week has exactly mealsPerDay slots |
| MealPlanGenerator.FreeSlots | app/api/src/services/mealPlanGenerator.ts:77-83 | a slot is free iff it is in the grid and no existing entry has its day and name |
| MealPlanGenerator.FreeSlotsAppend | app/api/src/services/mealPlanGenerator.ts:81-83 | the free-slot filter keeps order: filtering a concatenation concatenates the filtered parts |
| MealPlanGenerator.FreeSlotsCount | app/api/src/services/mealPlanGenerator.ts:77-83 | the free slots have no duplicates, and their number is the grid size minus the number of locked grid slots |
| MealPlanGenerator.ThreeMealsScenario | app/api/src/services/mealPlanGenerator.ts:64-83 | with 3 meals and no entries there are 21 free slots; a locked breakfast leaves 20 |
| MealPlanGenerator.FindRecipeSpec | app/api/src/services/mealPlanGenerator.ts:106 | `find` returns nothing iff no recipe has the id, else the first recipe with it |
| MealPlanGenerator.LockedTotals | app/api/src/services/mealPlanGenerator.ts:97-114 | the loop from zero totals computes `EntryTotals`, the sum of recipe macros × servings over the entries |
| MealPlanGenerator.UnknownRecipesContributeNothing | app/api/src/services/mealPlanGenerator.ts:105-113 | entries whose recipe is not in the catalogue do not change the totals |
| MealPlanGenerator.EntryTotalsAppend | app/api/src/services/mealPlanGenerator.ts:105-113 | the totals of two lists of entries add up |
| MealPlanGenerator.EntryTotalsSnoc | app/api/src/services/mealPlanGenerator.ts:108-112 | one more entry adds exactly its recipe's macros × servings |
| MealPlanGenerator.ScoreAll | app/api/src/services/mealPlanGenerator.ts:86-89 | each recipe is paired with its distance to the per-slot goal, in catalogue order |
| MealPlanGenerator.InsertByScore | app/api/src/services/mealPlanGenerator.ts:92 | insertion adds exactly the one element |
| MealPlanGenerator.InsertByScoreSorted | app/api/src/services/mealPlanGenerator.ts:92 | inserting into a list sorted by score keeps it sorted |
| MealPlanGenerator.SortByScore | app/api/src/services/mealPlanGenerator.ts:92 | the result is sorted by ascending score and a permutation of the input |
| MealPlanGenerator.InsertByScoreTies | app/api/src/services/mealPlanGenerator.ts:92 | inserting goes past lower scores only, so among equal scores the inserted element comes first |
| MealPlanGenerator.SortByScoreStable | app/api/src/services/mealPlanGenerator.ts:92 | the sort is stable: the elements of any one score keep their input order, as Array.prototype.sort guarantees |
| MealPlanGenerator.Rank | app/api/src/services/mealPlanGenerator.ts:85-92 | the ranking is sorted and a permutation of the scored recipes (same multiset, one element per recipe) |
| MealPlanGenerator.RankStable | app/api/src/services/mealPlanGenerator.ts:85-92 | recipes at the same distance keep catalogue order in the ranking, which decides the top 20 and the winner of a tie |
| MealPlanGenerator.Candidates | app/api/src/services/mealPlanGenerator.ts:194 | `slice(0, 20)`: the first min(20, n) ranked recipes |
| MealPlanGenerator.GreedyChoiceDomain | app/api/src/services/mealPlanGenerator.ts:184-214 | a chosen pair has servings in {0.5, 1, 1.5, 2} and a recipe among the first 20 ranked |
| MealPlanGenerator.FindBestRecipe | app/api/src/services/mealPlanGenerator.ts:184-214 | null iff there are no candidates or the kcal target is 0; otherwise it returns a pair of minimum distance over the top-20 × 4 grid, with ties going to the earlier recipe, then to the smaller serving |
| MealPlanGenerator.ScanServings | app/api/src/services/mealPlanGenerator.ts:195-210 | after the four serving sizes of candidate k, the best pair so far is the first of the lowest-scoring pairs visited, candidate-major, and there is none only when the kcal target is 0 |
| MealPlanGenerator.ChoicesTotalSnoc | app/api/src/services/mealPlanGenerator.ts:136-139 | each assignment adds exactly recipe macros × servingsCount to the running totals |
| MealPlanGenerator.FillsInOrderAppend | app/api/src/services/mealPlanGenerator.ts:128-134 | an assignment for the next free slot keeps the assignments aligned with the free slots in order |
| MealPlanGenerator.GreedyChoicesAppend | app/api/src/services/mealPlanGenerator.ts:117-126 | a best choice for the remaining target, (goal − totals)/(free − assigned), extends the greedy sequence |
| MealPlanGenerator.AssignSlot | app/api/src/services/mealPlanGenerator.ts:117-140 | one pass over a free slot keeps the loop invariant: assignments aligned with the free slots in order, each choice best for its remaining target, the totals the locked totals plus the choices, and a skipped slot only once the kcal goal is met |
| MealPlanGenerator.Allocate | app/api/src/services/mealPlanGenerator.ts:116-141 | the k-th assignment fills the k-th free slot; every choice is the best for its remaining target (the divisor is always ≥ 1); an empty catalogue gives no assignments; stopping short means the kcal total has reached the goal |
| MealPlanGeneration.Deviation | app/api/src/services/mealPlanGenerator.ts:231-235 | `Math.abs` of a difference of scores: defined iff both scores are, never negative, and zero iff they are equal |
| MealPlanGeneration.TrySwap | app/api/src/services/mealPlanGenerator.ts:216-244 | returns true iff the swap is kept; then exactly cells i and j are exchanged, otherwise the array is unchanged |
| MealPlanGeneration.SwapPreservesMultiset | app/api/src/services/mealPlanGenerator.ts:232-234 | exchanging two cells is a permutation |
| MealPlanGeneration.CarriedFirst | app/api/src/services/mealPlanGenerator.ts:143-151 | before the pass, the carried arrangement is the input |
| MealPlanGeneration.CarriedLast | app/api/src/services/mealPlanGenerator.ts:143-151 | after one kept swap per `i`, the first assignment has been carried to the end |
| MealPlanGeneration.Refine | app/api/src/services/mealPlanGenerator.ts:143-151 | the pass permutes the assignments; when every swap is kept, the result is the input rotated by one; when none is kept, nothing changes |
| MealPlanGeneration.RefineAssignments | app/api/src/services/mealPlanGenerator.ts:143-151 | when every swap is kept, the assignments come back rotated by one; no assignments stay none |
| MealPlanGeneration.PerSlotKcal | app/api/src/services/mealPlanGenerator.ts:56-61 | a non-zero weekly kcal goal gives a non-zero per-slot kcal goal |
| MealPlanGeneration.CarriedAssignments | app/api/src/services/mealPlanGenerator.ts:116-151 | the rotated assignments still target distinct free slots |
| MealPlanGeneration.CreatedEntries | app/api/src/services/mealPlanGenerator.ts:116-151 | every created entry targets a grid slot that no existing entry holds, uses a valid serving size, and no two created entries share a slot |
| MealPlanGeneration.ChoiceInCatalogue | app/api/src/services/mealPlanGenerator.ts:184-214 | the chosen recipe is found in the catalogue by its id |
| MealPlanGeneration.AllocatedRecipesKnown | app/api/src/services/mealPlanGenerator.ts:225-228 | every assigned recipe is found by `trySwap`, so with no scores every swap is kept |
| MealPlanGeneration.GenerateMealPlan | app/api/src/services/mealPlanGenerator.ts:26-172 | the whole generator: the greedy allocation over the plan's free slots, ranked once against goal/totalSlots, starting from the locked totals; the created entries are the assignments after the swap pass, target free grid slots once each, and are empty for an empty catalogue |
| MealPlanGeneration.DayCountMatchesSlots | app/api/src/services/mealPlanGenerator.test.ts:71-80 | entries laid one for one over slots fall on each day as often as the slots do |
| MealPlanGeneration.FreeSlotsNoEntries | app/api/src/services/mealPlanGenerator.ts:77-83 | with no existing entries every grid slot is free |
| MealPlanGeneration.FourMealsScenario | app/api/src/services/mealPlanGenerator.test.ts:49-80 | an empty 4-meal plan never gets more than 28 entries. Unless the running kcal total of the first 1 to 27 choices equals the weekly goal exactly (each later slot is then skipped), it gets 28: 4 on each day of the week and none elsewhere |
| MealPlanGeneration.NoGoalHitFillsAll | app/api/src/services/mealPlanGenerator.ts:117-140 | a run stops short of the free slots only with its total on the goal, so if no earlier running total is on the goal every slot is filled |
| MealPlanGeneration.LockedBreakfastNotReturned | app/api/src/services/mealPlanGenerator.test.ts:86-128 | as written: with the day-0 breakfast locked, the returned list holds no day-0 breakfast, so the locked entry the test looks for is not in it |
| MealPlanGeneration.GeneratePlanEntries | app/api/src/services/mealPlanGenerator.ts:154-171 | corrected result: the existing entries unchanged, then the created ones, which fill free grid slots only, once each |
| MealPlanGeneration.LockedBreakfastKept | app/api/src/services/mealPlanGenerator.test.ts:86-128 | against the corrected result the locked day-0 breakfast is returned and is the only entry in that slot |
| MealPlanValidation.CreateAcceptsExactly | app/api/src/validations/mealPlanValidation.ts:3-10 | the create schema reports no issue iff goalsKcal is a positive integer, protein, fat and carbs are ≥ 0, and mealsPerDay is an integer in [3, 6] |
| MealPlanValidation.ParseMealPlanCreate | app/api/src/validations/mealPlanValidation.ts:3-10 | parsing succeeds iff the plan is acceptable; otherwise it returns the non-empty issue list; a parsed plan has goalsKcal > 0 and 3 ≤ mealsPerDay ≤ 6 |
| MealPlanValidation.AcceptedPlanFitsGenerator | app/api/src/validations/mealPlanValidation.ts:5-9 | an accepted plan satisfies the generator's preconditions (mealsPerDay within the slot types, kcal goal non-zero) |
| MealPlanValidation.UpdateIssuesAreCreateIssues | app/api/src/validations/mealPlanValidation.ts:12 | every update issue is a create issue, so a valid create body is a valid update |
| MealPlanValidation.UpdateOfCompleteBody | app/api/src/validations/mealPlanValidation.ts:12 | with every field present, update and create report the same issues |
| MealPlanValidation.EmptyUpdateAccepted | app/api/src/validations/mealPlanValidation.ts:12 | the empty object is a valid update |
| MealPlanValidation.SlotIssues | app/api/src/validations/mealPlanValidation.ts:16 | a slot passes iff it is one of the six slot names |
| MealPlanValidation.RecipeIdIssues | app/api/src/validations/mealPlanValidation.ts:17 | a recipe id passes iff it is a UUID |
| MealPlanValidation.ServingsRule | app/api/src/validations/mealPlanValidation.ts:18 | servingsCount passes iff it is positive and a multiple of 0.5 |
| MealPlanValidation.EntryAcceptsExactly | app/api/src/validations/mealPlanValidation.ts:14-19 | the entry schema reports no issue iff the date is valid, the slot is one of the six names, the recipe id is a UUID, and servingsCount is a positive multiple of 0.5 |
| MealPlanValidation.ServingOptionsAccepted | app/api/src/validations/mealPlanValidation.ts:18 | each serving size the generator tries (0.5, 1, 1.5, 2) is a positive multiple of 0.5 |
| MealPlanValidation.GeneratedEntryAccepted | app/api/src/validations/mealPlanValidation.ts:14-19 | an entry the generator creates (slot type, serving option, UUID recipe) passes the entry schema |
| SchemaRules.NumberIssues | app/api/src/validations/recipeValidation.ts:18-23 | no issue iff every numeric rule passes; one issue per failing rule, at the field's path |
| SchemaRules.LengthIssues | app/api/src/validations/recipeValidation.ts:11-12 | no issue iff every length rule passes; all issues at the field's path |
| SchemaRules.NumberField | app/api/src/validations/mealPlanValidation.ts:5-9 | a missing number passes only in a partial schema; a present one passes iff every rule does |
| SchemaRules.StringField | app/api/src/validations/recipeValidation.ts:11-12 | a missing string passes only in a partial schema; a present one passes iff its length passes every rule |
| SchemaRules.DateField | app/api/src/validations/mealPlanValidation.ts:4 | a coerced date passes iff it is a valid date (or missing in a partial schema) |
| SchemaRules.ElementIssues | app/api/src/validations/recipeValidation.ts:13-14 | an array passes its element schema iff every element from index k on passes |
| RecipeValidation.IngredientIssues | app/api/src/validations/recipeValidation.ts:3-8 | an ingredient passes iff its name and unit are non-empty and its quantity is positive |
| RecipeValidation.IngredientsField | app/api/src/validations/recipeValidation.ts:13 | the ingredients pass iff the list is present (or the schema partial), non-empty, and every ingredient passes |
| RecipeValidation.StepIssues | app/api/src/validations/recipeValidation.ts:14 | a step passes iff it is non-empty |
| RecipeValidation.StepsField | app/api/src/validations/recipeValidation.ts:14 | the steps pass iff the list is present (or the schema partial), non-empty, and every step is non-empty |
| RecipeValidation.CreateAcceptsExactly | app/api/src/validations/recipeValidation.ts:10-24 | the create schema reports no issue iff every field rule holds |
| RecipeValidation.ParseRecipeCreate | app/api/src/validations/recipeValidation.ts:10-24 | parsing succeeds iff the recipe is acceptable, else it returns the issues; missing tags default to [] |
| RecipeValidation.ValidRecipe | app/api/src/validations/recipeValidation.test.ts:6-26 | the complete recipe of the create-schema test is acceptable |
| RecipeValidation.Sample | app/api/src/validations/recipeValidation.test.ts:75-88 | the negative-nutrition fixture with kcal set to 100 is acceptable, so each lemma below changes one field of an acceptable body |
| RecipeValidation.EmptyTitleFirst | app/api/src/validations/recipeValidation.test.ts:28-49 | an empty title is rejected, first at path ['title'] |
| RecipeValidation.NoIngredientsFirst | app/api/src/validations/recipeValidation.test.ts:51-72 | with a valid title and description, an empty ingredient list is rejected, first at path ['ingredients'] |
| RecipeValidation.NegativeKcalFirst | app/api/src/validations/recipeValidation.test.ts:74-95 | a negative kcalPerServing on an otherwise valid recipe is rejected, first at path ['kcalPerServing'] |
| RecipeValidation.UpdateIssuesAreCreateIssues | app/api/src/validations/recipeValidation.ts:26 | every update issue is a create issue |
| RecipeValidation.PartialUpdatesAccepted | app/api/src/validations/recipeValidation.test.ts:99-114 | `{}` and `{title, cookTimeMin}` are valid updates |
| RecipeValidation.CoercedField | app/api/src/validations/recipeValidation.ts:33-40 | a coerced query number passes iff it is missing, or a number meeting every rule |
| RecipeValidation.ParseQuery | app/api/src/validations/recipeValidation.ts:28-43 | the query parses iff no field has an issue; a parsed query has page ≥ 1 and 1 ≤ limit ≤ 100 (defaults 1 and 20) |
| RecipeValidation.QueryRejectsBadPaging | app/api/src/validations/recipeValidation.ts:41-42 | a page that is not a positive integer, or a limit outside the positive integers up to 100, is rejected |
| RecipesController.ToInt | app/api/src/controllers/recipesController.ts:6-11 | null for null, undefined or NaN; otherwise an integer less than 1 from the input and no larger in magnitude (truncation) |
| RecipesController.ToIntWhole | app/api/src/controllers/recipesController.ts:6-11 | a whole number is returned unchanged |
| RecipesController.ToDecimal | app/api/src/controllers/recipesController.ts:13-19 | null for non-numbers; otherwise a multiple of 0.01 within half a hundredth of the input |
| RecipesController.ToDecimalIdempotent | app/api/src/controllers/recipesController.ts:13-19 | rounding an already rounded value changes nothing |
| RecipesController.Sanitize | app/api/src/controllers/recipesController.ts:21-44 | servings and cookTimeMin are truncated or default to 1, and kcal to 0; the macros are rounded to hundredths; ingredient quantities are rounded, defaulting to 0; non-array tags become []; every other field is copied |
| RecipesController.ValidCountsSurvive | app/api/src/controllers/recipesController.ts:21-25 | the integer fields of a validated recipe pass through the sanitiser unchanged |
| RecipesController.PartialUpdateResets | app/api/src/controllers/recipesController.ts:200-216 | as written: an update body with only a title and a cook time resets the stored servings to 1, kcal to 0, the macros to null and the tags to [] |
| RecipesController.SanitizeUpdate | app/api/src/controllers/recipesController.ts:21-44 | corrected sanitising for updates: a key the body leaves undefined is not written; a present key is converted as sanitizeRecipePayload converts it |
| RecipesController.CompleteBodyWritesAgree | app/api/src/controllers/recipesController.ts:21-44 | on a body with every key, the corrected sanitising writes exactly what the original writes |
| RecipesController.PartialUpdateKeeps | app/api/src/controllers/recipesController.ts:200-216 | with the corrected sanitising, the title-and-cook-time update changes the cook time and no other of these columns |
| RecipesController.SearchTokens | app/api/src/controllers/recipesController.ts:50 | splitting always gives at least one token |
| RecipesController.TagMatches | app/api/src/controllers/recipesController.ts:51 | a token matches iff some lower-cased tag contains it |
| RecipesController.MatchesSomeToken | app/api/src/controllers/recipesController.ts:51 | true iff some token matches some tag |
| RecipesController.UntaggedNeverMatches | app/api/src/controllers/recipesController.ts:49-52 | a recipe without tags never passes the tag filter |
| RecipesController.EmptyTokenMatches | app/api/src/controllers/recipesController.ts:51 | an empty token matches every tagged recipe |
| RecipesController.EmptyPieceMatchesAnyTagged | app/api/src/controllers/recipesController.ts:49-52 | a tag filter with an empty piece (as in "a,,b") keeps every tagged recipe |
| RecipesController.SingleToken | app/api/src/controllers/recipesController.ts:49-52 | without a comma, the filter is a substring test of the trimmed, lower-cased text against the lower-cased tags |
| RecipesController.OneToken | app/api/src/controllers/recipesController.ts:51 | with one token, `some` over tokens reduces to that token's test |
| RecipesController.CategoryCondition | app/api/src/controllers/recipesController.ts:77-87 | a truthy `categories` gives `in` over its trimmed non-empty pieces (none if there are none); otherwise a truthy `category` gives equality; otherwise no condition |
| RecipesController.CategoriesTakePrecedence | app/api/src/controllers/recipesController.ts:77-87 | with non-empty pieces in `categories`, matched recipes are in that list and `category` is ignored |
| RecipesController.ZeroBoundsIgnored | app/api/src/controllers/recipesController.ts:124-131 | a minimum of 0 with no maximum is falsy, so the protein range filter does not run |
| RecipesController.RangeBounds | app/api/src/controllers/recipesController.ts:124-149 | the ranges are inclusive; a missing minimum means 0, a missing maximum means unbounded |
| RecipesController.CeilDiv | app/api/src/controllers/recipesController.ts:157 | `Math.ceil(total / limit)`: the least page count covering all matches |
| RecipesController.PageOf | app/api/src/controllers/recipesController.ts:73-101 | skip (page−1)·limit rows and take at most limit: empty past the end, else the slice from skip |
| RecipesController.ApplyInMemoryFilters | app/api/src/controllers/recipesController.ts:105-149 | the chain of filters keeps, in order, exactly the page rows that pass the text, tag and three range tests that apply |
| RecipesController.TextStep | app/api/src/controllers/recipesController.ts:107-116 | the text step keeps the rows whose title, description or category contains the lower-cased query |
| RecipesController.TagsStep | app/api/src/controllers/recipesController.ts:118-121 | the tag step narrows the text result to the rows passing both tests |
| RecipesController.ProteinStep | app/api/src/controllers/recipesController.ts:124-131 | the protein step narrows further, only when a bound is truthy |
| RecipesController.FatStep | app/api/src/controllers/recipesController.ts:133-140 | the fat step, likewise |
| RecipesController.CarbsStep | app/api/src/controllers/recipesController.ts:142-149 | the carbs step, likewise, ending at the full test |
| RecipesController.GetRecipes | app/api/src/controllers/recipesController.ts:54-163 | the response rows are the filtered database page; `total` counts the database matches before in-memory filtering; pages = ceil(total/limit) |
| RecipesController.ResultIsSubsequenceOfPage | app/api/src/controllers/recipesController.ts:105-149 | the response rows are a subsequence of the page: filters only remove, and keep order |
| ShoppingList.EntryContributions | app/api/src/controllers/shoppingListController.ts:35-46 | an entry without a recipe contributes nothing; otherwise one amount per ingredient line |
| ShoppingList.UnplannedEntriesIgnored | app/api/src/controllers/shoppingListController.ts:35 | adding an entry without a recipe changes nothing |
| ShoppingList.FirstIndex | app/api/src/controllers/shoppingListController.ts:48-56 | the position of the first line with a key: it has the key, and no earlier line does |
| ShoppingList.TotalSnoc | app/api/src/controllers/shoppingListController.ts:49 | one more line adds its amount to its own key's total and nothing to others |
| ShoppingList.FirstIndexSnoc | app/api/src/controllers/shoppingListController.ts:48-49 | a later line does not move the first occurrence of a key |
| ShoppingList.NewKeyFirstIndex | app/api/src/controllers/shoppingListController.ts:50-55 | a line with a new key is that key's first occurrence |
| ShoppingList.TotalAbsent | app/api/src/controllers/shoppingListController.ts:48-56 | a key with no line has total 0 |
| ShoppingList.HasKeySnoc | app/api/src/controllers/shoppingListController.ts:48-56 | after one more line, the keys present are the old ones and that line's key |
| ShoppingList.AggregateDescribes | app/api/src/controllers/shoppingListController.ts:48-56 | the map holds each key once, in first-insertion order, with the first line's name and unit and the sum of all amounts under the key |
| ShoppingList.AddDescribes | app/api/src/controllers/shoppingListController.ts:48-56 | one more line (added to an existing item, or creating a new one) keeps that description true |
| ShoppingList.AggregateSnoc | app/api/src/controllers/shoppingListController.ts:48-56 | folding one more line is one `Add` |
| ShoppingList.AllContributionsSnoc | app/api/src/controllers/shoppingListController.ts:34-57 | one more entry appends its lines |
| ShoppingList.Listing | app/api/src/controllers/shoppingListController.ts:60-63 | one item per key, in key order, with its name and unit and its total rounded |
| ShoppingList.ListingIsListOf | app/api/src/controllers/shoppingListController.ts:60-63 | the listed map is the shopping list of all lines: distinct keys in first-occurrence order, each with the first line's name and unit and the rounded sum |
| ShoppingList.AddItem | app/api/src/controllers/shoppingListController.ts:48-56 | one ingredient line is exactly one `Add` to the map |
| ShoppingList.AddEntry | app/api/src/controllers/shoppingListController.ts:43-57 | the inner loop adds the lines of one entry, key and quantity × servings each |
| ShoppingList.GetShoppingList | app/api/src/controllers/shoppingListController.ts:30-63 | the response is the shopping list of all the lines of all planned entries |
| ShoppingList.PlainKey | app/api/src/controllers/shoppingListController.ts:44 | lower-case unspaced names and units make the key `name_unit` unchanged |
| ShoppingList.KeysCollide | app/api/src/controllers/shoppingListController.ts:44 | ("a_b", "c") and ("a", "b_c") share a key, so they are merged |
| ShoppingList.RoundedOnce | app/api/src/controllers/shoppingListController.ts:60-63 | two amounts of 0.4 under one key list as 1, where rounding each would give 0 |
| JsMath.Trunc | app/api/src/controllers/recipesController.ts:10 | the integer part, toward zero |
| JsMath.Round | app/api/src/controllers/shoppingListController.ts:62 | the nearest integer, halves rounded up |
| Text.SplitTrimmed | app/web/src/components/RecipeFilters.tsx:11-16 | the trimmed non-empty pieces: each non-empty, trimmed and comma-free |
| Text.SplitTrimmedJoin | app/web/src/components/RecipeFilters.tsx:11-16 | splitting a join of separator-free pieces gives back exactly those pieces, trimmed, with the empty ones dropped |
| RecipeFilters.Selected | app/web/src/components/RecipeFilters.tsx:11-16 | a missing or empty filter selects nothing; each selected name is non-empty, trimmed and comma-free |
| RecipeFilters.SelectedOfJoin | app/web/src/components/RecipeFilters.tsx:11-16 | the selection read from a comma-joined string is exactly its pieces, trimmed, with the empty ones dropped |
| RecipeFilters.SelectedJoin | app/web/src/components/RecipeFilters.tsx:11-22 | joining selectable names with ',' and parsing back gives the same list |
| RecipeFilters.Toggle | app/web/src/components/RecipeFilters.tsx:19-21 | a selected name is removed everywhere, every other element kept with its multiplicity and in order; an unselected one is appended |
| RecipeFilters.ToggleTwice | app/web/src/components/RecipeFilters.tsx:19-21 | toggling an unselected name twice restores the list |
| RecipeFilters.ToggleTag | app/web/src/components/RecipeFilters.tsx:18-23 | the change is reported under "tags" |
| RecipeFilters.ToggleTagRoundTrip | app/web/src/components/RecipeFilters.tsx:18-23 | the reported string parses back to the toggled list |
| RecipeFilters.ToggleTagTwice | app/web/src/components/RecipeFilters.tsx:18-23 | toggling the same unselected tag twice through the page's handler restores the selected tags |
| RecipeFilters.ToggleCategory | app/web/src/components/RecipeFilters.tsx:39-44 | the change is reported under "categories" |
| RecipeFilters.ToggleCategoryMirrorsTag | app/web/src/components/RecipeFilters.tsx:39-44 | toggling a category reports what toggling a tag would, with the categories in place of the tags |
| RecipeFilters.Apply | app/web/src/pages/RecipeList.tsx:29-31 | the handler's key set: the old keys and every changed key |
| RecipeFilters.ApplyUnchanged | app/web/src/pages/RecipeList.tsx:29-31 | keys no change names keep their value |
| RecipeFilters.ApplyLast | app/web/src/pages/RecipeList.tsx:29-31 | a key takes the value of its last change |
| RecipeFilters.ClearFilters | app/web/src/components/RecipeFilters.tsx:25-37 | eleven changes, in order: query, the eight bounds, tags, categories, each to '' |
| RecipeFilters.ClearSets | app/web/src/components/RecipeFilters.tsx:25-37 | each cleared key ends up '' |
| RecipeFilters.ClearKeepsOthers | app/web/src/components/RecipeFilters.tsx:25-37 | every other filter keeps its value |
| RecipeFilters.ClearDeselects | app/web/src/components/RecipeFilters.tsx:35-36 | after clearing, no tag and no category is selected |
| Taxonomy.PrecedesTransitive | app/api/src/routes/taxonomy.ts:16 | the default string order is transitive |
| Taxonomy.PrecedesTotal | app/api/src/routes/taxonomy.ts:16 | two different strings are ordered one way or the other |
| Taxonomy.Insert | app/api/src/routes/taxonomy.ts:16 | insertion adds exactly the one element |
| Taxonomy.Sort | app/api/src/routes/taxonomy.ts:16 | sorting is a permutation |
| Taxonomy.InsertOrdered | app/api/src/routes/taxonomy.ts:16 | inserting into an ordered list keeps it ordered |
| Taxonomy.SortOrdered | app/api/src/routes/taxonomy.ts:16 | the sorted list is ordered |
| Taxonomy.SortStrict | app/api/src/routes/taxonomy.ts:16 | sorting a list without duplicates gives a strictly increasing list with the same elements |
| Taxonomy.StrictUnique | app/api/src/routes/taxonomy.ts:16 | a strictly increasing list is determined by its elements |
| Taxonomy.Distinct | app/api/src/routes/taxonomy.ts:11-14 | the Set holds each element once, and exactly the elements added |
| Taxonomy.FlattenMember | app/api/src/routes/taxonomy.ts:12-14 | a tag was added iff some recipe has it |
| Taxonomy.ListTags | app/api/src/routes/taxonomy.ts:6-17 | the nested loops fill the Set in insertion order; the response is strictly increasing and holds exactly the tags some recipe has |
| Taxonomy.TagsDependOnlyOnTagSet | app/api/src/routes/taxonomy.ts:11-16 | the response depends only on which tags are in use |
| Taxonomy.CategoriesListed | app/api/src/routes/taxonomy.ts:19-26 | each category in use appears once, in increasing order, and nothing else |

## Left out

- Prisma reads and writes are not modelled. The catalogue, the plan, its entries and the database rows become parameters. For `prisma.recipe.update` only one rule is modelled (`Updated`): a key the data leaves undefined keeps its stored value.
- RecipesController.PartialUpdateResets (and the `Columns` type) assumes the three macro columns (protein, fat, carbs) are nullable. The Prisma schema is not part of this model; `serialize.ts:5` turning a null value into 0 suggests they are. If they are NOT NULL, the update at `recipesController.ts:213-216` rejects the null and the request fails through `next(error)` instead of writing nulls.
- The list model's `Recipe` type gives the filters plain numeric macros. A stored null macro stands as 0, which is what `Number(null)` yields in the range filters (`recipesController.ts:124-150`). The `prisma.mealEntry.create` loop (`mealPlanGenerator.ts:153-171`) becomes the returned sequence of created entries.
- Express plumbing is not modelled: routes, `index.ts`, `errorHandler.ts` and the not-found errors (`AppError`).
- Dates are day offsets from `weekStart`. Time zones, `setDate` and the ISO-string keys of the locked-slot Set are not modelled. A slot is identified by its (day, name) pair.
- Numbers are Dafny reals. Binary floating-point rounding, `Infinity` and `NaN` are not modelled.
  - A missing score stands for NaN.
  - `None` stands for the Infinity of an initial best score.
  - `Distance` requires a non-zero kcal target, where the source divides by zero.
- ToDecimal: the precision is fixed at the 2 that every call in the source uses. The `precision` parameter is not modelled.
- `avgSlots` and `DEFAULT_USER_ID` are not modelled; both are unused.
- zod is not modelled beyond the rules these schemas use.
  - Issues carry a path and a rule code, with no messages.
  - A field holds a value of its type or is absent. Values of the wrong type are not modelled.
  - `z.coerce.date()` becomes a valid date or an invalid one.
  - `imageUrl`'s URL format check is not modelled: any string, null or absence is accepted.
- `z.coerce.number()` in the query schema yields a number or NaN. The string-to-number conversion itself is not modelled.
- RecipesController.GetRecipes requires page ≥ 1 and limit ≥ 1, which the query schema guarantees. The schema is applied as middleware on the route (`routes/recipes.ts:15`).
  - `middleware/validate.ts` is not part of this model. The model assumes that `validateQuery` replaces `req.query` with the parsed query, so the handler sees numbers.
  - If it does not, every query value reaches the handler as a string. A raw `"0"` is then truthy, and RecipesController.ZeroBoundsIgnored does not describe the deployed behaviour.
- RecipesController.DbMatches keeps catalogue order. The catalogue parameter stands for the table in the order `findMany` returns it: by createdAt, newest first (`recipesController.ts:100`). Timestamps are not modelled.
- RecipesController.Sanitize: `String(step)` and `String(tag)` are taken as identity on strings. The payload's steps and tags are modelled as strings.
- RecipesController.FilterByTags has no contract of its own. Its meaning is stated by `TagMatches`, `MatchesSomeToken` and the lemmas about it.
- Lower-casing is ASCII-only: only the letters A–Z change. Unicode case mapping is not modelled.
- Trimming removes ECMAScript's WhiteSpace and LineTerminator characters, as `String.prototype.trim` does. This includes the no-break space, the U+2000–U+200A spaces, the line and paragraph separators and the byte-order mark.
- JavaScript's default sort compares UTF-16 code units; the model compares Dafny characters.
- The database's `distinct: ['category']` is modelled as `Distinct` over the catalogue's categories.
- ShoppingList: the servings count is modelled as a real. `serializeDecimal` is not modelled.
- ShoppingList: `Number(q) || 0` for a non-numeric quantity is modelled as the converted value, or 0 for NaN. The conversion itself is not modelled.
- The list page's handler also resets `page` to 1 (`RecipeList.tsx:30`). The model treats `page` as a number, outside the string filters.
- UI rendering is not modelled, nor the other pages and components, nor the React Query hooks.
- Export (PDF/CSV) and image upload are not modelled.
- `controllers/mealPlanGenerator.ts` and `utils/serialize.ts` are thin wrappers and are not modelled.
- Tests that need a seeded database are used only as the scenarios restated in the lemmas cited against them.

## Findings

| source | as written | input that shows it | evidently intended | confidence | as-written member | corrected member |
|---|---|---|---|---|---|---|
| app/api/src/services/mealPlanGenerator.ts:154-171 | `generateMealPlan` returns only the entries it created. Locked slots are excluded from the free slots (`:77-83`), so a locked entry is never among them. | A 3-meal plan with a locked breakfast on its first day (`mealPlanGenerator.test.ts:86-128`). The test's `find` for that slot gets `undefined`, so the expectations at `:126-128` fail. | Return the plan's entries: the locked ones unchanged, followed by the created ones. | not executed | MealPlanGeneration.LockedBreakfastNotReturned | MealPlanGeneration.LockedBreakfastKept |
| app/api/src/controllers/recipesController.ts:200-216 | `updateRecipe` passes the body through `sanitizeRecipePayload` (`:21-44`). That function fills in a default for every numeric key and for tags, whether or not the body has them. The route accepts partial bodies (`recipeUpdateSchema`, `routes/recipes.ts:18`). | An update body with only a title and a cook time. The update then writes servings 1, kcal 0 and empty tags over the stored values, and null macros. If the macro columns are not nullable, the update fails instead. | Convert only the keys the body has, and leave the others undefined so the update keeps them. | not executed | RecipesController.PartialUpdateResets | RecipesController.PartialUpdateKeeps |
