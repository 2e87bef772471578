/**
 * The "Generate JSON" handler of the recipe form: the ingredient and
 * instruction rows, the nutrition box, the schema.org `Recipe` document
 * built from the form, and the form's two growing lists of rows.
 */
module RecipeBuilder {
  import opened PyStr
  import opened RecipeText

  // ---------------------------------------------------------------------------
  // Rows

  /** What the three boxes of one ingredient row hold. */
  datatype IngredientRow = IngredientRow(quantity: string, measurement: string, ingredient: string)

  /** What the two boxes of one instruction row hold. */
  datatype InstructionRow = InstructionRow(stepName: string, stepText: string)

  /** An entry of `recipeIngredient`. */
  datatype Ingredient = Ingredient(quantity: string, measurement: string, ingredient: string)

  /** An entry of `recipeInstructions`. */
  datatype HowToStep = HowToStep(atType: string, name: string, text: string)

  const BlankIngredientRow := IngredientRow("", "", "")
  const BlankInstructionRow := InstructionRow("", "")

  /** The entries of all rows, in row order: what a loop appending each row's
      entries to an initially empty list ends with. */
  function Collect<R, E>(rows: seq<R>, entry: R -> seq<E>): seq<E>
    decreases |rows|
  {
    if rows == [] then []
    else Collect(rows[..|rows| - 1], entry) + entry(rows[|rows| - 1])
  }

  /** Rows read one after the other give their entries one after the other. */
  lemma {:induction false} CollectAppend<R, E>(a: seq<R>, b: seq<R>, entry: R -> seq<E>)
    ensures Collect(a + b, entry) == Collect(a, entry) + Collect(b, entry)
    decreases |b|
  {
    if b == [] {
      assert a + b == a;
    } else {
      var init := b[..|b| - 1];
      assert (a + b)[..|a + b| - 1] == a + init;
      assert (a + b)[|a + b| - 1] == b[|b| - 1];
      CollectAppend(a, init, entry);
    }
  }

  /** Every entry of a row is in the result. */
  lemma {:induction false} CollectHas<R, E>(rows: seq<R>, entry: R -> seq<E>, j: nat, e: E)
    requires j < |rows| && e in entry(rows[j])
    ensures e in Collect(rows, entry)
    decreases |rows|
  {
    if j < |rows| - 1 {
      var init := rows[..|rows| - 1];
      assert init[j] == rows[j];
      CollectHas(init, entry, j, e);
    }
  }

  /** Every entry of the result comes from a row. */
  lemma {:induction false} CollectSource<R, E>(rows: seq<R>, entry: R -> seq<E>, e: E)
    requires e in Collect(rows, entry)
    ensures exists j :: 0 <= j < |rows| && e in entry(rows[j])
    decreases |rows|
  {
    var init := rows[..|rows| - 1];
    if e !in entry(rows[|rows| - 1]) {
      CollectSource(init, entry, e);
      var j :| 0 <= j < |init| && e in entry(init[j]);
      assert rows[j] == init[j];
    }
  }

  /** An entry is in the result exactly when some row produced it. */
  lemma {:induction false} CollectMembers<R, E>(rows: seq<R>, entry: R -> seq<E>, e: E)
    ensures e in Collect(rows, entry) <==> exists j :: 0 <= j < |rows| && e in entry(rows[j])
  {
    if e in Collect(rows, entry) {
      CollectSource(rows, entry, e);
    }
    if exists j :: 0 <= j < |rows| && e in entry(rows[j]) {
      var j :| 0 <= j < |rows| && e in entry(rows[j]);
      CollectHas(rows, entry, j, e);
    }
  }

  /** One more row adds its entries at the end. */
  lemma {:induction false} CollectNext<R, E>(rows: seq<R>, i: nat, entry: R -> seq<E>)
    requires i < |rows|
    ensures Collect(rows[..i + 1], entry) == Collect(rows[..i], entry) + entry(rows[i])
  {
    assert rows[..i + 1][..i] == rows[..i];
  }

  /** When every row gives exactly one entry, entry `j` is row `j`'s. */
  lemma {:induction false} CollectOnePerRow<R, E>(rows: seq<R>, entry: R -> seq<E>)
    requires forall j :: 0 <= j < |rows| ==> |entry(rows[j])| == 1
    ensures |Collect(rows, entry)| == |rows|
    ensures forall j :: 0 <= j < |rows| ==> Collect(rows, entry)[j] == entry(rows[j])[0]
    decreases |rows|
  {
    if rows != [] {
      var init := rows[..|rows| - 1];
      assert forall j :: 0 <= j < |init| ==> init[j] == rows[j];
      CollectOnePerRow(init, entry);
    }
  }

  // ---------------------------------------------------------------------------
  // Ingredients

  /** An ingredient row as the document records it: every box stripped, and
      the row dropped when its ingredient box is blank. */
  function IngredientOf(row: IngredientRow): (r: seq<Ingredient>)
    ensures |r| <= 1
  {
    var quantity := Strip(row.quantity);
    var measurement := Strip(row.measurement);
    var ingredient := Strip(row.ingredient);
    if ingredient != "" then [Ingredient(quantity, measurement, ingredient)] else []
  }

  /** The shape of every recorded ingredient. */
  predicate IsRecordedIngredient(e: Ingredient) {
    e.ingredient != "" && IsStripped(e.ingredient) && IsStripped(e.quantity) && IsStripped(e.measurement)
  }

  /** `recipeIngredient`: the recorded ingredients of the rows, in row order. */
  function KeptIngredients(rows: seq<IngredientRow>): (r: seq<Ingredient>)
    ensures |r| <= |rows|
    ensures forall e :: e in r ==> IsRecordedIngredient(e)
  {
    CollectAtMostOne(rows);
    forall e | e in Collect(rows, IngredientOf)
      ensures IsRecordedIngredient(e)
    {
      CollectMembers(rows, IngredientOf, e);
    }
    Collect(rows, IngredientOf)
  }

  lemma {:induction false} CollectAtMostOne(rows: seq<IngredientRow>)
    ensures |Collect(rows, IngredientOf)| <= |rows|
    decreases |rows|
  {
    if rows != [] {
      CollectAtMostOne(rows[..|rows| - 1]);
    }
  }

  /** A row is recorded exactly when its ingredient box holds more than
      whitespace; its quantity and measurement boxes play no part. */
  lemma {:induction false} IngredientKeptIff(row: IngredientRow)
    ensures IngredientOf(row) != [] <==> !AllSpace(row.ingredient)
    ensures IngredientOf(row) != [] ==>
              IngredientOf(row) == [Ingredient(Strip(row.quantity), Strip(row.measurement), Strip(row.ingredient))]
  {
    StripEmptyIffAllSpace(row.ingredient);
  }

  /** An ingredient is in the document exactly when some row records it. */
  lemma {:induction false} KeptIngredientsMembers(rows: seq<IngredientRow>, e: Ingredient)
    ensures e in KeptIngredients(rows) <==> exists j :: 0 <= j < |rows| && IngredientOf(rows[j]) == [e]
  {
    CollectMembers(rows, IngredientOf, e);
    if exists j :: 0 <= j < |rows| && e in IngredientOf(rows[j]) {
      var j :| 0 <= j < |rows| && e in IngredientOf(rows[j]);
      assert IngredientOf(rows[j]) == [e];
    }
  }

  /** The ingredients of two groups of rows are the two lists in a row. */
  lemma {:induction false} KeptIngredientsAppend(a: seq<IngredientRow>, b: seq<IngredientRow>)
    ensures KeptIngredients(a + b) == KeptIngredients(a) + KeptIngredients(b)
  {
    CollectAppend(a, b, IngredientOf);
  }

  /** When every ingredient box is filled, every row is recorded, stripped, in its place. */
  lemma {:induction false} KeptIngredientsAllFilled(rows: seq<IngredientRow>)
    requires forall j :: 0 <= j < |rows| ==> !AllSpace(rows[j].ingredient)
    ensures |KeptIngredients(rows)| == |rows|
    ensures forall j :: 0 <= j < |rows| ==>
              KeptIngredients(rows)[j] == Ingredient(Strip(rows[j].quantity), Strip(rows[j].measurement), Strip(rows[j].ingredient))
  {
    forall j | 0 <= j < |rows|
      ensures |IngredientOf(rows[j])| == 1
    {
      IngredientKeptIff(rows[j]);
    }
    CollectOnePerRow(rows, IngredientOf);
  }

  /** The loop over the ingredient rows. */
  method CollectIngredients(rows: seq<IngredientRow>) returns (kept: seq<Ingredient>)
    ensures kept == KeptIngredients(rows)
  {
    kept := [];
    for i := 0 to |rows|
      invariant kept == Collect(rows[..i], IngredientOf)
    {
      CollectNext(rows, i, IngredientOf);
      var quantity := Strip(rows[i].quantity);
      var measurement := Strip(rows[i].measurement);
      var ingredient := Strip(rows[i].ingredient);
      if ingredient != "" {
        kept := kept + [Ingredient(quantity, measurement, ingredient)];
      }
    }
    assert rows[..|rows|] == rows;
  }

  // ---------------------------------------------------------------------------
  // Instructions

  /** An instruction row as the document records it: both boxes stripped,
      typed `HowToStep`, and dropped when both boxes are blank. */
  function StepOf(row: InstructionRow): (r: seq<HowToStep>)
    ensures |r| <= 1
  {
    var name := Strip(row.stepName);
    var text := Strip(row.stepText);
    if name != "" || text != "" then [HowToStep("HowToStep", name, text)] else []
  }

  /** The shape of every recorded step. */
  predicate IsRecordedStep(e: HowToStep) {
    e.atType == "HowToStep" && (e.name != "" || e.text != "") && IsStripped(e.name) && IsStripped(e.text)
  }

  /** `recipeInstructions`: the recorded steps of the rows, in row order. */
  function KeptSteps(rows: seq<InstructionRow>): (r: seq<HowToStep>)
    ensures |r| <= |rows|
    ensures forall e :: e in r ==> IsRecordedStep(e)
  {
    CollectStepsAtMostOne(rows);
    forall e | e in Collect(rows, StepOf)
      ensures IsRecordedStep(e)
    {
      CollectMembers(rows, StepOf, e);
    }
    Collect(rows, StepOf)
  }

  lemma {:induction false} CollectStepsAtMostOne(rows: seq<InstructionRow>)
    ensures |Collect(rows, StepOf)| <= |rows|
    decreases |rows|
  {
    if rows != [] {
      CollectStepsAtMostOne(rows[..|rows| - 1]);
    }
  }

  /** A row is recorded exactly when one of its boxes holds more than whitespace. */
  lemma {:induction false} StepKeptIff(row: InstructionRow)
    ensures StepOf(row) != [] <==> !AllSpace(row.stepName) || !AllSpace(row.stepText)
    ensures StepOf(row) != [] ==> StepOf(row) == [HowToStep("HowToStep", Strip(row.stepName), Strip(row.stepText))]
  {
    StripEmptyIffAllSpace(row.stepName);
    StripEmptyIffAllSpace(row.stepText);
  }

  /** A step is in the document exactly when some row records it. */
  lemma {:induction false} KeptStepsMembers(rows: seq<InstructionRow>, e: HowToStep)
    ensures e in KeptSteps(rows) <==> exists j :: 0 <= j < |rows| && StepOf(rows[j]) == [e]
  {
    CollectMembers(rows, StepOf, e);
    if exists j :: 0 <= j < |rows| && e in StepOf(rows[j]) {
      var j :| 0 <= j < |rows| && e in StepOf(rows[j]);
      assert StepOf(rows[j]) == [e];
    }
  }

  /** The steps of two groups of rows are the two lists in a row. */
  lemma {:induction false} KeptStepsAppend(a: seq<InstructionRow>, b: seq<InstructionRow>)
    ensures KeptSteps(a + b) == KeptSteps(a) + KeptSteps(b)
  {
    CollectAppend(a, b, StepOf);
  }

  /** When every row has a filled box, every row is recorded, stripped, in its place. */
  lemma {:induction false} KeptStepsAllFilled(rows: seq<InstructionRow>)
    requires forall j :: 0 <= j < |rows| ==> !AllSpace(rows[j].stepName) || !AllSpace(rows[j].stepText)
    ensures |KeptSteps(rows)| == |rows|
    ensures forall j :: 0 <= j < |rows| ==>
              KeptSteps(rows)[j] == HowToStep("HowToStep", Strip(rows[j].stepName), Strip(rows[j].stepText))
  {
    forall j | 0 <= j < |rows|
      ensures |StepOf(rows[j])| == 1
    {
      StepKeptIff(rows[j]);
    }
    CollectOnePerRow(rows, StepOf);
  }

  /** The loop over the instruction rows. */
  method CollectSteps(rows: seq<InstructionRow>) returns (steps: seq<HowToStep>)
    ensures steps == KeptSteps(rows)
  {
    steps := [];
    for i := 0 to |rows|
      invariant steps == Collect(rows[..i], StepOf)
    {
      CollectNext(rows, i, StepOf);
      var name := Strip(rows[i].stepName);
      var text := Strip(rows[i].stepText);
      if name != "" || text != "" {
        steps := steps + [HowToStep("HowToStep", name, text)];
      }
    }
    assert rows[..|rows|] == rows;
  }

  // ---------------------------------------------------------------------------
  // Nutrition

  /** The text before a line's first `:`, stripped. */
  function NutritionKey(line: string): (k: string)
    requires ':' in line
    ensures ':' !in k && IsStripped(k)
  {
    var n := IndexOf(line, ':');
    StripAvoids(line[..n], ':');
    Strip(line[..n])
  }

  /** The text after a line's first `:`, stripped; it may hold further colons. */
  function NutritionValue(line: string): (v: string)
    requires ':' in line
    ensures IsStripped(v)
  {
    var n := IndexOf(line, ':');
    Strip(line[n + 1..])
  }

  /** The `nutrition` object for the given lines: every line holding a `:`
      sets its key to its value, later lines overriding earlier ones. */
  function NutritionOf(lines: seq<string>): map<string, string>
    decreases |lines|
  {
    if lines == [] then map[]
    else
      var facts := NutritionOf(lines[..|lines| - 1]);
      var line := lines[|lines| - 1];
      if ':' in line then facts[NutritionKey(line) := NutritionValue(line)] else facts
  }

  /** One more line sets its key, when it has one. */
  lemma {:induction false} NutritionNext(lines: seq<string>, i: nat)
    requires i < |lines|
    ensures NutritionOf(lines[..i + 1]) ==
              if ':' in lines[i] then NutritionOf(lines[..i])[NutritionKey(lines[i]) := NutritionValue(lines[i])]
              else NutritionOf(lines[..i])
  {
    assert lines[..i + 1][..i] == lines[..i];
    assert lines[..i + 1][i] == lines[i];
  }

  /** A line added at the end sets its key, when it has one. */
  lemma {:induction false} NutritionSnoc(lines: seq<string>, line: string)
    ensures NutritionOf(lines + [line]) ==
              if ':' in line then NutritionOf(lines)[NutritionKey(line) := NutritionValue(line)] else NutritionOf(lines)
  {
    assert (lines + [line])[..|lines|] == lines;
    assert (lines + [line])[|lines|] == line;
  }

  /** The first `:` of `key:rest` is the one after the key. */
  lemma {:induction false} NutritionSplitAt(key: string, rest: string)
    requires ':' !in key
    ensures var line := key + ":" + rest;
            ':' in line && IndexOf(line, ':') == |key| && line[..|key|] == key && line[|key| + 1..] == rest
  {
    var line := key + ":" + rest;
    assert line == key + ([':'] + rest);
    IndexOfBefore(key, [':'] + rest, ':');
    assert line[..|key|] == key;
    assert line[|key| + 1..] == rest;
    assert line[|key|] == ':';
  }

  /** A line is cut at the colon that follows a colon-free key. */
  lemma {:induction false} NutritionLineParts(key: string, rest: string)
    requires ':' !in key
    ensures var line := key + ":" + rest;
            ':' in line && NutritionKey(line) == Strip(key) && NutritionValue(line) == Strip(rest)
  {
    NutritionSplitAt(key, rest);
  }

  /** A line written `key: value` (any whitespace after the colon) gives back
      its key and its value. */
  lemma {:induction false} NutritionLineRoundTrip(key: string, gap: string, value: string)
    requires ':' !in key && IsStripped(key) && AllSpace(gap) && IsStripped(value)
    ensures var line := key + ":" + gap + value;
            ':' in line && NutritionKey(line) == key && NutritionValue(line) == value
  {
    assert key + ":" + gap + value == key + ":" + (gap + value);
    NutritionLineParts(key, gap + value);
    StripStripped(key);
    StripLeadingPad(gap, value);
  }

  /** Every line holding a `:` puts its key in the object. */
  lemma {:induction false} NutritionKeyRecorded(lines: seq<string>, j: nat)
    requires j < |lines| && ':' in lines[j]
    ensures NutritionKey(lines[j]) in NutritionOf(lines)
    decreases |lines|
  {
    if j < |lines| - 1 {
      var init := lines[..|lines| - 1];
      assert init[j] == lines[j];
      NutritionKeyRecorded(init, j);
    }
  }

  /** Every key in the object comes from a line holding a `:`. */
  lemma {:induction false} NutritionKeySource(lines: seq<string>, k: string)
    requires k in NutritionOf(lines)
    ensures exists j :: 0 <= j < |lines| && ':' in lines[j] && NutritionKey(lines[j]) == k
    decreases |lines|
  {
    var init := lines[..|lines| - 1];
    var line := lines[|lines| - 1];
    if !(':' in line && NutritionKey(line) == k) {
      NutritionKeySource(init, k);
      var j :| 0 <= j < |init| && ':' in init[j] && NutritionKey(init[j]) == k;
      assert lines[j] == init[j];
    }
  }

  /** A key is in the object exactly when some line holding a `:` has it. */
  lemma {:induction false} NutritionKeys(lines: seq<string>, k: string)
    ensures k in NutritionOf(lines) <==>
              exists j :: 0 <= j < |lines| && ':' in lines[j] && NutritionKey(lines[j]) == k
  {
    if k in NutritionOf(lines) {
      NutritionKeySource(lines, k);
    }
    if exists j :: 0 <= j < |lines| && ':' in lines[j] && NutritionKey(lines[j]) == k {
      var j :| 0 <= j < |lines| && ':' in lines[j] && NutritionKey(lines[j]) == k;
      NutritionKeyRecorded(lines, j);
    }
  }

  /** The value of a key is the one given on the last line with that key. */
  lemma {:induction false} NutritionLastWins(lines: seq<string>, j: nat)
    requires j < |lines| && ':' in lines[j]
    requires forall i :: j < i < |lines| && ':' in lines[i] ==> NutritionKey(lines[i]) != NutritionKey(lines[j])
    ensures NutritionKey(lines[j]) in NutritionOf(lines)
    ensures NutritionOf(lines)[NutritionKey(lines[j])] == NutritionValue(lines[j])
    decreases |lines|
  {
    if j < |lines| - 1 {
      var init := lines[..|lines| - 1];
      assert init[j] == lines[j];
      forall i | j < i < |init| && ':' in init[i]
        ensures NutritionKey(init[i]) != NutritionKey(init[j])
      {
        assert init[i] == lines[i];
      }
      NutritionLastWins(init, j);
    }
  }

  /** No key holds a `:`, and every key and value is stripped. */
  lemma {:induction false} NutritionEntriesClean(lines: seq<string>, k: string)
    requires k in NutritionOf(lines)
    ensures ':' !in k && IsStripped(k) && IsStripped(NutritionOf(lines)[k])
    decreases |lines|
  {
    var init := lines[..|lines| - 1];
    var line := lines[|lines| - 1];
    if ':' in line && k == NutritionKey(line) {
    } else {
      NutritionEntriesClean(init, k);
    }
  }

  /** The loop over the lines of the nutrition box. */
  method ParseNutrition(text: string) returns (facts: map<string, string>)
    ensures facts == NutritionOf(SplitLines(text))
  {
    var lines := SplitLines(text);
    facts := map[];
    for i := 0 to |lines|
      invariant facts == NutritionOf(lines[..i])
    {
      NutritionNext(lines, i);
      var line := lines[i];
      if ':' in line {
        var n := IndexOf(line, ':');
        facts := facts[Strip(line[..n]) := Strip(line[n + 1..])];
      }
    }
    assert lines[..|lines|] == lines;
  }

  // ---------------------------------------------------------------------------
  // The document

  /** The values of the form's single-valued widgets when "Generate JSON" is
      pressed. The comma-separated fields, the nutrition box and the filename
      field are kept as typed. */
  datatype FormValues = FormValues(
    name: string,
    dateCreated: string,
    deployDates: string,
    authorName: string,
    authorUrl: string,
    verificationName: string,
    verificationStatus: string,
    verificationMethod: string,
    verificationDate: string,
    scoreEq: int,
    scoreVm: int,
    scoreTotal: int,
    scoreAlap: int,
    recipeConcept: string,
    alternativeNames: string,
    recipeCuisine: string,
    recipeCategory: string,
    prepTime: string,
    cookTime: string,
    totalTime: string,
    recipeYield: string,
    nutrition: string,
    description: string,
    suitableForDiet: string,
    estimatedCost: string,
    tools: string,
    citation: string,
    comment: string,
    keywords: string,
    maintainer: string,
    contentLocation: string,
    spatialCoverage: string,
    filename: string)

  datatype DateInfo = DateInfo(dateCreated: string, deployDate: seq<string>)

  datatype Author = Author(atType: string, name: string, url: string)

  /** `method` is spelled `verificationMethod` here, `method` being a keyword. */
  datatype Verification = Verification(
    name: string, verification: string, verificationMethod: string, verificationDate: string)

  datatype Score = Score(eq: int, vm: int, total: int, alap: int)

  /** The JSON object the builder writes, its members in the order they are written. */
  datatype RecipeDocument = RecipeDocument(
    context: string,
    atType: string,
    uuid: string,
    name: string,
    date: DateInfo,
    author: Author,
    verification: Verification,
    score: Score,
    recipeConcept: string,
    nameEquals: seq<string>,
    recipeCuisine: string,
    recipeCategory: string,
    prepTime: string,
    cookTime: string,
    totalTime: string,
    recipeYield: string,
    recipeIngredient: seq<Ingredient>,
    recipeInstructions: seq<HowToStep>,
    nutrition: map<string, string>,
    description: string,
    suitableForDiet: seq<string>,
    estimatedCost: string,
    tool: seq<string>,
    citation: string,
    comment: string,
    keywords: seq<string>,
    maintainer: string,
    contentLocation: string,
    spatialCoverage: string,
    conceptHash: string)

  const SchemaContext := "https://schema.org/"

  /** The options of the two dropdowns. */
  const StatusOptions := ["verified", "unverified", "approximated"]
  const MethodOptions := ["workshop", "coursed dinner", "restaurant", "institution", "unverified", "approximated"]

  /** Every item of a list field: not blank, stripped, free of commas. */
  predicate IsCleanList(items: seq<string>) {
    forall i :: 0 <= i < |items| ==> items[i] != "" && IsStripped(items[i]) && ',' !in items[i]
  }

  /** The object as first written down, before the rows, the nutrition lines
      and the hash are added. */
  function Skeleton(v: FormValues, uuid: string): RecipeDocument {
    RecipeDocument(
      SchemaContext, "Recipe", uuid, v.name,
      DateInfo(v.dateCreated, CommaList(v.deployDates)),
      Author("Organization", v.authorName, v.authorUrl),
      Verification(v.verificationName, v.verificationStatus, v.verificationMethod, v.verificationDate),
      Score(v.scoreEq, v.scoreVm, v.scoreTotal, v.scoreAlap),
      v.recipeConcept, CommaList(v.alternativeNames), v.recipeCuisine, v.recipeCategory,
      v.prepTime, v.cookTime, v.totalTime, v.recipeYield,
      [], [], map[],
      v.description, CommaList(v.suitableForDiet), v.estimatedCost, CommaList(v.tools),
      v.citation, v.comment, CommaList(v.keywords), v.maintainer, v.contentLocation,
      v.spatialCoverage, "")
  }

  /** The finished document for the form's values and rows, a fresh `uuid`
      and the digest behind `conceptHash`. */
  function BuildRecipe(v: FormValues, ingredientRows: seq<IngredientRow>, instructionRows: seq<InstructionRow>,
                       uuid: string, digest: Digest): (r: RecipeDocument)
    ensures r.context == SchemaContext && r.atType == "Recipe" && r.author.atType == "Organization"
    ensures r.uuid == uuid && r.name == v.name && r.recipeConcept == v.recipeConcept && r.recipeYield == v.recipeYield
    ensures r.date == DateInfo(v.dateCreated, CommaList(v.deployDates))
    ensures r.author == Author("Organization", v.authorName, v.authorUrl)
    ensures r.verification == Verification(v.verificationName, v.verificationStatus, v.verificationMethod, v.verificationDate)
    ensures r.score == Score(v.scoreEq, v.scoreVm, v.scoreTotal, v.scoreAlap)
    ensures r.nameEquals == CommaList(v.alternativeNames) && r.suitableForDiet == CommaList(v.suitableForDiet)
    ensures r.tool == CommaList(v.tools) && r.keywords == CommaList(v.keywords)
    ensures r.recipeCuisine == v.recipeCuisine && r.recipeCategory == v.recipeCategory
    ensures r.prepTime == v.prepTime && r.cookTime == v.cookTime && r.totalTime == v.totalTime
    ensures r.description == v.description && r.estimatedCost == v.estimatedCost
    ensures r.citation == v.citation && r.comment == v.comment && r.maintainer == v.maintainer
    ensures r.contentLocation == v.contentLocation && r.spatialCoverage == v.spatialCoverage
    ensures r.recipeIngredient == KeptIngredients(ingredientRows)
    ensures r.recipeInstructions == KeptSteps(instructionRows)
    ensures r.nutrition == NutritionOf(SplitLines(v.nutrition))
    ensures IsCleanList(r.date.deployDate) && IsCleanList(r.nameEquals) && IsCleanList(r.suitableForDiet)
    ensures IsCleanList(r.tool) && IsCleanList(r.keywords)
    ensures |r.recipeIngredient| <= |ingredientRows| && |r.recipeInstructions| <= |instructionRows|
    ensures forall e :: e in r.recipeIngredient ==> IsRecordedIngredient(e)
    ensures forall e :: e in r.recipeInstructions ==> IsRecordedStep(e)
    ensures forall k :: k in r.nutrition ==> ':' !in k && IsStripped(k) && IsStripped(r.nutrition[k])
    ensures r.conceptHash == ConceptHash(v.recipeConcept, digest)
  {
    var nutrition := NutritionOf(SplitLines(v.nutrition));
    forall k | k in nutrition
      ensures ':' !in k && IsStripped(k) && IsStripped(nutrition[k])
    {
      NutritionEntriesClean(SplitLines(v.nutrition), k);
    }
    var base := Skeleton(v, uuid);
    base.(recipeIngredient := KeptIngredients(ingredientRows),
          recipeInstructions := KeptSteps(instructionRows),
          nutrition := nutrition,
          conceptHash := ConceptHash(base.recipeConcept, digest))
  }

  /** `conceptHash` depends on the concept alone: not on the `uuid`, the rows
      or any other field of the form. */
  lemma {:induction false} ConceptHashPersists(
    v1: FormValues, ingredients1: seq<IngredientRow>, steps1: seq<InstructionRow>, uuid1: string,
    v2: FormValues, ingredients2: seq<IngredientRow>, steps2: seq<InstructionRow>, uuid2: string,
    digest: Digest)
    requires v1.recipeConcept == v2.recipeConcept
    ensures BuildRecipe(v1, ingredients1, steps1, uuid1, digest).conceptHash
         == BuildRecipe(v2, ingredients2, steps2, uuid2, digest).conceptHash
  {
  }

  /** Two forms whose concepts differ only in letter case and in the
      whitespace around and between words get the same `conceptHash`. */
  lemma {:induction false} ConceptHashSurvivesRewording(
    v1: FormValues, v2: FormValues, ingredientRows: seq<IngredientRow>, instructionRows: seq<InstructionRow>,
    uuid: string, digest: Digest)
    requires LowerAll(Words(v1.recipeConcept)) == LowerAll(Words(v2.recipeConcept))
    ensures BuildRecipe(v1, ingredientRows, instructionRows, uuid, digest).conceptHash
         == BuildRecipe(v2, ingredientRows, instructionRows, uuid, digest).conceptHash
  {
    NormalizeIgnoresCaseAndSpacing(v1.recipeConcept, v2.recipeConcept);
  }

  /** The dropdowns only offer their options, and the document copies the
      chosen ones. */
  lemma {:induction false} VerificationFromOptions(
    v: FormValues, ingredientRows: seq<IngredientRow>, instructionRows: seq<InstructionRow>,
    uuid: string, digest: Digest)
    requires v.verificationStatus in StatusOptions && v.verificationMethod in MethodOptions
    ensures var r := BuildRecipe(v, ingredientRows, instructionRows, uuid, digest);
            r.verification.verification in StatusOptions && r.verification.verificationMethod in MethodOptions
  {
  }

  // ---------------------------------------------------------------------------
  // The form

  /** The form's two lists of rows; the widgets of a row are its values here. */
  class RecipeForm {
    var ingredientRows: seq<IngredientRow>
    var instructionRows: seq<InstructionRow>

    /** The form as first displayed: one blank row of each kind. */
    constructor ()
      ensures ingredientRows == [BlankIngredientRow] && instructionRows == [BlankInstructionRow]
    {
      ingredientRows := [BlankIngredientRow];
      instructionRows := [BlankInstructionRow];
    }

    /** "Add Ingredient": a blank row at the end of the ingredient rows. */
    method AddIngredientRow()
      modifies this
      ensures ingredientRows == old(ingredientRows) + [BlankIngredientRow]
      ensures instructionRows == old(instructionRows)
    {
      ingredientRows := ingredientRows + [BlankIngredientRow];
    }

    /** "Add Instruction": a blank row at the end of the instruction rows. */
    method AddInstructionRow()
      modifies this
      ensures instructionRows == old(instructionRows) + [BlankInstructionRow]
      ensures ingredientRows == old(ingredientRows)
    {
      instructionRows := instructionRows + [BlankInstructionRow];
    }

    /** Typing into the boxes of an ingredient row. */
    method EditIngredientRow(i: nat, row: IngredientRow)
      requires i < |ingredientRows|
      modifies this
      ensures ingredientRows == old(ingredientRows)[i := row]
      ensures instructionRows == old(instructionRows)
    {
      ingredientRows := ingredientRows[i := row];
    }

    /** Typing into the boxes of an instruction row. */
    method EditInstructionRow(i: nat, row: InstructionRow)
      requires i < |instructionRows|
      modifies this
      ensures instructionRows == old(instructionRows)[i := row]
      ensures ingredientRows == old(ingredientRows)
    {
      instructionRows := instructionRows[i := row];
    }

    /** "Generate JSON": the document for the current values and rows, and
        the name of the file it is written to. */
    method Generate(v: FormValues, uuid: string, digest: Digest) returns (doc: RecipeDocument, filename: string)
      ensures doc == BuildRecipe(v, ingredientRows, instructionRows, uuid, digest)
      ensures filename == ChooseFilename(v.filename, doc.name, doc.recipeYield, doc.recipeConcept)
    {
      doc := Skeleton(v, uuid);
      var ingredients := CollectIngredients(ingredientRows);
      var steps := CollectSteps(instructionRows);
      var facts := ParseNutrition(v.nutrition);
      doc := doc.(recipeIngredient := ingredients, recipeInstructions := steps, nutrition := facts);
      doc := doc.(conceptHash := ConceptHash(doc.recipeConcept, digest));
      var custom := Strip(v.filename);
      if custom != "" {
        filename := CustomFilename(custom);
      } else {
        filename := GenerateFilename(doc.name, doc.recipeYield, doc.recipeConcept);
      }
    }
  }
}
