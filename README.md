# Recipe to JSON builder, modelled in Dafny

`Recipe_to_JSON_builder.py` is a notebook form for writing down a recipe.
When the operator presses "Generate JSON", it turns the form into a
schema.org `Recipe` document and names the file it is written to. This
project models the rules behind that step and proves what they guarantee:

- the comma-separated fields (deploy dates, alternative names, diets, tools,
  keywords) become lists of stripped, non-blank items;
- the ingredient rows and instruction rows are filtered and stripped;
- the nutrition box is read line by line as `key: value` pairs;
- the concept text is normalised and digested into `conceptHash`;
- the filename is generated from the name, yield and concept, or taken from
  the filename field;
- the form grows its lists of rows when "Add Ingredient" and
  "Add Instruction" are pressed.

Layout:

- `python_str.dfy` (module `PyStr`): the Python `str` operations the
  builder uses, written out on `seq<char>`. These are `isspace`, `strip()`,
  `split(sep)`, `split()`, `splitlines()`, `join` and ASCII `lower()`.
  The whitespace set is Python's `str.isspace` set. `splitlines()` breaks at
  the same characters as Python, and treats `\r\n` as one break.
- `recipe_text.dfy` (module `RecipeText`): the pure text rules. These are
  the comma lists, the concept normalisation and hash, the generated
  filename, and the custom filename choice.
- `recipe_builder.dfy` (module `RecipeBuilder`): the ingredient,
  instruction and nutrition loops, written as methods proved against
  specification functions, and the `RecipeDocument` record built by the
  handler. It also holds the `RecipeForm` class, whose fields are the two
  row lists the buttons append to.
- `worked_cases.dfy` (module `WorkedCases`): the examples the builder's
  rules are usually explained with, proved from the general lemmas.

One point where the code and a natural reading of it differ: the concept
hash is not insensitive to punctuation in general. Whitespace runs are
collapsed before punctuation is deleted. So `"a - b"` normalises to `"a  b"`,
with two spaces, while `"a b"` stays `"a b"`, and normalising twice can
change the text again. The model follows the code, and `WorkedCases`
proves both facts.

## Model

| member | source | states |
|---|---|---|
| PyStr.Strip | Recipe_to_JSON_builder.py:359-361 | `strip()` leaves no whitespace at either end |
| PyStr.StripPadding | Recipe_to_JSON_builder.py:359-361 | `strip()` removes only whitespace, and only from the two ends: the input is leading whitespace + result + trailing whitespace |
| PyStr.StripOfPadded | Recipe_to_JSON_builder.py:359-361 | whitespace put around a text that has none at its ends is exactly what `strip()` removes |
| PyStr.StripLeadingPad | Recipe_to_JSON_builder.py:385 | whitespace after the colon of a nutrition line is removed, and nothing else is |
| PyStr.StripStripped | Recipe_to_JSON_builder.py:359-361 | a text with no whitespace at its ends is unchanged by `strip()` |
| PyStr.StripIdempotent | Recipe_to_JSON_builder.py:396 | stripping twice is stripping once |
| PyStr.StripEmptyIffAllSpace | Recipe_to_JSON_builder.py:363 | a stripped box is empty exactly when the box holds only whitespace |
| PyStr.Split | Recipe_to_JSON_builder.py:316 | `split(",")` gives at least one piece, and no piece holds the separator |
| PyStr.JoinSplit | Recipe_to_JSON_builder.py:316 | joining the pieces of `split(sep)` with `sep` gives back the text |
| PyStr.SplitJoin | Recipe_to_JSON_builder.py:316 | splitting separator-free pieces joined by the separator gives back the pieces |
| PyStr.IndexOf | Recipe_to_JSON_builder.py:384 | the position found is the first occurrence of the character, or the end when there is none |
| PyStr.Words | Recipe_to_JSON_builder.py:20 | `split()` gives non-empty words without whitespace |
| PyStr.WordsOfSpaced | Recipe_to_JSON_builder.py:20 | `split()` of tokens separated by whitespace runs of any length and kind gives back the tokens |
| PyStr.SplitLines | Recipe_to_JSON_builder.py:382 | `splitlines()` gives lines without line breaks |
| PyStr.SplitLinesJoin | Recipe_to_JSON_builder.py:382 | break-free lines whose last line, if there is one, is not empty, joined by any one line ending, split back into the same lines |
| PyStr.WordsLower | Recipe_to_JSON_builder.py:20 | splitting the lowercased text gives the lowercased words |
| RecipeText.Filter | Recipe_to_JSON_builder.py:21 | deleting characters keeps only characters that pass the test and never lengthens the text |
| RecipeText.FilterAppend | Recipe_to_JSON_builder.py:21 | deleting characters works piece by piece |
| RecipeText.FilterTwice | Recipe_to_JSON_builder.py:33 | a narrower deletion after a wider one is the narrower deletion alone |
| RecipeText.StripNonBlank | Recipe_to_JSON_builder.py:316 | every kept piece is non-empty and stripped, and there are no more items than pieces |
| RecipeText.CommaList | Recipe_to_JSON_builder.py:316 | every item of a parsed comma list is non-empty, stripped and free of commas |
| RecipeText.StripNonBlankAppend | Recipe_to_JSON_builder.py:316 | items keep the order of their pieces: two runs of pieces give the two lists one after the other |
| RecipeText.StripNonBlankCons | Recipe_to_JSON_builder.py:316 | the first piece, stripped, heads the list unless it is blank |
| RecipeText.StripNonBlankOne | Recipe_to_JSON_builder.py:316 | a piece is kept exactly when it is not all whitespace, and then stripped |
| RecipeText.StripNonBlankKeeps | Recipe_to_JSON_builder.py:316 | clean items are kept as they are, duplicates included |
| RecipeText.CommaListOfJoin | Recipe_to_JSON_builder.py:316 | a field made of comma-free pieces parses to those pieces, stripped, without the blank ones |
| RecipeText.CommaListRoundTrip | Recipe_to_JSON_builder.py:316 | clean items joined by commas parse back to exactly those items, in order |
| RecipeText.NormalizeConcept | Recipe_to_JSON_builder.py:19-21 | the normalised concept contains no ASCII punctuation |
| RecipeText.NormalizeIgnoresCaseAndSpacing | Recipe_to_JSON_builder.py:19-21 | concepts with the same words up to ASCII case normalise alike |
| RecipeText.ConceptHashIgnoresCaseAndSpacing | Recipe_to_JSON_builder.py:15-22 | the same tokens up to case, split by any whitespace runs, get the same hash |
| RecipeText.NormalizeOfSpaced | Recipe_to_JSON_builder.py:19-21 | a lowercase concept normalises to its tokens joined by single spaces with punctuation deleted |
| RecipeText.UnderscoreSpaces | Recipe_to_JSON_builder.py:32 | after `re.sub(r'\s+', '_', ...)` no whitespace is left |
| RecipeText.UnderscoreSpacesRun | Recipe_to_JSON_builder.py:32 | a whole whitespace run, of any length and kind, becomes exactly one `_` |
| RecipeText.UnderscoreSpacesNoSpace | Recipe_to_JSON_builder.py:32 | a text without whitespace is unchanged |
| RecipeText.UnderscoreSpacesPrefix | Recipe_to_JSON_builder.py:32 | a whitespace-free prefix is kept as it is |
| RecipeText.UnderscoreSpacesAlnum | Recipe_to_JSON_builder.py:32 | turning whitespace runs into `_` leaves the letters and digits as they were |
| RecipeText.FilenameStem | Recipe_to_JSON_builder.py:31-33 | the stem contains only `[a-z0-9_]` |
| RecipeText.FilenameStemKeepsAlnum | Recipe_to_JSON_builder.py:31-33 | the stem keeps every lowercase letter and digit of the lowercased text, in order |
| RecipeText.FilenameStemIdempotent | Recipe_to_JSON_builder.py:31-33 | making a stem of a stem changes nothing |
| RecipeText.GenerateFilename | Recipe_to_JSON_builder.py:24-34 | the generated name ends in `.json` and everything before it is in `[a-z0-9_]` |
| RecipeText.CustomFilename | Recipe_to_JSON_builder.py:398 | the result ends in `.json` up to case; a name already ending so is returned unchanged; otherwise only `.json` is appended |
| RecipeText.ChooseFilename | Recipe_to_JSON_builder.py:396-400 | a non-blank stripped filename field is used, with `.json` appended only when missing; a blank one gives the generated name; the result is never empty or padded |
| RecipeText.ChooseFilenameIdempotent | Recipe_to_JSON_builder.py:396-400 | putting the chosen name back in the filename field chooses the same name |
| RecipeBuilder.CollectAppend | Recipe_to_JSON_builder.py:358-379 | the entries of rows read one after another are the two entry lists one after the other |
| RecipeBuilder.CollectHas | Recipe_to_JSON_builder.py:358-379 | every entry a row produces is in the result |
| RecipeBuilder.CollectSource | Recipe_to_JSON_builder.py:358-379 | every entry in the result was produced by some row |
| RecipeBuilder.CollectMembers | Recipe_to_JSON_builder.py:358-379 | an entry is in the result exactly when some row produced it |
| RecipeBuilder.CollectOnePerRow | Recipe_to_JSON_builder.py:358-379 | when each row gives one entry, entry j is row j's |
| RecipeBuilder.IngredientOf | Recipe_to_JSON_builder.py:359-368 | one ingredient row gives at most one entry |
| RecipeBuilder.KeptIngredients | Recipe_to_JSON_builder.py:358-368 | no more ingredients than rows; every ingredient has a non-blank ingredient text and all three fields stripped |
| RecipeBuilder.IngredientKeptIff | Recipe_to_JSON_builder.py:359-368 | a row is kept exactly when its ingredient box holds more than whitespace, whatever its quantity and measurement, and then all three boxes are stripped |
| RecipeBuilder.KeptIngredientsMembers | Recipe_to_JSON_builder.py:358-368 | an ingredient is in the document exactly when some row records it |
| RecipeBuilder.KeptIngredientsAppend | Recipe_to_JSON_builder.py:358-368 | ingredients keep the order of their rows |
| RecipeBuilder.KeptIngredientsAllFilled | Recipe_to_JSON_builder.py:358-368 | when every ingredient box is filled, ingredient j is row j stripped |
| RecipeBuilder.CollectIngredients | Recipe_to_JSON_builder.py:358-368 | the loop appends exactly the kept ingredients, in row order |
| RecipeBuilder.StepOf | Recipe_to_JSON_builder.py:372-379 | one instruction row gives at most one step |
| RecipeBuilder.KeptSteps | Recipe_to_JSON_builder.py:371-379 | no more steps than rows; every step is typed `HowToStep`, has a non-blank name or text, and both stripped |
| RecipeBuilder.StepKeptIff | Recipe_to_JSON_builder.py:372-379 | a row is kept exactly when its name or its text holds more than whitespace |
| RecipeBuilder.KeptStepsMembers | Recipe_to_JSON_builder.py:371-379 | a step is in the document exactly when some row records it |
| RecipeBuilder.KeptStepsAppend | Recipe_to_JSON_builder.py:371-379 | steps keep the order of their rows |
| RecipeBuilder.KeptStepsAllFilled | Recipe_to_JSON_builder.py:371-379 | when every row has a filled box, step j is row j stripped and typed `HowToStep` |
| RecipeBuilder.CollectSteps | Recipe_to_JSON_builder.py:371-379 | the loop appends exactly the kept steps, in row order |
| RecipeBuilder.NutritionKey | Recipe_to_JSON_builder.py:384-385 | a key, the text before the first colon, stripped, never holds a colon |
| RecipeBuilder.NutritionValue | Recipe_to_JSON_builder.py:384-385 | a value, the text after the first colon, is stripped and may hold further colons |
| RecipeBuilder.NutritionSnoc | Recipe_to_JSON_builder.py:382-385 | a line added at the end sets its key to its value when it has a colon, and changes nothing otherwise |
| RecipeBuilder.NutritionSplitAt | Recipe_to_JSON_builder.py:384 | the line is cut at the colon right after a colon-free key, whatever follows |
| RecipeBuilder.NutritionLineParts | Recipe_to_JSON_builder.py:384-385 | the key and value of `key:rest` are the stripped key and the stripped rest, colons in the rest included |
| RecipeBuilder.NutritionLineRoundTrip | Recipe_to_JSON_builder.py:382-385 | a line written `key: value` gives back that key and value |
| RecipeBuilder.NutritionKeyRecorded | Recipe_to_JSON_builder.py:382-385 | every line with a colon puts its key in the object |
| RecipeBuilder.NutritionKeySource | Recipe_to_JSON_builder.py:382-385 | every key of the object comes from a line with a colon |
| RecipeBuilder.NutritionKeys | Recipe_to_JSON_builder.py:382-385 | a key is in the object exactly when some line with a colon has it; lines without one contribute nothing |
| RecipeBuilder.NutritionLastWins | Recipe_to_JSON_builder.py:382-385 | a key's value comes from the last line with that key |
| RecipeBuilder.NutritionEntriesClean | Recipe_to_JSON_builder.py:382-385 | no key holds a colon, and every key and value is stripped |
| RecipeBuilder.ParseNutrition | Recipe_to_JSON_builder.py:382-385 | the loop over the box's lines ends with exactly the specified object |
| RecipeBuilder.BuildRecipe | Recipe_to_JSON_builder.py:309-388 | the document has the fixed `@context`, `@type` and author `@type` and the given `uuid`; every text and score field is the form's value; the five list fields are the comma lists of their fields, so they are clean; `recipeIngredient`, `recipeInstructions` and `nutrition` are exactly the kept ingredients, the kept steps and the nutrition object of the box's lines, so they are bounded by the rows and have the shapes above; its `conceptHash` is the concept's hash |
| RecipeBuilder.ConceptHashPersists | Recipe_to_JSON_builder.py:15-17 | two documents with the same concept get the same `conceptHash`, whatever their `uuid`, rows or other fields |
| RecipeBuilder.ConceptHashSurvivesRewording | Recipe_to_JSON_builder.py:15-22 | concepts differing only in ASCII case and whitespace give the same `conceptHash` |
| RecipeBuilder.VerificationFromOptions | Recipe_to_JSON_builder.py:87-98 | a consequence of the copied verification record: when the dropdowns hold one of their options, so does the document |
| RecipeBuilder.RecipeForm.constructor | Recipe_to_JSON_builder.py:183-219 | the form starts with one blank ingredient row and one blank instruction row |
| RecipeBuilder.RecipeForm.AddIngredientRow | Recipe_to_JSON_builder.py:190-196 | a blank row is appended to the ingredient rows; the instruction rows are unchanged |
| RecipeBuilder.RecipeForm.AddInstructionRow | Recipe_to_JSON_builder.py:210-215 | a blank row is appended to the instruction rows; the ingredient rows are unchanged |
| RecipeBuilder.RecipeForm.EditIngredientRow | Recipe_to_JSON_builder.py:191-195 | typing into an ingredient row replaces that row only |
| RecipeBuilder.RecipeForm.EditInstructionRow | Recipe_to_JSON_builder.py:211-214 | typing into an instruction row replaces that row only |
| RecipeBuilder.RecipeForm.Generate | Recipe_to_JSON_builder.py:305-400 | the handler builds exactly the specified document from the current rows and chooses the filename from the finished document |
| WorkedCases.CommaListCase | Recipe_to_JSON_builder.py:316 | `"a, b ,, c"` parses to `["a", "b", "c"]` |
| WorkedCases.GenerateFilenameCase | Recipe_to_JSON_builder.py:24-34 | `"Cabbage Roll"`, `"6"`, `"Golumpki!"` give `"cabbage_roll_6_golumpki.json"` |
| WorkedCases.CustomFilenameCases | Recipe_to_JSON_builder.py:398 | `"MyRecipe"` becomes `"MyRecipe.json"`; `"MyRecipe.json"` and `"Soup.JSON"` are unchanged |
| WorkedCases.NormalizedDash | Recipe_to_JSON_builder.py:19-21 | `"a - b"` normalises to `"a  b"`, with two spaces |
| WorkedCases.NormalizedSingleGap | Recipe_to_JSON_builder.py:19-21 | `"a b"` normalises to itself |
| WorkedCases.NormalizeNotIdempotent | Recipe_to_JSON_builder.py:19-21 | normalising `"a - b"` a second time changes it |
| WorkedCases.NutritionBoxCase | Recipe_to_JSON_builder.py:382-385 | `"calories: 200\nfat:10g\nbadline"` gives `{"calories": "200", "fat": "10g"}` |

## Left out

- The widgets, layouts, `display`, `clear_output`, the button wiring and the output area are user interface only. A row's widgets are represented by the values they hold.
- Writing the file and `files.download` are file I/O, and are not modelled. So are printing the JSON and the heading printed above it.
- `uuid.uuid4()` is randomness: the `uuid` is a parameter of `BuildRecipe` and `Generate`.
- `datetime.today()` reads the clock. It only feeds a placeholder text, so it is not modelled.
- MD5 over UTF-8 is a foreign digest. It is the parameter `digest`, a function on the normalised text, so only "same normalised text, same hash" can be proved.
- NFKC normalisation (`unicodedata.normalize`) is the identity in this model.
- PyStr.Lower: lowercases ASCII letters only. Python's `lower()` also lowercases other letters.
- `json.dumps` formatting and the order of the JSON members are not modelled. The document is a record whose fields follow the source's order.
- The nutrition object is a `map`, so the insertion order of its keys is not modelled.
- The `.get(..., default)` fallbacks in `generate_concept_hash` and `generate_filename` are not modelled. The handler's dictionary always holds those keys, so they never fire; the model reads the fields directly.
- The widget values are taken as given. An `IntText` holds an unbounded integer here, and a `Dropdown` holds one of its options, which `VerificationFromOptions` takes as a precondition.
