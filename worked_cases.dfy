/** Worked cases of the builder's text rules, each derived from the general
    lemmas. Each case is argued over variables first and then instantiated,
    which keeps every proof step small. */
module WorkedCases {
  import opened PyStr
  import opened RecipeText
  import opened RecipeBuilder

  // "a, b ,, c" is the list ["a", "b", "c"].

  lemma {:induction false} JoinedPieces()
    ensures Join(["a", " b ", "", " c"], ",") == "a, b ,, c"
  {
    var pieces := ["a", " b ", "", " c"];
    assert Join(pieces[3..], ",") == " c";
    assert Join(pieces[2..], ",") == ", c";
    assert Join(pieces[1..], ",") == " b ,, c";
  }

  lemma {:induction false} StripA()
    ensures Strip("a") == "a"
  {
    StripStripped("a");
  }

  lemma {:induction false} StripB()
    ensures Strip(" b ") == "b"
  {
    StripOfPadded(" ", "b", " ");
    assert " " + "b" + " " == " b ";
  }

  lemma {:induction false} StripEmpty()
    ensures Strip("") == ""
  {
    StripStripped("");
  }

  lemma {:induction false} StripC()
    ensures Strip(" c") == "c"
  {
    StripOfPadded(" ", "c", "");
    assert " " + "c" + "" == " c";
  }

  // The pieces are taken from the back, one step per piece; each step
  // knows only what its own piece strips to.

  lemma {:induction false} LastPieceKept(z: string, c: string)
    requires Strip(z) == c && c != ""
    ensures StripNonBlank([z]) == [c]
  {
    StripNonBlankCons(z, []);
    assert [z] + [] == [z];
  }

  lemma {:induction false} BlankPieceDropped(y: string, z: string, kept: seq<string>)
    requires Strip(y) == "" && StripNonBlank([z]) == kept
    ensures StripNonBlank([y, z]) == kept
  {
    StripNonBlankDrop(y, [z]);
    assert [y] + [z] == [y, z];
  }

  lemma {:induction false} SecondPieceKept(x: string, y: string, z: string, b: string, kept: seq<string>)
    requires Strip(x) == b && b != "" && StripNonBlank([y, z]) == kept
    ensures StripNonBlank([x, y, z]) == [b] + kept
  {
    StripNonBlankCons(x, [y, z]);
    assert [x] + [y, z] == [x, y, z];
  }

  lemma {:induction false} FirstPieceKept(w: string, x: string, y: string, z: string, a: string, kept: seq<string>)
    requires Strip(w) == a && a != "" && StripNonBlank([x, y, z]) == kept
    ensures StripNonBlank([w, x, y, z]) == [a] + kept
  {
    StripNonBlankCons(w, [x, y, z]);
    assert [w] + [x, y, z] == [w, x, y, z];
  }

  lemma {:induction false} LastPiece(z: string)
    requires Strip(z) == "c"
    ensures StripNonBlank([z]) == ["c"]
  {
    LastPieceKept(z, "c");
  }

  lemma {:induction false} BlankPiece(y: string, z: string)
    requires Strip(y) == "" && StripNonBlank([z]) == ["c"]
    ensures StripNonBlank([y, z]) == ["c"]
  {
    BlankPieceDropped(y, z, ["c"]);
  }

  lemma {:induction false} SecondPiece(x: string, y: string, z: string)
    requires Strip(x) == "b" && StripNonBlank([y, z]) == ["c"]
    ensures StripNonBlank([x, y, z]) == ["b", "c"]
  {
    SecondPieceKept(x, y, z, "b", ["c"]);
    assert ["b"] + ["c"] == ["b", "c"];
  }

  lemma {:induction false} FirstPiece(w: string, x: string, y: string, z: string)
    requires Strip(w) == "a" && StripNonBlank([x, y, z]) == ["b", "c"]
    ensures StripNonBlank([w, x, y, z]) == ["a", "b", "c"]
  {
    FirstPieceKept(w, x, y, z, "a", ["b", "c"]);
    assert ["a"] + ["b", "c"] == ["a", "b", "c"];
  }

  lemma {:induction false} CommaListCase()
    ensures CommaList("a, b ,, c") == ["a", "b", "c"]
  {
    JoinedPieces();
    CommaListOfJoin(["a", " b ", "", " c"]);
    StripA();
    StripB();
    StripEmpty();
    StripC();
    LastPiece(" c");
    BlankPiece("", " c");
    SecondPiece(" b ", "", " c");
    FirstPiece("a", " b ", "", " c");
  }

  // "Cabbage Roll", "6", "Golumpki!" is "cabbage_roll_6_golumpki.json".

  lemma {:induction false} LoweredName()
    ensures Lower("Cabbage Roll" + "_" + "6" + "_" + "Golumpki!") == "cabbage" + " " + "roll_6_golumpki!"
  {
  }

  lemma {:induction false} UnderscoreOneSpace(rest: string)
    requires rest != "" && !IsSpace(rest[0])
    ensures UnderscoreSpaces(" " + rest) == "_" + UnderscoreSpaces(rest)
  {
    assert LeadingSpaces(" " + rest) == 1 by {
      assert (" " + rest)[1..] == rest;
    }
    assert (" " + rest)[1..] == rest;
  }

  /** Two space-free words with one space between them. */
  lemma {:induction false} UnderscoreOneGap(w: string, rest: string)
    requires NoSpace(w) && NoSpace(rest) && rest != ""
    ensures UnderscoreSpaces(w + " " + rest) == w + "_" + rest
  {
    assert w + " " + rest == w + (" " + rest);
    UnderscoreSpacesPrefix(w, " " + rest);
    UnderscoreOneSpace(rest);
    UnderscoreSpacesNoSpace(rest);
    assert w + ("_" + rest) == w + "_" + rest;
  }

  lemma {:induction false} NameHeadHasNoSpace()
    ensures NoSpace("cabbage")
  {
  }

  lemma {:induction false} NameTailHasNoSpace()
    ensures NoSpace("roll_6_golumpki!")
  {
  }

  lemma {:induction false} UnderscoredName()
    ensures UnderscoreSpaces("cabbage" + " " + "roll_6_golumpki!") == "cabbage_roll_6_golumpki" + "!"
  {
    NameHeadHasNoSpace();
    NameTailHasNoSpace();
    UnderscoreOneGap("cabbage", "roll_6_golumpki!");
    assert "cabbage" + "_" + "roll_6_golumpki!" == "cabbage_roll_6_golumpki" + "!";
  }

  /** A kept part followed by a dropped part filters to the kept part. */
  lemma {:induction false} FilterKeptThenDropped(a: string, b: string, keep: char -> bool)
    requires Filter(a, keep) == a && Filter(b, keep) == ""
    ensures Filter(a + b, keep) == a
  {
    FilterAppend(a, b, keep);
    assert a + "" == a;
  }

  lemma {:induction false} StemKept()
    ensures Filter("cabbage_roll_6_golumpki", IsFilenameChar) == "cabbage_roll_6_golumpki"
  {
    FilterKeepsAll("cabbage_roll_6_golumpki", IsFilenameChar);
  }

  lemma {:induction false} BangDropped()
    ensures Filter("!", IsFilenameChar) == ""
  {
    FilterDropsAll("!", IsFilenameChar);
  }

  lemma {:induction false} FilteredName()
    ensures Filter("cabbage_roll_6_golumpki" + "!", IsFilenameChar) == "cabbage_roll_6_golumpki"
  {
    StemKept();
    BangDropped();
    FilterKeptThenDropped("cabbage_roll_6_golumpki", "!", IsFilenameChar);
  }

  lemma {:induction false} GenerateFilenameCase()
    ensures GenerateFilename("Cabbage Roll", "6", "Golumpki!") == "cabbage_roll_6_golumpki.json"
  {
    LoweredName();
    UnderscoredName();
    FilteredName();
  }

  // Custom names.

  lemma {:induction false} CustomFilenameCases()
    ensures CustomFilename("MyRecipe") == "MyRecipe.json"
    ensures CustomFilename("MyRecipe.json") == "MyRecipe.json"
    ensures CustomFilename("Soup.JSON") == "Soup.JSON"
  {
    assert Lower("MyRecipe")[3..] == "ecipe";
    assert Lower("MyRecipe.json")[8..] == ".json";
    assert Lower("Soup.JSON")[4..] == ".json";
  }

  // "a - b" normalises to "a  b": punctuation standing alone between spaces
  // leaves both spaces behind, because it is deleted after the whitespace
  // runs are collapsed. Normalising "a  b" again gives "a b", so the
  // normalisation is not idempotent.

  lemma {:induction false} SpacedTwo(x: string, y: string, gap: string)
    ensures Spaced([x, y], ["", gap, ""]) == x + gap + y
  {
    assert [x, y][1..] == [y] && [y][1..] == [];
    assert ["", gap, ""][1..] == [gap, ""] && [gap, ""][1..] == [""];
    assert Spaced([y], [gap, ""]) == gap + y + "";
    assert "" + x + (gap + y + "") == x + gap + y;
  }

  lemma {:induction false} SpacedThree(x: string, y: string, z: string, gap: string)
    ensures Spaced([x, y, z], ["", gap, gap, ""]) == x + gap + y + gap + z
  {
    assert [x, y, z][1..] == [y, z];
    assert ["", gap, gap, ""][1..] == [gap, gap, ""];
    SpacedTwo(y, z, gap);
  }

  lemma {:induction false} JoinedThree(x: string, y: string, z: string)
    ensures Join([x, y, z], " ") == x + " " + y + " " + z
  {
    assert [x, y, z][1..] == [y, z] && [y, z][1..] == [z];
    assert Join([y, z], " ") == y + " " + z;
  }

  /** Three words split by one space each, none with a capital letter. */
  lemma {:induction false} NormalizeThreeWords(x: string, y: string, z: string)
    requires x != "" && y != "" && z != "" && NoSpace(x) && NoSpace(y) && NoSpace(z)
    requires Lower(x + " " + y + " " + z) == x + " " + y + " " + z
    ensures NormalizeConcept(x + " " + y + " " + z) == Filter(x + " " + y + " " + z, NotPunctuation)
  {
    var concept := x + " " + y + " " + z;
    SpacedThree(x, y, z, " ");
    assert WellSpaced([x, y, z], ["", " ", " ", ""]);
    WordsOfSpaced([x, y, z], ["", " ", " ", ""]);
    JoinedThree(x, y, z);
  }

  /** Two words split by a run of spaces, none with a capital letter. */
  lemma {:induction false} NormalizeTwoWords(x: string, y: string, gap: string)
    requires x != "" && y != "" && NoSpace(x) && NoSpace(y) && gap != "" && AllSpace(gap)
    requires Lower(x + gap + y) == x + gap + y
    ensures NormalizeConcept(x + gap + y) == Filter(x + " " + y, NotPunctuation)
  {
    SpacedTwo(x, y, gap);
    assert WellSpaced([x, y], ["", gap, ""]);
    WordsOfSpaced([x, y], ["", gap, ""]);
    assert [x, y][1..] == [y];
    assert Join([x, y], " ") == x + " " + y;
  }

  lemma {:induction false} DashFiltered()
    ensures Filter("a" + " " + "-" + " " + "b", NotPunctuation) == "a  b"
  {
    FilterAppend("a", " ", NotPunctuation);
    FilterAppend("a" + " ", "-", NotPunctuation);
    FilterAppend("a" + " " + "-", " ", NotPunctuation);
    FilterAppend("a" + " " + "-" + " ", "b", NotPunctuation);
    assert Filter("-", NotPunctuation) == "" by {
      FilterDropsAll("-", NotPunctuation);
    }
  }

  lemma {:induction false} NormalizedDash()
    ensures NormalizeConcept("a - b") == "a  b"
  {
    assert Lower("a" + " " + "-" + " " + "b") == "a" + " " + "-" + " " + "b";
    NormalizeThreeWords("a", "-", "b");
    DashFiltered();
    assert "a" + " " + "-" + " " + "b" == "a - b";
  }

  lemma {:induction false} NormalizedSingleGap()
    ensures NormalizeConcept("a b") == "a b"
  {
    assert Lower("a" + " " + "b") == "a" + " " + "b";
    NormalizeTwoWords("a", "b", " ");
    FilterKeepsAll("a" + " " + "b", NotPunctuation);
    assert "a" + " " + "b" == "a b";
  }

  lemma {:induction false} NormalizedDoubleGap()
    ensures NormalizeConcept("a  b") == "a b"
  {
    assert Lower("a" + "  " + "b") == "a" + "  " + "b";
    NormalizeTwoWords("a", "b", "  ");
    FilterKeepsAll("a" + " " + "b", NotPunctuation);
    assert "a" + " " + "b" == "a b";
    assert "a" + "  " + "b" == "a  b";
  }

  lemma {:induction false} NormalizeNotIdempotent()
    ensures NormalizeConcept(NormalizeConcept("a - b")) != NormalizeConcept("a - b")
  {
    NormalizedDash();
    NormalizedDoubleGap();
    assert |"a b"| != |"a  b"|;
  }

  // The nutrition box "calories: 200\nfat:10g\nbadline" gives
  // {"calories": "200", "fat": "10g"}: the line without a colon is skipped.

  lemma {:induction false} NutritionBoxLines()
    ensures SplitLines("calories: 200\nfat:10g\nbadline") == ["calories: 200", "fat:10g", "badline"]
  {
    var lines := ["calories: 200", "fat:10g", "badline"];
    assert lines[1..] == ["fat:10g", "badline"] && lines[2..] == ["badline"];
    assert Join(lines, "\n") == "calories: 200\nfat:10g\nbadline";
    SplitLinesJoin(lines, "\n");
  }

  lemma {:induction false} CaloriesParts()
    ensures ':' !in "calories" && IsStripped("calories") && AllSpace(" ") && IsStripped("200")
  {
  }

  lemma {:induction false} CaloriesLine()
    ensures ':' in "calories: 200"
    ensures NutritionKey("calories: 200") == "calories" && NutritionValue("calories: 200") == "200"
  {
    CaloriesParts();
    NutritionLineRoundTrip("calories", " ", "200");
    assert "calories" + ":" + " " + "200" == "calories: 200";
  }

  lemma {:induction false} FatParts()
    ensures ':' !in "fat" && IsStripped("fat") && AllSpace("") && IsStripped("10g")
  {
  }

  lemma {:induction false} FatLine()
    ensures ':' in "fat:10g"
    ensures NutritionKey("fat:10g") == "fat" && NutritionValue("fat:10g") == "10g"
  {
    FatParts();
    NutritionLineRoundTrip("fat", "", "10g");
    assert "fat" + ":" + "" + "10g" == "fat:10g";
  }

  lemma {:induction false} FirstLine(a: string)
    requires ':' in a
    ensures NutritionOf([a]) == map[NutritionKey(a) := NutritionValue(a)]
  {
    assert [a][..0] == [];
  }

  lemma {:induction false} SecondLine(a: string, b: string)
    requires ':' in b
    ensures NutritionOf([a, b]) == NutritionOf([a])[NutritionKey(b) := NutritionValue(b)]
  {
    NutritionSnoc([a], b);
    assert [a] + [b] == [a, b];
  }

  lemma {:induction false} SkippedLine(a: string, b: string, c: string)
    requires ':' !in c
    ensures NutritionOf([a, b, c]) == NutritionOf([a, b])
  {
    NutritionSnoc([a, b], c);
    assert [a, b] + [c] == [a, b, c];
  }

  lemma {:induction false} ThreeLines(a: string, b: string, c: string)
    requires ':' in a && ':' in b && ':' !in c
    ensures NutritionOf([a, b, c]) == map[NutritionKey(a) := NutritionValue(a)][NutritionKey(b) := NutritionValue(b)]
  {
    FirstLine(a);
    SecondLine(a, b);
    SkippedLine(a, b, c);
  }

  lemma {:induction false} BadLine()
    ensures ':' !in "badline"
  {
  }

  lemma {:induction false} NutritionBoxCase()
    ensures NutritionOf(SplitLines("calories: 200\nfat:10g\nbadline")) == map["calories" := "200", "fat" := "10g"]
  {
    NutritionBoxLines();
    CaloriesLine();
    FatLine();
    BadLine();
    ThreeLines("calories: 200", "fat:10g", "badline");
  }
}
