/**
 * The text rules of the recipe builder: comma-separated list fields, the
 * normalised recipe concept and its hash, and the output filename.
 */
module RecipeText {
  import opened PyStr

  // ---------------------------------------------------------------------------
  // Character classes and filtering

  /** The 32 characters of Python's `string.punctuation`. */
  predicate IsPunctuation(c: char) {
    ('!' <= c <= '/') || (':' <= c <= '@') || ('[' <= c <= '`') || ('{' <= c <= '~')
  }

  predicate NotPunctuation(c: char) {
    !IsPunctuation(c)
  }

  /** The characters `[a-z0-9_]` a generated filename may keep. */
  predicate IsFilenameChar(c: char) {
    ('a' <= c <= 'z') || ('0' <= c <= '9') || c == '_'
  }

  /** ASCII lowercase letters and digits. */
  predicate IsLowerAlnum(c: char) {
    ('a' <= c <= 'z') || ('0' <= c <= '9')
  }

  /** The characters of `s` that satisfy `keep`, in order. */
  function Filter(s: string, keep: char -> bool): (r: string)
    ensures |r| <= |s|
    ensures forall i :: 0 <= i < |r| ==> keep(r[i])
    decreases |s|
  {
    if s == "" then ""
    else (if keep(s[0]) then [s[0]] else "") + Filter(s[1..], keep)
  }

  lemma {:induction false} FilterAppend(a: string, b: string, keep: char -> bool)
    ensures Filter(a + b, keep) == Filter(a, keep) + Filter(b, keep)
    decreases |a|
  {
    if a == "" {
      assert a + b == b;
    } else {
      assert (a + b)[1..] == a[1..] + b;
      FilterAppend(a[1..], b, keep);
    }
  }

  /** Filtering keeps every character that passes. */
  lemma {:induction false} FilterKeepsAll(s: string, keep: char -> bool)
    requires forall i :: 0 <= i < |s| ==> keep(s[i])
    ensures Filter(s, keep) == s
    decreases |s|
  {
    if s != "" {
      FilterKeepsAll(s[1..], keep);
    }
  }

  /** Filtering drops every character that fails. */
  lemma {:induction false} FilterDropsAll(s: string, keep: char -> bool)
    requires forall i :: 0 <= i < |s| ==> !keep(s[i])
    ensures Filter(s, keep) == ""
    decreases |s|
  {
    if s != "" {
      FilterDropsAll(s[1..], keep);
    }
  }

  /** A narrower filter after a wider one is the narrower filter alone. */
  lemma {:induction false} FilterTwice(s: string, wide: char -> bool, narrow: char -> bool)
    requires forall c :: narrow(c) ==> wide(c)
    ensures Filter(Filter(s, wide), narrow) == Filter(s, narrow)
    decreases |s|
  {
    if s != "" {
      var head := if wide(s[0]) then [s[0]] else "";
      FilterAppend(head, Filter(s[1..], wide), narrow);
      FilterTwice(s[1..], wide, narrow);
    }
  }

  // ---------------------------------------------------------------------------
  // Comma-separated list fields (deploy dates, alternative names, diets,
  // tools, keywords)

  /** `[x.strip() for x in segments if x.strip()]`. */
  function StripNonBlank(segments: seq<string>): (r: seq<string>)
    ensures |r| <= |segments|
    ensures forall i :: 0 <= i < |r| ==> r[i] != "" && IsStripped(r[i])
    decreases |segments|
  {
    if segments == [] then []
    else
      var s := Strip(segments[0]);
      var rest := StripNonBlank(segments[1..]);
      if s == "" then rest
      else
        assert forall i :: 1 <= i < |rest| + 1 ==> ([s] + rest)[i] == rest[i - 1];
        [s] + rest
  }

  /** The list a comma-separated field becomes: split on `,`, each piece
      stripped, blank pieces dropped. */
  function CommaList(field: string): (r: seq<string>)
    ensures forall i :: 0 <= i < |r| ==> r[i] != "" && IsStripped(r[i]) && ',' !in r[i]
  {
    var segments := Split(field, ',');
    StripNonBlankAvoids(segments, ',');
    StripNonBlank(segments)
  }

  lemma {:induction false} StripAvoids(s: string, c: char)
    requires c !in s
    ensures c !in Strip(s)
  {
    StripPadding(s);
    var a := LeadingSpaces(s);
    forall i | 0 <= i < |Strip(s)| ensures Strip(s)[i] != c {
      assert Strip(s)[i] == s[a + i];
    }
  }

  lemma {:induction false} StripNonBlankAvoids(segments: seq<string>, c: char)
    requires forall j :: 0 <= j < |segments| ==> c !in segments[j]
    ensures forall i :: 0 <= i < |StripNonBlank(segments)| ==> c !in StripNonBlank(segments)[i]
    decreases |segments|
  {
    if segments != [] {
      StripAvoids(segments[0], c);
      StripNonBlankAvoids(segments[1..], c);
    }
  }

  /** The list keeps the order of the pieces: the pieces of two texts in a
      row give the two lists in a row. */
  lemma {:induction false} StripNonBlankAppend(a: seq<string>, b: seq<string>)
    ensures StripNonBlank(a + b) == StripNonBlank(a) + StripNonBlank(b)
    decreases |a|
  {
    if a == [] {
      assert a + b == b;
    } else {
      assert (a + b)[0] == a[0] && (a + b)[1..] == a[1..] + b;
      StripNonBlankAppend(a[1..], b);
    }
  }

  /** The first piece, stripped, heads the list unless it is blank. */
  lemma {:induction false} StripNonBlankCons(piece: string, rest: seq<string>)
    ensures StripNonBlank([piece] + rest) == (if Strip(piece) == "" then [] else [Strip(piece)]) + StripNonBlank(rest)
  {
    assert ([piece] + rest)[1..] == rest;
  }

  /** A first piece that strips to nothing leaves no trace. */
  lemma {:induction false} StripNonBlankDrop(piece: string, rest: seq<string>)
    requires Strip(piece) == ""
    ensures StripNonBlank([piece] + rest) == StripNonBlank(rest)
  {
    assert ([piece] + rest)[1..] == rest;
  }

  /** A piece survives exactly when it is not blank, and then stripped. */
  lemma {:induction false} StripNonBlankOne(piece: string)
    ensures StripNonBlank([piece]) == (if AllSpace(piece) then [] else [Strip(piece)])
  {
    StripEmptyIffAllSpace(piece);
    assert [piece][1..] == [];
  }

  /** Pieces that are already non-blank and stripped all survive, in order
      and with their duplicates. */
  lemma {:induction false} StripNonBlankKeeps(items: seq<string>)
    requires forall i :: 0 <= i < |items| ==> items[i] != "" && IsStripped(items[i])
    ensures StripNonBlank(items) == items
    decreases |items|
  {
    if items != [] {
      StripStripped(items[0]);
      StripNonBlankKeeps(items[1..]);
    }
  }

  /** Parsing a field joined from pieces by commas gives the pieces' strip
      results, with the blank ones dropped. */
  lemma {:induction false} CommaListOfJoin(segments: seq<string>)
    requires |segments| >= 1
    requires forall i :: 0 <= i < |segments| ==> ',' !in segments[i]
    ensures CommaList(Join(segments, ",")) == StripNonBlank(segments)
  {
    SplitJoin(segments, ',');
  }

  /** Non-blank, stripped items without commas, joined by commas, parse back
      into the same items. */
  lemma {:induction false} CommaListRoundTrip(items: seq<string>)
    requires forall i :: 0 <= i < |items| ==> items[i] != "" && IsStripped(items[i]) && ',' !in items[i]
    ensures CommaList(Join(items, ",")) == items
  {
    if items == [] {
      assert Split("", ',') == [""];
      StripStripped("");
    } else {
      CommaListOfJoin(items);
      StripNonBlankKeeps(items);
    }
  }

  // ---------------------------------------------------------------------------
  // Recipe concept normalisation and hash

  /** The text `generate_concept_hash` digests: lowercased, whitespace runs
      collapsed to single spaces (which also trims the ends), then ASCII
      punctuation deleted. Unicode NFKC normalisation is the identity here. */
  function NormalizeConcept(concept: string): (r: string)
    ensures forall i :: 0 <= i < |r| ==> !IsPunctuation(r[i])
  {
    Filter(Join(Words(Lower(concept)), " "), NotPunctuation)
  }

  /** The digest of the normalised text, taken as a parameter:
      `generate_concept_hash` digests it with MD5 over its UTF-8 encoding. */
  type Digest = string -> string

  function ConceptHash(concept: string, digest: Digest): string {
    digest(NormalizeConcept(concept))
  }

  /** Concepts with the same words up to ASCII case normalise alike, however
      the words are spaced. */
  lemma {:induction false} NormalizeIgnoresCaseAndSpacing(a: string, b: string)
    requires LowerAll(Words(a)) == LowerAll(Words(b))
    ensures NormalizeConcept(a) == NormalizeConcept(b)
  {
    WordsLower(a);
    WordsLower(b);
  }

  /** Two concepts made of the same tokens up to ASCII case, separated by
      whitespace gaps of any length and kind, get the same hash. */
  lemma {:induction false} ConceptHashIgnoresCaseAndSpacing(
    tokens1: seq<string>, gaps1: seq<string>,
    tokens2: seq<string>, gaps2: seq<string>, digest: Digest)
    requires WellSpaced(tokens1, gaps1) && WellSpaced(tokens2, gaps2)
    requires |tokens1| == |tokens2|
    requires forall i :: 0 <= i < |tokens1| ==> Lower(tokens1[i]) == Lower(tokens2[i])
    ensures ConceptHash(Spaced(tokens1, gaps1), digest) == ConceptHash(Spaced(tokens2, gaps2), digest)
  {
    WordsOfSpaced(tokens1, gaps1);
    WordsOfSpaced(tokens2, gaps2);
    assert LowerAll(tokens1) == LowerAll(tokens2);
    NormalizeIgnoresCaseAndSpacing(Spaced(tokens1, gaps1), Spaced(tokens2, gaps2));
  }

  lemma {:induction false} NormalizeOfSpaced(concept: string, tokens: seq<string>, gaps: seq<string>)
    requires WellSpaced(tokens, gaps) && concept == Spaced(tokens, gaps)
    requires forall i :: 0 <= i < |concept| ==> !('A' <= concept[i] <= 'Z')
    ensures NormalizeConcept(concept) == Filter(Join(tokens, " "), NotPunctuation)
  {
    assert Lower(concept) == concept;
    WordsOfSpaced(tokens, gaps);
  }

  // ---------------------------------------------------------------------------
  // Filenames

  /** `re.sub(r'\s+', '_', s)`: every whitespace run becomes one `_`. */
  function UnderscoreSpaces(s: string): (r: string)
    ensures NoSpace(r)
    decreases |s|
  {
    if s == "" then ""
    else if IsSpace(s[0]) then
      var n := LeadingSpaces(s);
      "_" + UnderscoreSpaces(s[n..])
    else [s[0]] + UnderscoreSpaces(s[1..])
  }

  /** The stem `generate_filename` builds from a text: lowercased, whitespace
      runs turned into `_`, everything outside `[a-z0-9_]` deleted. */
  function FilenameStem(text: string): (r: string)
    ensures forall i :: 0 <= i < |r| ==> IsFilenameChar(r[i])
  {
    Filter(UnderscoreSpaces(Lower(text)), IsFilenameChar)
  }

  /** `generate_filename`: `name_yield_concept`, made a stem, plus `.json`. */
  function GenerateFilename(name: string, yieldValue: string, concept: string): (r: string)
    ensures EndsWith(r, ".json")
    ensures forall i :: 0 <= i < |r| - 5 ==> IsFilenameChar(r[i])
  {
    FilenameStem(name + "_" + yieldValue + "_" + concept) + ".json"
  }

  lemma {:induction false} UnderscoreSpacesNoSpace(s: string)
    requires NoSpace(s)
    ensures UnderscoreSpaces(s) == s
    decreases |s|
  {
    if s != "" {
      UnderscoreSpacesNoSpace(s[1..]);
    }
  }

  lemma {:induction false} UnderscoreSpacesPrefix(w: string, rest: string)
    requires NoSpace(w)
    ensures UnderscoreSpaces(w + rest) == w + UnderscoreSpaces(rest)
    decreases |w|
  {
    if w == "" {
      assert w + rest == rest;
    } else {
      assert (w + rest)[0] == w[0] && (w + rest)[1..] == w[1..] + rest;
      UnderscoreSpacesPrefix(w[1..], rest);
    }
  }

  /** A whitespace run, of any length and kind, becomes a single `_`. */
  lemma {:induction false} UnderscoreSpacesRun(gap: string, rest: string)
    requires gap != "" && AllSpace(gap) && (rest == "" || !IsSpace(rest[0]))
    ensures UnderscoreSpaces(gap + rest) == "_" + UnderscoreSpaces(rest)
  {
    LeadingSpacesAfterSpace(gap, rest);
    assert (gap + rest)[0] == gap[0];
    assert (gap + rest)[|gap|..] == rest;
  }

  lemma {:induction false} UnderscoreSpacesAlnum(s: string)
    ensures Filter(UnderscoreSpaces(s), IsLowerAlnum) == Filter(s, IsLowerAlnum)
    decreases |s|
  {
    if s != "" {
      if IsSpace(s[0]) {
        var n := LeadingSpaces(s);
        UnderscoreSpacesAlnum(s[n..]);
        FilterAppend("_", UnderscoreSpaces(s[n..]), IsLowerAlnum);
        assert s == s[..n] + s[n..];
        FilterAppend(s[..n], s[n..], IsLowerAlnum);
        FilterDropsAll(s[..n], IsLowerAlnum);
      } else {
        UnderscoreSpacesAlnum(s[1..]);
        FilterAppend([s[0]], UnderscoreSpaces(s[1..]), IsLowerAlnum);
        FilterAppend([s[0]], s[1..], IsLowerAlnum);
        assert s == [s[0]] + s[1..];
      }
    }
  }

  /** The stem loses no ASCII letter or digit of the text: its letters and
      digits are exactly those of the lowercased text, in order. (After
      lowercasing no ASCII capital is left.) */
  lemma {:induction false} FilenameStemKeepsAlnum(text: string)
    ensures Filter(FilenameStem(text), IsLowerAlnum) == Filter(Lower(text), IsLowerAlnum)
  {
    var t := UnderscoreSpaces(Lower(text));
    FilterTwice(t, IsFilenameChar, IsLowerAlnum);
    UnderscoreSpacesAlnum(Lower(text));
  }

  /** Making a stem of a stem changes nothing. */
  lemma {:induction false} FilenameStemIdempotent(text: string)
    ensures FilenameStem(FilenameStem(text)) == FilenameStem(text)
  {
    var r := FilenameStem(text);
    assert Lower(r) == r;
    UnderscoreSpacesNoSpace(r);
    FilterKeepsAll(r, IsFilenameChar);
  }

  /** A filename ends in `.json` when its lowercased form does. */
  predicate HasJsonSuffix(s: string) {
    EndsWith(Lower(s), ".json")
  }

  /** The operator's filename, made to end in `.json` (compared without
      regard to ASCII case) by appending the suffix when it is missing. */
  function CustomFilename(custom: string): (r: string)
    ensures HasJsonSuffix(r)
    ensures HasJsonSuffix(custom) ==> r == custom
    ensures !HasJsonSuffix(custom) ==> r == custom + ".json"
    ensures custom <= r && |r| <= |custom| + 5
  {
    if HasJsonSuffix(custom) then custom
    else
      LowerAppend(custom, ".json");
      assert Lower(".json") == ".json";
      custom + ".json"
  }

  /** The filename the builder writes to: the stripped filename field when it
      is not blank, made by `CustomFilename`, otherwise the generated one. */
  function ChooseFilename(filenameField: string, name: string, yieldValue: string, concept: string): (r: string)
    ensures HasJsonSuffix(r) && IsStripped(r) && r != ""
    ensures Strip(filenameField) != "" ==> Strip(filenameField) <= r
    ensures Strip(filenameField) != "" && HasJsonSuffix(Strip(filenameField)) ==> r == Strip(filenameField)
    ensures Strip(filenameField) != "" && !HasJsonSuffix(Strip(filenameField)) ==> r == Strip(filenameField) + ".json"
    ensures Strip(filenameField) == "" ==> r == GenerateFilename(name, yieldValue, concept)
  {
    var custom := Strip(filenameField);
    if custom != "" then
      var r := CustomFilename(custom);
      assert r[0] == custom[0];
      assert Lower(r)[|r| - 5..][4] == 'n';
      assert LowerChar(r[|r| - 1]) == 'n';
      r
    else
      var r := GenerateFilename(name, yieldValue, concept);
      assert r[|r| - 1] == 'n';
      assert r[0] == '.' || IsFilenameChar(r[0]);
      assert Lower(r) == r;
      r
  }

  /** Choosing the filename again, with the chosen name in the filename
      field, keeps it. */
  lemma {:induction false} ChooseFilenameIdempotent(filenameField: string, name: string, yieldValue: string, concept: string)
    ensures var r := ChooseFilename(filenameField, name, yieldValue, concept);
            ChooseFilename(r, name, yieldValue, concept) == r
  {
    var r := ChooseFilename(filenameField, name, yieldValue, concept);
    StripStripped(r);
  }
}
