# Brand classifier model

A Dafny model of the brand checker in `src/App.jsx` of the go-no-go widget. A user types a beer
brand. The widget answers "owned" (the company's own list), "competitors" (the rival list) or
"not owned", and offers up to five suggested names.

The model covers:

- **The normaliser** (`normalize`). It applies canonical decomposition, deletes diacritics,
  lower-cases, turns every non-letter/number/white-space character into a space, collapses
  white-space runs and trims. Modules `CharClass` and `Normalizer`.
- **The reference data**: the owned list, the competitor list, the alias table, the alias lookup
  and the combined fuzzy-search index. Module `Brands`.
- **The local lookup inside `fetchBrandInfo`**. Four tiers run in order: exact match on the
  alias-substituted key, substring match on the plain normal form, a best fuzzy result that
  carries a score of at most 0.25, and otherwise "not owned" with the fuzzy names as suggestions.
  As the engine is configured, its results carry no score, so the third tier never fires (see
  Findings). The remote mode is a stub that
  always fails. Module `Classifier`.
- **The screen rules of the `App` component**: the disabled guard of the check button, live
  suggestions while typing, and the check with its fallback to "not owned" when the lookup throws.
  Module `CheckScreen`.
- **Facts about the shipped catalog**. Module `DefaultCatalog`.
- **How the code as written actually reads the alias object**. Module `AliasQuirk`; see Findings.

The fuzzy-search engine (Fuse.js) is a parameter: a function from the index and the raw query to
entries, best first. Each entry carries a score only when the engine is built to report scores
(`Classifier.Hit`), and a score is only ever compared with 0.25. `Classifier.Unscored` turns an
engine into the same engine built without scores. The catalog is a
parameter too, and `Brands.Default` holds the shipped constants. The tier lemmas are stated for
any normaliser function `norm`. `FetchBrandInfo`, and so the screen, runs them with
`Normalizer.Normalize`.

Characters are modelled over a fixed repertoire:

- U+0000–U+00FF;
- the modifier letters and combining marks U+02B0–U+036F;
- every ECMAScript white-space code point.

Within it the tables follow Unicode: Letter, Number, Diacritic, the simple lower-case mapping and
the canonical decomposition of the Latin-1 letters. A character outside the repertoire is treated
as a symbol.

Behaviours of the code worth knowing:

- Tier 2 tests containment of the plain normal form of the query, not the alias-substituted key
  (`src/App.jsx:181-189`).
- A query of symbols only, such as `"!!!"`, normalises to the empty string. The empty string is
  contained in every name, so tier 2 answers "owned" (`DefaultCatalog.SymbolsOnlyAreOwned`).
  Blank input never reaches the lookup, because the button is disabled for it.

## Model

| member | source | states |
|---|---|---|
| CharClass.Lower | src/App.jsx:100 | Lower-casing maps each ASCII capital to its own small letter and leaves ASCII small letters as they are. It keeps a character a letter, a number or white space exactly when it was one. |
| CharClass.Decompose | src/App.jsx:98 | A code point decomposes to itself, or to a base letter followed by one diacritic. |
| CharClass.DecomposeLower | src/App.jsx:98-100 | Lower-casing commutes with decomposition and keeps the Diacritic property. |
| Normalizer.NfdIsFinal | src/App.jsx:98 | After decomposition no character decomposes further. |
| Normalizer.StripDiacritics | src/App.jsx:99 | A character survives diacritic removal exactly when it was present and is not a diacritic. |
| Normalizer.CollapseSpaces | src/App.jsx:102 | After collapsing, no two white-space characters are adjacent. Every character is `' '` or a non-space character of the input. The non-space characters are unchanged, in order. A leading run becomes a leading `' '`. |
| Normalizer.CollapseRun | src/App.jsx:102 | A white-space run between a part that does not end in white space and a part that does not start with it becomes exactly one `' '`. The two parts are collapsed on their own, so the words on either side are never merged. |
| Normalizer.CollapseKeepsWord | src/App.jsx:102 | A string without white space is unchanged, so collapsing never splits a word. |
| Normalizer.Trim | src/App.jsx:103 | The result is the input minus white space on both sides, and it neither starts nor ends with white space. |
| Normalizer.TrimEmptyIffBlank | src/App.jsx:103 | Trimming gives the empty string exactly when every character is white space. |
| Normalizer.NormalizeShape | src/App.jsx:96-103 | Every normal form holds only lower-case settled letters and numbers and single spaces. It has no leading or trailing space. The empty string normalises to itself. |
| Normalizer.NormalizeFixpoint | src/App.jsx:96-103 | A string of the normalised shape is unchanged by the normaliser. |
| Normalizer.NormalizeIdempotent | src/App.jsx:96-103 | Normalising twice equals normalising once. |
| Normalizer.NormalizeIgnoresCase | src/App.jsx:96-103 | Lower-casing the input first does not change its normal form. |
| Normalizer.NormalizeIgnoresDiacritic | src/App.jsx:98-99 | Inserting a diacritic anywhere does not change the normal form. |
| Normalizer.NormalizeIgnoresAccent | src/App.jsx:98-99 | A precomposed accented letter anywhere in the input normalises like its base letter. |
| Normalizer.AcuteOIsO | src/App.jsx:98-99 | An `ó` anywhere in the input normalises like `o`, so "córona" and "corona" have the same normal form. |
| Normalizer.NormalizeIgnoresComposition | src/App.jsx:98 | A precomposed spelling and its decomposed spelling have the same normal form. |
| Normalizer.WordCharSurvives | src/App.jsx:96-103 | A string holding a letter or number that is not a diacritic and does not decompose never normalises to the empty string. |
| Normalizer.NoWordCharVanishes | src/App.jsx:101-103 | When decomposition, diacritic removal and lower-casing leave no letter or number, the normal form is empty. |
| Normalizer.SpellingNormalizes | src/App.jsx:96-103 | Any capitalisation of plain lower-case words normalises to those words. |
| Brands.BuildIndex | src/App.jsx:112-116 | The index lists every owned name tagged owned, then every competitor name tagged competitors, in list order. |
| Brands.IndexEntriesComeFromTheirList | src/App.jsx:113-116 | An index entry's tag names the list its name comes from. |
| Brands.DefaultAliases | src/App.jsx:33-38 | The shipped alias table has exactly the four declared keys. The lookup answers exactly for them, and each canonical name is an owned name. |
| Classifier.SomeEqual | src/App.jsx:170-177 | The scan answers true exactly when some listed name has the key as its normal form. |
| Classifier.Includes | src/App.jsx:182 | Containment holds exactly when the needle occurs at some offset of the text. |
| Classifier.FindContaining | src/App.jsx:181-189 | The search finds nothing exactly when no normalised name contains the query. Otherwise it returns the first name that does. |
| Classifier.FindIsTruthy | src/App.jsx:181-189 | The substring tier fires exactly when the first containing name is not the empty string. |
| Classifier.Top | src/App.jsx:192 | At most five results are kept: a prefix of the search results, all of them when there are fewer than five. |
| Classifier.Classify | src/App.jsx:163-203 | No lookup offers more than five suggestions. |
| Classifier.FetchBrandInfo | src/App.jsx:156-203 | The lookup fails exactly in remote mode. |
| Classifier.ClassifyIsTiered | src/App.jsx:163-203 | The lookup equals a declarative chain of tiers: exact owned, exact competitor, first containing owned name, first containing competitor name, then the confident best result or "not owned". The chain uses quantifiers over list positions and reads the alias table directly. |
| Classifier.FallsToFuzzy | src/App.jsx:191-202 | When neither list matches, the answer comes from the first five search results alone. |
| Classifier.ExactOwnedWins | src/App.jsx:169-173 | An owned name equal to the key answers owned with no suggestions, whatever competitor names match too. |
| Classifier.ExactCompetitor | src/App.jsx:175-178 | With no owned name equal to the key, an equal competitor name answers competitors with no suggestions. |
| Classifier.SpellingOfOwnedIsOwned | src/App.jsx:169-173 | Any query that normalises like an owned name, and is not an alias, is owned. |
| Classifier.CanonicalOwnedIsOwned | src/App.jsx:164-173 | An alias hit whose canonical name is an owned name answers owned. |
| Classifier.ListTiersSeeOnlyNormalForm | src/App.jsx:164-189 | Queries with equal normal forms are decided by the lists alike, and then get the same answer. With equal search results they always get the same answer. |
| Classifier.ListVerdictIgnoresCase | src/App.jsx:164-189 | Capitals never change a verdict that the lists decide. |
| Classifier.SubstringOwned | src/App.jsx:180-184 | After tier 1 fails, a non-empty first owned name containing the plain normal form answers owned. |
| Classifier.SubstringCompetitor | src/App.jsx:186-189 | Competitor containment decides only when the owned search gives nothing. |
| Classifier.EmptyQueryIsOwned | src/App.jsx:180-184 | When no competitor name normalises to the tier-1 key of the empty query, an empty normal form is contained in every name, so a non-empty first owned name makes it owned. |
| Classifier.FuzzyTiers | src/App.jsx:191-202 | With no list match, a best result carrying a score of at most 0.25 adopts its entry's list and offers the other kept names in order. Otherwise, with no score or a larger one, the answer is "not owned" with all kept names. |
| Classifier.StripScores | src/App.jsx:117-122 | Building the engine without scores keeps every result and its order, and removes the scores. |
| Classifier.UnscoredNeverConfident | src/App.jsx:191-202 | With the engine built without scores, every query the lists do not decide is answered "not owned", offering the names of the first five results. |
| Classifier.FuzzyKindFollowsIndex | src/App.jsx:196-198 | A confident best result at index position p answers owned when p falls in the owned part of the index, and competitors otherwise. |
| Classifier.SuggestionsComeFromSearch | src/App.jsx:191-202 | Suggestions are none, all kept search names, or all but the best. "Not owned" always offers all of them. |
| Classifier.SuggestionsMeanNoListMatch | src/App.jsx:169-193 | A non-empty suggestion list means that tiers 1 and 2 both failed: no list name equals the key, and the first name containing the query, in either list, is absent or empty. |
| CheckScreen.IsButtonDisabled | src/App.jsx:223-224 | The button is disabled exactly while a check runs or when the input is all white space. |
| CheckScreen.LiveFeed | src/App.jsx:234-243 | Blank input offers nothing. Otherwise the feed offers the names of the first five search results for the trimmed input, in order. The drop-down opens exactly when there is a name. |
| CheckScreen.OnBrandInput | src/App.jsx:232-246 | Typing changes only the text and, when the trimmed text changed, the offered names and the drop-down. These then become what the live-suggestion rule gives for the new text: the names of the first five search results for the trimmed text. The drop-down opens exactly when there is a name. |
| CheckScreen.BeginCheck | src/App.jsx:254-257 | A disabled press changes nothing. Otherwise the check is marked running, the verdict is cleared, and the rest is kept. |
| CheckScreen.SettleCheck | src/App.jsx:259-269 | A failed lookup sets only the verdict "not owned". A successful one sets its verdict and suggestions and opens the drop-down exactly for "not owned" with names. Either way the check stops running. |
| CheckScreen.CheckBrand | src/App.jsx:254-270 | A disabled press changes nothing. Otherwise the check ends with a verdict, not running, and with the text unchanged. |
| CheckScreen.NoDoubleSubmit | src/App.jsx:254-256 | While a check runs the button is disabled, and pressing it again changes nothing. |
| CheckScreen.ApiModeFallsBack | src/App.jsx:264-268 | In remote mode a check only sets the verdict "not owned" and leaves everything else as it was. |
| CheckScreen.LocalCheckShowsClassification | src/App.jsx:259-263 | A local check shows the lookup's verdict and suggestions for the trimmed input. The drop-down opens exactly for "not owned" with names. |
| CheckScreen.NotOwnedCheckMatchesLiveFeed | src/App.jsx:260-263 | After a local "not owned" check, the drop-down shows exactly what the live-suggestion rule shows for the same text. |
| CheckScreen.ListedCheckClosesDropdown | src/App.jsx:263 | A listed verdict never opens the drop-down. |
| CheckScreen.RulesKeepCoherence | src/App.jsx:232-270 | Every rule keeps two facts: the drop-down is open only with names in it, and no verdict is shown while a check runs. The "no close matches" row of the drop-down can therefore never appear. |
| DefaultCatalog.AliasHitIsOwned | src/App.jsx:164-173 | On the shipped catalog every alias hit answers owned. |
| DefaultCatalog.StellaIsOwned | src/App.jsx:33-38 | On the shipped catalog any capitalisation of "stella" is owned, through its alias. |
| DefaultCatalog.NamesDoNotVanish | src/App.jsx:12-30 | No shipped name normalises to the empty string. |
| DefaultCatalog.SymbolsVanish | src/App.jsx:96-103 | The query `!!!` normalises to the empty string. |
| DefaultCatalog.SymbolsOnlyAreOwned | src/App.jsx:180-184 | On the shipped catalog the query `!!!` is answered owned by tier 2, whatever the search returns. |
| AliasQuirk.ReadAlias | src/App.jsx:107 | Indexing the alias object finds a declared entry exactly for a declared key. It finds an inherited member exactly for an undeclared name of the object prototype. |
| AliasQuirk.FetchAsWritten | src/App.jsx:156-178 | As written, the lookup fails in remote mode. It also fails when the query names an inherited member and a list is not empty. |
| AliasQuirk.AsWrittenAgreesElsewhere | src/App.jsx:106-109 | Away from inherited names, the lookup as written and the finite-map reading agree. |
| AliasQuirk.OnlyConstructorIsReachable | src/App.jsx:107 | Of the inherited names, only "constructor" has the shape of a normal form. |
| AliasQuirk.ConstructorIsNormal | src/App.jsx:106-107 | The name "constructor" is its own normal form, so it reaches the alias lookup unchanged. |
| AliasQuirk.ConstructorThrows | src/App.jsx:164-178 | A query normalising to "constructor" makes the lookup as written fail, while the finite-map reading succeeds. |
| AliasQuirk.ConstructorThrowsOnDefault | src/App.jsx:164-178 | On the shipped catalog the query "constructor" makes the lookup as written fail. |

## Left out

- The Fuse.js ranking and its threshold, location and minimum-length options
  (`src/App.jsx:117-122`) are not modelled. Search is a parameter, and nothing is assumed about
  its ranking or the values of its scores. The only part of the options the model reflects is
  whether scores are reported (see Findings). Floating-point behaviour of the scores is not
  modelled.
- Unicode outside the modelled repertoire is treated as symbols: other scripts, other
  decompositions, special case mappings. Canonical reordering of several combining marks is not
  modelled. It cannot change a normal form: every combining mark is either deleted as a
  diacritic or turned into a space that then collapses, wherever it stands in a run of marks.
- Six code points inside the repertoire keep their canonical decompositions unapplied: U+0340,
  U+0341, U+0343 and U+0344 (combining marks) and U+2000, U+2001 (spaces). No normal form changes,
  because those marks and their decompositions are all deleted as diacritics, and those spaces
  and theirs are all white space.
- The remote branch (`src/App.jsx:157-161`) is modelled only as a failure outcome.
- Asynchrony is not modelled. The typing effect and the check are each one atomic step. Input
  typed while a check is pending, and React's batching of state updates, are outside the model.
- The `suggestions || []` default is not modelled: in local mode the lookup always returns a
  list.
- `selectSuggestion` (`src/App.jsx:248-252`), the focus and blur handlers (`src/App.jsx:300-301`,
  the latter a timer) and the Enter key handler are not modelled. The Enter handler
  (`src/App.jsx:272-277`) only calls the check, which `CheckScreen.CheckBrand` models.
- Rendering, animation, locale choice, message tables, the UI wrapper components and the
  `copy-404` build script are presentation or file I/O and are not modelled.
- The claim that fuzzy suggestions are ordered by score is not modelled. It is a property of the
  search engine, which is a parameter here.
- Which names the engine offers for a given query, such as the misspelling "Budwiser", is not
  modelled. It depends on the engine's ranking, which is a parameter.
- Classifier.Classify: its own contract only bounds the number of suggestions. What the lookup
  answers is stated by `Classifier.ClassifyIsTiered` and the tier lemmas, which keep each proof
  small.

## Findings

| source | as written | input that shows it | evidently intended | confidence | as-written member | corrected member |
|---|---|---|---|---|---|---|
| src/App.jsx:106-109 | The alias table is a plain object, and indexing it also finds inherited members. For "constructor" it yields the `Object` function. That value is truthy, so it is taken as the canonical name, and normalising it throws inside the exact tier. The check then shows "not owned" without running the tiers or updating the suggestions. | the query `constructor` | Only the four declared keys are aliases. "constructor" goes through the tiers like any other word. | medium; not executed | AliasQuirk.ConstructorThrows | Brands.DefaultAliases |
| src/App.jsx:196 | The engine is built without the option that makes Fuse.js report scores (lines 117-122), and that option is off by default. The results then have no `score` field. The test at line 196 compares an absent value with 0.25, which is false, so the tier that classifies by a close best result never fires. Every query that neither list decides is answered "not owned". | any query that neither list decides, such as the misspelling `budwiser` | A close best result adopts its list, as lines 195-199 intend. This needs the engine built with scores reported. | medium; not executed | Classifier.UnscoredNeverConfident | Classifier.FuzzyTiers |

The corrected reading is the one the rest of the model uses: `Brands.AliasToCanonical` over the
finite map of the declared entries. `Brands.DefaultAliases` proves that it answers exactly the
four keys. `AliasQuirk.AsWrittenAgreesElsewhere` shows that this is the only place where the two
readings differ.

For the scores, the engine stays a parameter throughout the model, so every lemma covers both
builds. `Classifier.Unscored` gives the build as written. `Classifier.FuzzyTiers` states the
intended tier for an engine that reports scores, and `Classifier.UnscoredNeverConfident` shows
what remains of it as written.
