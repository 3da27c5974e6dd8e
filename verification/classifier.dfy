/**
 * The local brand lookup: four tiers tried in order, the first that decides wins.
 *   1. exact equality with the alias-substituted key, owned list before competitor list;
 *   2. the plain normalised query contained in a normalised name, owned list first;
 *   3. the best of the first five fuzzy-search results, when it carries a score of at
 *      most 0.25;
 *   4. otherwise "not owned", offering the fuzzy-search names as suggestions.
 * The fuzzy-search engine is a parameter: a function from the index and the raw query to
 * entries, best first, each with its score when the engine is asked to report scores. The tiers are stated for any text normaliser `norm`; the
 * application runs them with `Normalize`, which is what `FetchBrandInfo` passes.
 */
module Classifier {
  import opened Outcomes
  import opened Normalizer
  import opened Brands

  /** The verdict shown to the user. */
  datatype Category = Listed(kind: Kind) | NotOwned

  /**
   * One fuzzy-search result: an index entry and its score (0 is a perfect match). The
   * score is `None` when the engine was not asked to report scores: the field is then
   * absent, and comparing an absent field with a number is false.
   */
  datatype Hit = Hit(item: Entry, score: Option<real>)

  /** The answer of a lookup: the verdict and the names offered as suggestions. */
  datatype Lookup = Lookup(result: Category, suggestions: seq<string>)

  /** The fuzzy-search engine built over the index, applied to a query. */
  type Searcher = (seq<Entry>, string) -> seq<Hit>

  /** A text normaliser applied to the query and to every listed name. */
  type Normaliser = string -> string

  /** How many fuzzy-search results are kept. */
  const MaxSuggestions: nat := 5

  /** The largest best score that still classifies by the best result. */
  const ConfidentScore: real := 0.25

  /** Whether some name of `names` has `key` as its normal form. */
  function SomeEqual(norm: Normaliser, names: seq<string>, key: string): (b: bool)
    ensures b <==> exists i :: 0 <= i < |names| && norm(names[i]) == key
  {
    if names == [] then false
    else norm(names[0]) == key || SomeEqual(norm, names[1..], key)
  }

  /** `needle` occurs in `hay` starting at offset `i`. */
  ghost predicate OccursAt(hay: string, needle: string, i: int) {
    0 <= i <= |hay| - |needle| && hay[i..i + |needle|] == needle
  }

  /** Substring containment: `needle` occurs in `hay` at some offset. */
  function Includes(hay: string, needle: string): (b: bool)
    ensures b <==> exists i :: OccursAt(hay, needle, i)
    decreases |hay|
  {
    if needle <= hay then
      assert OccursAt(hay, needle, 0);
      true
    else if hay == [] then false
    else
      var b := Includes(hay[1..], needle);
      IncludesShift(hay, needle);
      b
  }

  lemma IncludesShift(hay: string, needle: string)
    requires hay != [] && !(needle <= hay)
    ensures (exists i :: OccursAt(hay, needle, i)) <==> exists i :: OccursAt(hay[1..], needle, i)
  {
    if i :| OccursAt(hay, needle, i) {
      assert hay[1..][i - 1..i - 1 + |needle|] == hay[i..i + |needle|];
      assert OccursAt(hay[1..], needle, i - 1);
    }
    if i :| OccursAt(hay[1..], needle, i) {
      assert hay[1..][i..i + |needle|] == hay[i + 1..i + 1 + |needle|];
      assert OccursAt(hay, needle, i + 1);
    }
  }

  /** Index `i` holds the first name of `names` whose normal form contains `qNorm`. */
  ghost predicate FirstContaining(norm: Normaliser, names: seq<string>, qNorm: string, i: int) {
    && 0 <= i < |names| && Includes(norm(names[i]), qNorm)
    && forall j :: 0 <= j < i ==> !Includes(norm(names[j]), qNorm)
  }

  /** The first name of `names` whose normal form contains `qNorm`, if any. */
  function FindContaining(norm: Normaliser, names: seq<string>, qNorm: string): (r: Option<string>)
    ensures r.None? <==> forall i :: 0 <= i < |names| ==> !Includes(norm(names[i]), qNorm)
    ensures r.Some? ==> exists i :: FirstContaining(norm, names, qNorm, i) && names[i] == r.value
  {
    if names == [] then None
    else if Includes(norm(names[0]), qNorm) then
      assert FirstContaining(norm, names, qNorm, 0);
      Some(names[0])
    else
      var r := FindContaining(norm, names[1..], qNorm);
      if r.Some? then
        FirstContainingShift(norm, names, qNorm, r.value);
        r
      else r
  }

  lemma FirstContainingShift(norm: Normaliser, names: seq<string>, qNorm: string, name: string)
    requires names != [] && !Includes(norm(names[0]), qNorm)
    requires exists i :: FirstContaining(norm, names[1..], qNorm, i) && names[1..][i] == name
    ensures exists i :: FirstContaining(norm, names, qNorm, i) && names[i] == name
  {
    var i :| FirstContaining(norm, names[1..], qNorm, i) && names[1..][i] == name;
    forall j | 0 <= j < i + 1
      ensures !Includes(norm(names[j]), qNorm)
    {
      if j > 0 {
        assert names[j] == names[1..][j - 1];
      }
    }
    assert FirstContaining(norm, names, qNorm, i + 1);
  }

  /** JavaScript truthiness of a found name: present and not the empty string. */
  predicate Truthy(o: Option<string>) {
    o.Some? && o.value != ""
  }

  /** The key of the exact tier: the normalised canonical name on an alias hit, else the query. */
  function ExactKey(norm: Normaliser, cat: Catalog, qNorm: string): string {
    match AliasToCanonical(cat.aliases, qNorm)
    case Some(canonical) => norm(canonical)
    case None => qNorm
  }

  /** The first `MaxSuggestions` results, or all of them when there are fewer. */
  function Top(hits: seq<Hit>): (r: seq<Hit>)
    ensures |r| <= MaxSuggestions && r <= hits
    ensures |r| < MaxSuggestions ==> r == hits
  {
    if |hits| <= MaxSuggestions then hits else hits[..MaxSuggestions]
  }

  /** The names of the entries of `hits`, in order. */
  function Names(hits: seq<Hit>): (r: seq<string>)
    ensures |r| == |hits|
  {
    seq(|hits|, i requires 0 <= i < |hits| => hits[i].item.name)
  }

  /** The fuzzy-search results the lookup considers for `query`. */
  function FuzzyTop(cat: Catalog, search: Searcher, query: string): seq<Hit> {
    Top(search(BuildIndex(cat), query))
  }

  /** Whether a result carries a score good enough to classify by it. */
  predicate Confident(h: Hit) {
    h.score.Some? && h.score.value <= ConfidentScore
  }

  /** Tiers 3 and 4 over the kept fuzzy results. */
  function FuzzyVerdict(top: seq<Hit>): Lookup {
    if |top| > 0 && Confident(top[0]) then Lookup(Listed(top[0].item.kind), Names(top)[1..])
    else Lookup(NotOwned, Names(top))
  }

  /** The local branch of the lookup, for an already trimmed query. */
  function Classify(norm: Normaliser, cat: Catalog, search: Searcher, query: string): (r: Lookup)
    ensures |r.suggestions| <= MaxSuggestions
  {
    var qNorm := norm(query);
    var key := ExactKey(norm, cat, qNorm);
    if SomeEqual(norm, cat.owned, key) then Lookup(Listed(Owned), [])
    else if SomeEqual(norm, cat.competitors, key) then Lookup(Listed(Competitors), [])
    else if Truthy(FindContaining(norm, cat.owned, qNorm)) then Lookup(Listed(Owned), [])
    else if Truthy(FindContaining(norm, cat.competitors, qNorm)) then Lookup(Listed(Competitors), [])
    else FuzzyVerdict(FuzzyTop(cat, search, query))
  }

  /**
   * The lookup behind the check button. The remote mode is a stub that always fails;
   * the local mode is `Classify`.
   */
  function FetchBrandInfo(useApi: bool, cat: Catalog, search: Searcher, query: string): (r: Result<Lookup>)
    ensures r.Failure? <==> useApi
  {
    if useApi then Failure("API not implemented")
    else Success(Classify(Normalize, cat, search, query))
  }

  // ---------------------------------------------------------------------------
  // The tiers, stated declaratively.

  /**
   * The lookup as a chain of tiers, written with quantifiers over list positions
   * instead of the scans `some`/`find`, and with the alias table read directly.
   */
  ghost function TieredLookup(norm: Normaliser, cat: Catalog, search: Searcher, query: string): Lookup {
    var qNorm := norm(query);
    var key := if qNorm in cat.aliases && cat.aliases[qNorm] != "" then norm(cat.aliases[qNorm]) else qNorm;
    if exists i :: 0 <= i < |cat.owned| && norm(cat.owned[i]) == key then
      Lookup(Listed(Owned), [])
    else if exists j :: 0 <= j < |cat.competitors| && norm(cat.competitors[j]) == key then
      Lookup(Listed(Competitors), [])
    else if exists i :: FirstContaining(norm, cat.owned, qNorm, i) && cat.owned[i] != "" then
      Lookup(Listed(Owned), [])
    else if exists j :: FirstContaining(norm, cat.competitors, qNorm, j) && cat.competitors[j] != "" then
      Lookup(Listed(Competitors), [])
    else
      var hits := search(BuildIndex(cat), query);
      var top := if |hits| <= 5 then hits else hits[..5];
      if top != [] && top[0].score.Some? && top[0].score.value <= 0.25 then
        Lookup(Listed(top[0].item.kind), seq(|top| - 1, k requires 0 <= k < |top| - 1 => top[k + 1].item.name))
      else
        Lookup(NotOwned, seq(|top|, k requires 0 <= k < |top| => top[k].item.name))
  }

  lemma FirstContainingUnique(norm: Normaliser, names: seq<string>, qNorm: string, i: int, j: int)
    requires FirstContaining(norm, names, qNorm, i) && FirstContaining(norm, names, qNorm, j)
    ensures i == j
  {
  }

  /** The `find` tier hits exactly when the first containing name is a non-empty string. */
  lemma FindIsTruthy(norm: Normaliser, names: seq<string>, qNorm: string)
    ensures Truthy(FindContaining(norm, names, qNorm))
        <==> exists i :: FirstContaining(norm, names, qNorm, i) && names[i] != ""
  {
    var r := FindContaining(norm, names, qNorm);
    if r.Some? {
      var i :| FirstContaining(norm, names, qNorm, i) && names[i] == r.value;
      forall j | FirstContaining(norm, names, qNorm, j)
        ensures names[j] == r.value
      {
        FirstContainingUnique(norm, names, qNorm, i, j);
      }
    }
  }

  lemma FuzzyVerdictIsTiered(top: seq<Hit>)
    ensures FuzzyVerdict(top) ==
      if top != [] && top[0].score.Some? && top[0].score.value <= 0.25 then
        Lookup(Listed(top[0].item.kind), seq(|top| - 1, k requires 0 <= k < |top| - 1 => top[k + 1].item.name))
      else
        Lookup(NotOwned, seq(|top|, k requires 0 <= k < |top| => top[k].item.name))
  {
  }

  /** The lookup agrees with the declarative tier chain on every input. */
  lemma ClassifyIsTiered(norm: Normaliser, cat: Catalog, search: Searcher, query: string)
    ensures Classify(norm, cat, search, query) == TieredLookup(norm, cat, search, query)
  {
    var qNorm := norm(query);
    var key := ExactKey(norm, cat, qNorm);
    if SomeEqual(norm, cat.owned, key) || SomeEqual(norm, cat.competitors, key) {
      ExactTiersAreTiered(norm, cat, search, query);
    } else {
      LaterTiersAreTiered(norm, cat, search, query);
    }
  }

  lemma ExactTiersAreTiered(norm: Normaliser, cat: Catalog, search: Searcher, query: string)
    requires SomeEqual(norm, cat.owned, ExactKey(norm, cat, norm(query))) || SomeEqual(norm, cat.competitors, ExactKey(norm, cat, norm(query)))
    ensures Classify(norm, cat, search, query) == TieredLookup(norm, cat, search, query)
  {
  }

  lemma LaterTiersAreTiered(norm: Normaliser, cat: Catalog, search: Searcher, query: string)
    requires !SomeEqual(norm, cat.owned, ExactKey(norm, cat, norm(query)))
    requires !SomeEqual(norm, cat.competitors, ExactKey(norm, cat, norm(query)))
    ensures Classify(norm, cat, search, query) == TieredLookup(norm, cat, search, query)
  {
    var qNorm := norm(query);
    FindIsTruthy(norm, cat.owned, qNorm);
    FindIsTruthy(norm, cat.competitors, qNorm);
    if Truthy(FindContaining(norm, cat.owned, qNorm)) || Truthy(FindContaining(norm, cat.competitors, qNorm)) {
      SubstringTiersAreTiered(norm, cat, search, query);
    } else {
      FuzzyTiersAreTiered(norm, cat, search, query);
    }
  }

  lemma SubstringTiersAreTiered(norm: Normaliser, cat: Catalog, search: Searcher, query: string)
    requires !SomeEqual(norm, cat.owned, ExactKey(norm, cat, norm(query)))
    requires !SomeEqual(norm, cat.competitors, ExactKey(norm, cat, norm(query)))
    requires Truthy(FindContaining(norm, cat.owned, norm(query))) || Truthy(FindContaining(norm, cat.competitors, norm(query)))
    ensures Classify(norm, cat, search, query) == TieredLookup(norm, cat, search, query)
  {
    FindIsTruthy(norm, cat.owned, norm(query));
    FindIsTruthy(norm, cat.competitors, norm(query));
  }

  lemma FuzzyTiersAreTiered(norm: Normaliser, cat: Catalog, search: Searcher, query: string)
    requires !SomeEqual(norm, cat.owned, ExactKey(norm, cat, norm(query)))
    requires !SomeEqual(norm, cat.competitors, ExactKey(norm, cat, norm(query)))
    requires !Truthy(FindContaining(norm, cat.owned, norm(query)))
    requires !Truthy(FindContaining(norm, cat.competitors, norm(query)))
    ensures Classify(norm, cat, search, query) == TieredLookup(norm, cat, search, query)
  {
    FallsToFuzzy(norm, cat, search, query);
    TieredFallsToFuzzy(norm, cat, search, query);
  }

  /** When tiers 1 and 2 both fail, the declarative chain reaches the fuzzy verdict too. */
  lemma TieredFallsToFuzzy(norm: Normaliser, cat: Catalog, search: Searcher, query: string)
    requires !SomeEqual(norm, cat.owned, ExactKey(norm, cat, norm(query)))
    requires !SomeEqual(norm, cat.competitors, ExactKey(norm, cat, norm(query)))
    requires !Truthy(FindContaining(norm, cat.owned, norm(query)))
    requires !Truthy(FindContaining(norm, cat.competitors, norm(query)))
    ensures TieredLookup(norm, cat, search, query) == FuzzyVerdict(FuzzyTop(cat, search, query))
  {
    FindIsTruthy(norm, cat.owned, norm(query));
    FindIsTruthy(norm, cat.competitors, norm(query));
    FuzzyVerdictIsTiered(FuzzyTop(cat, search, query));
  }

  /** When tiers 1 and 2 both fail, the answer is the verdict of the kept fuzzy results. */
  lemma FallsToFuzzy(norm: Normaliser, cat: Catalog, search: Searcher, query: string)
    requires !SomeEqual(norm, cat.owned, ExactKey(norm, cat, norm(query)))
    requires !SomeEqual(norm, cat.competitors, ExactKey(norm, cat, norm(query)))
    requires !Truthy(FindContaining(norm, cat.owned, norm(query)))
    requires !Truthy(FindContaining(norm, cat.competitors, norm(query)))
    ensures Classify(norm, cat, search, query) == FuzzyVerdict(FuzzyTop(cat, search, query))
  {
  }

  /** Tier 1: a name of the owned list equal to the key decides "owned", even if a competitor name is equal too. */
  lemma ExactOwnedWins(norm: Normaliser, cat: Catalog, search: Searcher, query: string)
    requires exists i :: 0 <= i < |cat.owned| && norm(cat.owned[i]) == ExactKey(norm, cat, norm(query))
    ensures Classify(norm, cat, search, query) == Lookup(Listed(Owned), [])
  {
  }

  /** Tier 1, second half: failing an owned name, an equal competitor name decides "competitors". */
  lemma ExactCompetitor(norm: Normaliser, cat: Catalog, search: Searcher, query: string)
    requires forall i :: 0 <= i < |cat.owned| ==> norm(cat.owned[i]) != ExactKey(norm, cat, norm(query))
    requires exists j :: 0 <= j < |cat.competitors| && norm(cat.competitors[j]) == ExactKey(norm, cat, norm(query))
    ensures Classify(norm, cat, search, query) == Lookup(Listed(Competitors), [])
  {
  }

  /** Tier 1 compares normal forms, so any spelling that normalises like a listed owned name is owned. */
  lemma SpellingOfOwnedIsOwned(norm: Normaliser, cat: Catalog, search: Searcher, query: string, i: nat)
    requires i < |cat.owned| && norm(query) == norm(cat.owned[i])
    requires AliasToCanonical(cat.aliases, norm(query)).None?
    ensures Classify(norm, cat, search, query) == Lookup(Listed(Owned), [])
  {
  }

  /** An alias hit whose canonical name is on the owned list is owned, whatever the other tiers would say. */
  lemma CanonicalOwnedIsOwned(norm: Normaliser, cat: Catalog, search: Searcher, query: string)
    requires AliasToCanonical(cat.aliases, norm(query)).Some?
    requires AliasToCanonical(cat.aliases, norm(query)).value in cat.owned
    ensures Classify(norm, cat, search, query) == Lookup(Listed(Owned), [])
  {
    var i :| 0 <= i < |cat.owned| && cat.owned[i] == AliasToCanonical(cat.aliases, norm(query)).value;
    assert norm(cat.owned[i]) == ExactKey(norm, cat, norm(query));
  }

  /** Whether tier 1 or tier 2 decides the query: some list name matches it. */
  predicate ListDecided(norm: Normaliser, cat: Catalog, query: string) {
    var qNorm := norm(query);
    var key := ExactKey(norm, cat, qNorm);
    || SomeEqual(norm, cat.owned, key) || SomeEqual(norm, cat.competitors, key)
    || Truthy(FindContaining(norm, cat.owned, qNorm)) || Truthy(FindContaining(norm, cat.competitors, qNorm))
  }

  /**
   * Tiers 1 and 2 see only the normal form of the query: two queries with the same normal
   * form are decided by the lists alike, and then get the same answer. Only the fuzzy tiers
   * see the raw text, so with equal search results the answers are always equal.
   */
  lemma ListTiersSeeOnlyNormalForm(norm: Normaliser, cat: Catalog, search: Searcher, q1: string, q2: string)
    requires norm(q1) == norm(q2)
    ensures ListDecided(norm, cat, q1) <==> ListDecided(norm, cat, q2)
    ensures ListDecided(norm, cat, q1) ==> Classify(norm, cat, search, q1) == Classify(norm, cat, search, q2)
    ensures search(BuildIndex(cat), q1) == search(BuildIndex(cat), q2) ==>
              Classify(norm, cat, search, q1) == Classify(norm, cat, search, q2)
  {
  }

  /** Capitals never change a verdict the lists decide. */
  lemma ListVerdictIgnoresCase(cat: Catalog, search: Searcher, query: string)
    requires ListDecided(Normalize, cat, query)
    ensures Classify(Normalize, cat, search, LowerCase(query)) == Classify(Normalize, cat, search, query)
  {
    NormalizeIgnoresCase(query);
    ListTiersSeeOnlyNormalForm(Normalize, cat, search, LowerCase(query), query);
  }

  /** Whether no name of either list equals the key of tier 1. */
  ghost predicate ExactMisses(norm: Normaliser, cat: Catalog, query: string) {
    var key := ExactKey(norm, cat, norm(query));
    && (forall i :: 0 <= i < |cat.owned| ==> norm(cat.owned[i]) != key)
    && (forall j :: 0 <= j < |cat.competitors| ==> norm(cat.competitors[j]) != key)
  }

  /**
   * Tier 2: after tier 1 fails, the first owned name containing the plain normalised
   * query (not the alias key) decides "owned" when that name is not empty.
   */
  lemma SubstringOwned(norm: Normaliser, cat: Catalog, search: Searcher, query: string, i: int)
    requires ExactMisses(norm, cat, query)
    requires FirstContaining(norm, cat.owned, norm(query), i) && cat.owned[i] != ""
    ensures Classify(norm, cat, search, query) == Lookup(Listed(Owned), [])
  {
    FindIsTruthy(norm, cat.owned, norm(query));
  }

  /** Tier 2, second half: the competitor list is searched only when the owned list gives nothing. */
  lemma SubstringCompetitor(norm: Normaliser, cat: Catalog, search: Searcher, query: string, j: int)
    requires ExactMisses(norm, cat, query)
    requires !Truthy(FindContaining(norm, cat.owned, norm(query)))
    requires FirstContaining(norm, cat.competitors, norm(query), j) && cat.competitors[j] != ""
    ensures Classify(norm, cat, search, query) == Lookup(Listed(Competitors), [])
  {
    FindIsTruthy(norm, cat.competitors, norm(query));
  }

  /**
   * An empty normalised query (for instance `"!!!"`) is contained in every name, so
   * tier 2 answers "owned" as soon as the first owned name is not empty, unless tier 1
   * already found a competitor whose name normalises to the exact key.
   */
  lemma EmptyQueryIsOwned(norm: Normaliser, cat: Catalog, search: Searcher, query: string)
    requires norm(query) == []
    requires |cat.owned| > 0 && cat.owned[0] != ""
    requires forall j :: 0 <= j < |cat.competitors| ==> norm(cat.competitors[j]) != ExactKey(norm, cat, [])
    ensures Classify(norm, cat, search, query) == Lookup(Listed(Owned), [])
  {
    assert OccursAt(norm(cat.owned[0]), [], 0);
    assert FirstContaining(norm, cat.owned, [], 0);
    FindIsTruthy(norm, cat.owned, []);
  }

  /** The shape of the fuzzy verdict over the kept results `top`. */
  ghost predicate FuzzyShape(top: seq<Hit>, r: Lookup) {
    if top != [] && Confident(top[0]) then
      && r.result == Listed(top[0].item.kind)
      && |r.suggestions| == |top| - 1
      && forall k :: 0 <= k < |r.suggestions| ==> r.suggestions[k] == top[k + 1].item.name
    else
      && r.result == NotOwned
      && |r.suggestions| == |top|
      && forall k :: 0 <= k < |r.suggestions| ==> r.suggestions[k] == top[k].item.name
  }

  lemma FuzzyVerdictHasShape(top: seq<Hit>)
    ensures FuzzyShape(top, FuzzyVerdict(top))
  {
  }

  /**
   * Tiers 3 and 4: when no list name matches, the verdict comes from the first five
   * search results alone. A best result carrying a score of at most 0.25 adopts its list
   * and offers the other (at most four) names; otherwise (no score, or a larger one) the
   * answer is "not owned" with all of them.
   */
  lemma FuzzyTiers(norm: Normaliser, cat: Catalog, search: Searcher, query: string)
    requires ExactMisses(norm, cat, query)
    requires !Truthy(FindContaining(norm, cat.owned, norm(query)))
    requires !Truthy(FindContaining(norm, cat.competitors, norm(query)))
    ensures |FuzzyTop(cat, search, query)| <= MaxSuggestions
    ensures FuzzyShape(FuzzyTop(cat, search, query), Classify(norm, cat, search, query))
  {
    FallsToFuzzy(norm, cat, search, query);
    FuzzyVerdictHasShape(FuzzyTop(cat, search, query));
  }

  /** A confident best result is classified by the list its index position belongs to. */
  lemma FuzzyKindFollowsIndex(norm: Normaliser, cat: Catalog, search: Searcher, query: string, p: nat)
    requires ExactMisses(norm, cat, query)
    requires !Truthy(FindContaining(norm, cat.owned, norm(query)))
    requires !Truthy(FindContaining(norm, cat.competitors, norm(query)))
    requires FuzzyTop(cat, search, query) != [] && Confident(FuzzyTop(cat, search, query)[0])
    requires p < |BuildIndex(cat)| && FuzzyTop(cat, search, query)[0].item == BuildIndex(cat)[p]
    ensures Classify(norm, cat, search, query).result == Listed(if p < |cat.owned| then Owned else Competitors)
  {
    FuzzyTiers(norm, cat, search, query);
    var idx := BuildIndex(cat);
    if p < |cat.owned| {
      assert idx[p].kind == Owned;
    } else {
      assert idx[|cat.owned| + (p - |cat.owned|)].kind == Competitors;
    }
  }

  /**
   * Every answer's suggestions are drawn from the kept fuzzy results, in search order:
   * none, all of them (exactly so for "not owned"), or all but the best.
   */
  lemma SuggestionsComeFromSearch(norm: Normaliser, cat: Catalog, search: Searcher, query: string)
    ensures var r := Classify(norm, cat, search, query);
            var names := Names(FuzzyTop(cat, search, query));
            && (r.suggestions == [] || r.suggestions == names || (names != [] && r.suggestions == names[1..]))
            && (r.result == NotOwned ==> r.suggestions == names)
  {
  }

  /** Suggestions are only ever offered by the fuzzy tiers: a non-empty list means tiers 1 and 2 both failed. */
  lemma SuggestionsMeanNoListMatch(norm: Normaliser, cat: Catalog, search: Searcher, query: string)
    requires Classify(norm, cat, search, query).suggestions != []
    ensures ExactMisses(norm, cat, query)
    ensures forall i :: 0 <= i < |cat.owned| ==> !FirstContaining(norm, cat.owned, norm(query), i) || cat.owned[i] == ""
    ensures forall j :: 0 <= j < |cat.competitors| ==> !FirstContaining(norm, cat.competitors, norm(query), j) || cat.competitors[j] == ""
  {
    FindIsTruthy(norm, cat.owned, norm(query));
    FindIsTruthy(norm, cat.competitors, norm(query));
  }

  // ---------------------------------------------------------------------------
  // The engine as configured.

  /** The same results with their scores absent. */
  function StripScores(hits: seq<Hit>): (r: seq<Hit>)
    ensures |r| == |hits|
    ensures forall k :: 0 <= k < |r| ==> r[k].item == hits[k].item && r[k].score.None?
  {
    seq(|hits|, k requires 0 <= k < |hits| => Hit(hits[k].item, None))
  }

  /**
   * The engine built without asking for scores: it ranks exactly like `search` but its
   * results carry no score field.
   */
  function Unscored(search: Searcher): Searcher {
    (index: seq<Entry>, query: string) => StripScores(search(index, query))
  }

  /**
   * With the engine built without scores, the confident tier never fires: every query the
   * lists do not decide is answered "not owned", offering the names of the first five
   * results of the ranking.
   */
  lemma UnscoredNeverConfident(norm: Normaliser, cat: Catalog, search: Searcher, query: string)
    requires ExactMisses(norm, cat, query)
    requires !Truthy(FindContaining(norm, cat.owned, norm(query)))
    requires !Truthy(FindContaining(norm, cat.competitors, norm(query)))
    ensures Classify(norm, cat, Unscored(search), query) == Lookup(NotOwned, Names(FuzzyTop(cat, search, query)))
  {
    var hits := search(BuildIndex(cat), query);
    var top := FuzzyTop(cat, Unscored(search), query);
    assert top == Top(StripScores(hits));
    FallsToFuzzy(norm, cat, Unscored(search), query);
    assert Names(top) == Names(Top(hits));
  }
}
