/**
 * The check screen: the text box, the check button, the verdict and the suggestion
 * drop-down, with the two rules that change them — live suggestions while typing, and
 * the check itself (a guard, a synchronous start, and the settling of the awaited lookup).
 */
module CheckScreen {
  import opened Outcomes
  import opened CharClass
  import opened Normalizer
  import opened Brands
  import opened Classifier

  /**
   * The component state: the raw input text, the verdict (none before the first check
   * and while one runs), whether a check is running, the names offered, and whether the
   * drop-down listing them is open.
   */
  datatype View = View(brand: string, result: Option<Category>, loading: bool,
                       suggestions: seq<string>, showDropdown: bool)

  /** The state the screen starts in. */
  const Initial := View("", None, false, [], false)

  /** Whether the check button is disabled: nothing but white space typed, or a check running. */
  function IsButtonDisabled(v: View): (b: bool)
    ensures b <==> v.loading || forall i :: 0 <= i < |v.brand| ==> IsSpace(v.brand[i])
  {
    TrimEmptyIffBlank(v.brand);
    |Trim(v.brand)| == 0 || v.loading
  }

  /** What the live-suggestion effect puts in the drop-down: the names, and whether it opens. */
  datatype Feed = Feed(names: seq<string>, show: bool)

  /**
   * The live-suggestion rule: for blank input nothing is offered; otherwise the names of
   * the first five search results for the trimmed input, the drop-down open exactly when
   * there is at least one.
   */
  function LiveFeed(cat: Catalog, search: Searcher, brand: string): (f: Feed)
    ensures f.show <==> f.names != []
    ensures Trim(brand) == [] ==> f.names == []
    ensures Trim(brand) != [] ==>
      var hits := search(BuildIndex(cat), Trim(brand));
      && |f.names| == (if |hits| < MaxSuggestions then |hits| else MaxSuggestions)
      && forall k :: 0 <= k < |f.names| ==> f.names[k] == hits[k].item.name
  {
    var trimmed := Trim(brand);
    if trimmed == [] then Feed([], false)
    else
      var out := Names(Top(search(BuildIndex(cat), trimmed)));
      Feed(out, |out| > 0)
  }

  /**
   * Typing: the text becomes `text`; the live-suggestion rule runs again only when the
   * trimmed text changed, so an edit in surrounding white space keeps the drop-down as it was.
   */
  function OnBrandInput(v: View, text: string, cat: Catalog, search: Searcher): (r: View)
    ensures r.brand == text && r.result == v.result && r.loading == v.loading
    ensures Trim(text) == Trim(v.brand) ==> r.suggestions == v.suggestions && r.showDropdown == v.showDropdown
    ensures Trim(text) != Trim(v.brand) ==> (r.showDropdown <==> r.suggestions != [])
    ensures Trim(text) != Trim(v.brand) ==> Feed(r.suggestions, r.showDropdown) == LiveFeed(cat, search, text)
  {
    if Trim(text) == Trim(v.brand) then v.(brand := text)
    else
      var f := LiveFeed(cat, search, text);
      v.(brand := text, suggestions := f.names, showDropdown := f.show)
  }

  /**
   * The synchronous start of a check: nothing happens while the button is disabled;
   * otherwise the check is marked running and the previous verdict cleared.
   */
  function BeginCheck(v: View): (r: View)
    ensures IsButtonDisabled(v) ==> r == v
    ensures !IsButtonDisabled(v) ==>
      && r.loading && r.result == None
      && r.brand == v.brand && r.suggestions == v.suggestions && r.showDropdown == v.showDropdown
  {
    if IsButtonDisabled(v) then v else v.(loading := true, result := None)
  }

  /**
   * The end of a check, once the awaited lookup settles. A lookup that failed only sets
   * the verdict to "not owned"; a successful one sets the verdict and the suggestions and
   * opens the drop-down exactly for a "not owned" verdict with something to offer.
   * Either way the check stops running.
   */
  function SettleCheck(v: View, outcome: Result<Lookup>): (r: View)
    ensures !r.loading && r.brand == v.brand && r.result.Some?
    ensures outcome.Failure? ==>
      r.result == Some(NotOwned) && r.suggestions == v.suggestions && r.showDropdown == v.showDropdown
    ensures outcome.Success? ==>
      && r.result == Some(outcome.value.result) && r.suggestions == outcome.value.suggestions
      && (r.showDropdown <==> r.suggestions != [] && r.result == Some(NotOwned))
  {
    match outcome
    case Failure(_) => v.(result := Some(NotOwned), loading := false)
    case Success(l) =>
      v.(result := Some(l.result), suggestions := l.suggestions,
         showDropdown := |l.suggestions| > 0 && l.result == NotOwned, loading := false)
  }

  /** The check button (or the Enter key): the guard, the start, the lookup on the trimmed text, the end. */
  function CheckBrand(v: View, useApi: bool, cat: Catalog, search: Searcher): (r: View)
    ensures IsButtonDisabled(v) ==> r == v
    ensures !IsButtonDisabled(v) ==> !r.loading && r.result.Some? && r.brand == v.brand
  {
    if IsButtonDisabled(v) then v
    else SettleCheck(BeginCheck(v), FetchBrandInfo(useApi, cat, search, Trim(v.brand)))
  }

  // ---------------------------------------------------------------------------
  // Properties of the rules.

  /** Once a check has started, pressing the button again changes nothing until it settles. */
  lemma NoDoubleSubmit(v: View, useApi: bool, cat: Catalog, search: Searcher)
    requires !IsButtonDisabled(v)
    ensures IsButtonDisabled(BeginCheck(v))
    ensures CheckBrand(BeginCheck(v), useApi, cat, search) == BeginCheck(v)
  {
  }

  /** With the remote lookup (which always fails) a check only ever answers "not owned", leaving the rest as it was. */
  lemma ApiModeFallsBack(v: View, cat: Catalog, search: Searcher)
    requires !IsButtonDisabled(v)
    ensures CheckBrand(v, true, cat, search) == v.(result := Some(NotOwned))
  {
  }

  /** A local check shows the classifier's verdict on the trimmed text, and its suggestions. */
  lemma LocalCheckShowsClassification(v: View, cat: Catalog, search: Searcher)
    requires !IsButtonDisabled(v)
    ensures var l := Classify(Normalize, cat, search, Trim(v.brand));
            var r := CheckBrand(v, false, cat, search);
            && r.result == Some(l.result) && r.suggestions == l.suggestions
            && (r.showDropdown <==> l.suggestions != [] && l.result == NotOwned)
  {
  }

  /**
   * After a local check that answers "not owned", the drop-down shows exactly what the
   * live-suggestion rule shows for the same text.
   */
  lemma NotOwnedCheckMatchesLiveFeed(v: View, cat: Catalog, search: Searcher)
    requires !IsButtonDisabled(v)
    requires CheckBrand(v, false, cat, search).result == Some(NotOwned)
    ensures var r := CheckBrand(v, false, cat, search);
            Feed(r.suggestions, r.showDropdown) == LiveFeed(cat, search, v.brand)
  {
    LocalCheckShowsClassification(v, cat, search);
    SuggestionsComeFromSearch(Normalize, cat, search, Trim(v.brand));
  }

  /** A listed verdict never opens the drop-down. */
  lemma ListedCheckClosesDropdown(v: View, useApi: bool, cat: Catalog, search: Searcher)
    requires !IsButtonDisabled(v)
    requires CheckBrand(v, useApi, cat, search).result != Some(NotOwned)
    ensures !CheckBrand(v, useApi, cat, search).showDropdown
  {
  }

  /**
   * The screen's invariant: the drop-down is only open with something in it, and no verdict
   * is shown while a check runs.
   */
  ghost predicate Coherent(v: View) {
    && (v.showDropdown ==> v.suggestions != [])
    && (v.loading ==> v.result == None)
  }

  /** Every rule keeps the screen coherent, starting from the initial state. */
  lemma RulesKeepCoherence(v: View, text: string, useApi: bool, cat: Catalog, search: Searcher, outcome: Result<Lookup>)
    requires Coherent(v)
    ensures Coherent(Initial)
    ensures Coherent(OnBrandInput(v, text, cat, search))
    ensures Coherent(BeginCheck(v))
    ensures Coherent(SettleCheck(v, outcome))
    ensures Coherent(CheckBrand(v, useApi, cat, search))
  {
  }
}
