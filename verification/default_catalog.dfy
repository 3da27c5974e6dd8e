/**
 * The lookup run on the catalog the application ships with: the answers for a few
 * characteristic queries, whatever the fuzzy search returns.
 */
module DefaultCatalog {
  import opened CharClass
  import opened Normalizer
  import opened Brands
  import opened Classifier

  /** Every alias of the default catalog stands for an owned name, so an alias hit is always owned. */
  lemma AliasHitIsOwned(cat: Catalog, search: Searcher, query: string)
    requires cat == Default && AliasToCanonical(cat.aliases, Normalize(query)).Some?
    ensures Classify(Normalize, cat, search, query) == Lookup(Listed(Owned), [])
  {
    DefaultAliases(Normalize(query));
    CanonicalOwnedIsOwned(Normalize, cat, search, query);
  }

  /** Any capitalisation of "stella" is owned, through the alias for "Stella Artois". */
  lemma StellaIsOwned(cat: Catalog, search: Searcher, query: string)
    requires cat == Default && LowerCase(query) == "stella"
    ensures Classify(Normalize, cat, search, query) == Lookup(Listed(Owned), [])
  {
    assert Normalize(query) == "stella" by {
      SpellingNormalizes(query, "stella");
    }
    assert AliasToCanonical(cat.aliases, "stella").Some? by {
      DefaultAliases("stella");
    }
    AliasHitIsOwned(cat, search, query);
  }

  /** The symbols-only query normalises to the empty string. */
  lemma SymbolsVanish()
    ensures Normalize("!!!") == []
  {
    assert Decompose('!') == ['!'];
    NfdOfFinal("!!!");
    StripOfPlain("!!!");
    assert Fold("!!!") == "!!!";
    NoWordCharVanishes("!!!");
  }

  /** No name of the default catalog normalises to the empty string. */
  lemma NamesDoNotVanish()
    ensures forall i :: 0 <= i < |OwnedBrands| ==> Normalize(OwnedBrands[i]) != []
    ensures forall j :: 0 <= j < |CompetitorBrands| ==> Normalize(CompetitorBrands[j]) != []
  {
    forall i | 0 <= i < |OwnedBrands|
      ensures Normalize(OwnedBrands[i]) != []
    {
      WordCharSurvives(OwnedBrands[i], OwnedBrands[i][0]);
    }
    forall j | 0 <= j < |CompetitorBrands|
      ensures Normalize(CompetitorBrands[j]) != []
    {
      WordCharSurvives(CompetitorBrands[j], CompetitorBrands[j][0]);
    }
  }

  /** A query of symbols only normalises to the empty string, which the substring tier finds in "Budweiser". */
  lemma SymbolsOnlyAreOwned(cat: Catalog, search: Searcher, query: string)
    requires cat == Default && query == "!!!"
    ensures Classify(Normalize, cat, search, query) == Lookup(Listed(Owned), [])
  {
    SymbolsVanish();
    NamesDoNotVanish();
    DefaultAliases([]);
    EmptyQueryIsOwned(Normalize, cat, search, query);
  }
}
