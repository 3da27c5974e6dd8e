/**
 * The alias table as the code actually reads it. `ALIASES` is a plain object literal, so
 * indexing it with a query also finds the properties every object inherits. The only
 * inherited name a normalised query can spell is "constructor", whose value is the
 * `Object` function: it is truthy, so it is taken as a canonical name, and normalising it
 * throws (a function has no `normalize` method). The check then falls back to "not owned".
 * The rest of the model reads the table as the finite map of its declared entries.
 */
module AliasQuirk {
  import opened Outcomes
  import opened CharClass
  import opened Normalizer
  import opened Brands
  import opened Classifier

  /** What indexing the alias object yields: a declared string, an inherited member, or nothing. */
  datatype Slot = Declared(value: string) | Inherited | Missing

  /** The property names every object literal inherits from `Object.prototype`. */
  const PrototypeKeys: set<string> :=
    {"constructor", "__defineGetter__", "__defineSetter__", "hasOwnProperty", "__lookupGetter__",
     "__lookupSetter__", "isPrototypeOf", "propertyIsEnumerable", "toString", "valueOf",
     "__proto__", "toLocaleString"}

  /** `ALIASES[qNorm]` on an object literal whose own properties are `aliases`. */
  function ReadAlias(aliases: map<string, string>, qNorm: string): (r: Slot)
    ensures r.Declared? <==> qNorm in aliases
    ensures r.Inherited? <==> qNorm !in aliases && qNorm in PrototypeKeys
  {
    if qNorm in aliases then Declared(aliases[qNorm])
    else if qNorm in PrototypeKeys then Inherited
    else Missing
  }

  /**
   * The lookup as written. An inherited slot is truthy, and the first `some` that calls
   * `normalize` on it throws; with both lists empty no callback runs and the lookup goes on
   * as for a miss.
   */
  function FetchAsWritten(useApi: bool, cat: Catalog, search: Searcher, query: string): (r: Result<Lookup>)
    ensures useApi ==> r.Failure?
    ensures !useApi && ReadAlias(cat.aliases, Normalize(query)).Inherited? && (cat.owned != [] || cat.competitors != [])
            ==> r.Failure?
  {
    if useApi then Failure("API not implemented")
    else if ReadAlias(cat.aliases, Normalize(query)).Inherited? && (cat.owned != [] || cat.competitors != []) then
      Failure("str.normalize is not a function")
    else Success(Classify(Normalize, cat, search, query))
  }

  /** Away from inherited names the code as written and the finite-map reading agree. */
  lemma AsWrittenAgreesElsewhere(useApi: bool, cat: Catalog, search: Searcher, query: string)
    requires Normalize(query) !in PrototypeKeys || Normalize(query) in cat.aliases
    ensures FetchAsWritten(useApi, cat, search, query) == FetchBrandInfo(useApi, cat, search, query)
  {
  }

  /**
   * Of the inherited names only "constructor" has the shape of a normalised query: each
   * other one holds an upper-case letter or an underscore.
   */
  lemma OnlyConstructorIsReachable(q: string)
    requires q in PrototypeKeys && q != "constructor"
    ensures !Normalized(q)
  {
    if q == "__defineGetter__" {
      assert q[0] in q && q[0] != ' ' && !Settled(q[0]);
    } else if q == "__defineSetter__" {
      assert q[0] in q && q[0] != ' ' && !Settled(q[0]);
    } else if q == "hasOwnProperty" {
      assert q[3] in q && q[3] != ' ' && !Settled(q[3]);
    } else if q == "__lookupGetter__" {
      assert q[0] in q && q[0] != ' ' && !Settled(q[0]);
    } else if q == "__lookupSetter__" {
      assert q[0] in q && q[0] != ' ' && !Settled(q[0]);
    } else if q == "isPrototypeOf" {
      assert q[2] in q && q[2] != ' ' && !Settled(q[2]);
    } else if q == "propertyIsEnumerable" {
      assert q[8] in q && q[8] != ' ' && !Settled(q[8]);
    } else if q == "toString" {
      assert q[2] in q && q[2] != ' ' && !Settled(q[2]);
    } else if q == "valueOf" {
      assert q[5] in q && q[5] != ' ' && !Settled(q[5]);
    } else if q == "__proto__" {
      assert q[0] in q && q[0] != ' ' && !Settled(q[0]);
    } else if q == "toLocaleString" {
      assert q[2] in q && q[2] != ' ' && !Settled(q[2]);
    }
  }

  /** "constructor" is its own normal form. */
  lemma ConstructorIsNormal(q: string)
    requires q == "constructor"
    ensures Normalize(q) == q
  {
    PlainWordsAreNormal(q);
  }

  /**
   * The discrepancy: on any catalog with a listed name and no declared alias "constructor"
   * (the shipped one among them), a query that normalises to "constructor" makes the lookup
   * as written throw, so the check answers "not owned" without consulting the tiers; the
   * finite-map reading runs the tiers instead.
   */
  lemma ConstructorThrows(cat: Catalog, search: Searcher, query: string)
    requires Normalize(query) == "constructor" && "constructor" !in cat.aliases
    requires cat.owned != [] || cat.competitors != []
    ensures FetchAsWritten(false, cat, search, query).Failure?
    ensures FetchBrandInfo(false, cat, search, query).Success?
  {
  }

  /** The shipped catalog meets the conditions of the discrepancy for the query "constructor". */
  lemma ConstructorThrowsOnDefault(cat: Catalog, search: Searcher, query: string)
    requires cat == Default && query == "constructor"
    ensures FetchAsWritten(false, cat, search, query).Failure?
  {
    assert Normalize(query) == "constructor" by {
      ConstructorIsNormal(query);
    }
    assert "constructor" !in cat.aliases by {
      DefaultAliases("constructor");
    }
    ConstructorThrows(cat, search, query);
  }
}
