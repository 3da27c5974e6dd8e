/**
 * The fixed reference data of the brand checker: the owned list, the competitor
 * list and the alias table, with the alias lookup and the combined search index.
 */
module Brands {
  import opened Outcomes

  /** The `type` tag of an index entry: the list a name comes from. */
  datatype Kind = Owned | Competitors

  /** One entry of the combined index that the fuzzy search runs over. */
  datatype Entry = Entry(name: string, kind: Kind)

  /** Reference data: two ordered name lists and a table from normalised alias to canonical name. */
  datatype Catalog = Catalog(owned: seq<string>, competitors: seq<string>, aliases: map<string, string>)

  const OwnedBrands: seq<string> :=
    ["Budweiser", "Corona", "Stella Artois", "Michelob", "Goose Island", "Hoegaarden", "Modelo", "Shock Top"]

  const CompetitorBrands: seq<string> :=
    ["Heineken", "Amstel", "Lagunitas", "Dos Equis", "Pacifico"]

  const Aliases: map<string, string> :=
    map["michelob ultra" := "Michelob", "stella" := "Stella Artois",
        "modelo especial" := "Modelo", "corona extra" := "Corona"]

  /** The catalog the application is built with. */
  const Default := Catalog(OwnedBrands, CompetitorBrands, Aliases)

  /**
   * The canonical name an alias stands for. The lookup is by the exact (already
   * normalised) query; a canonical name that is the empty string counts as no hit,
   * as `found || null` treats it.
   */
  function AliasToCanonical(aliases: map<string, string>, qNorm: string): Option<string> {
    if qNorm in aliases && aliases[qNorm] != "" then Some(aliases[qNorm]) else None
  }

  /** Tags every name of `names` with `kind`, keeping the order. */
  function Tag(names: seq<string>, kind: Kind): seq<Entry> {
    seq(|names|, i requires 0 <= i < |names| => Entry(names[i], kind))
  }

  /** The combined index: the owned names, then the competitor names, each tagged with its list. */
  function BuildIndex(cat: Catalog): (r: seq<Entry>)
    ensures |r| == |cat.owned| + |cat.competitors|
    ensures forall i :: 0 <= i < |cat.owned| ==> r[i] == Entry(cat.owned[i], Owned)
    ensures forall j :: 0 <= j < |cat.competitors| ==> r[|cat.owned| + j] == Entry(cat.competitors[j], Competitors)
  {
    Tag(cat.owned, Owned) + Tag(cat.competitors, Competitors)
  }

  /** Every entry of the index carries the tag of the list its name comes from. */
  lemma IndexEntriesComeFromTheirList(cat: Catalog, e: Entry)
    requires e in BuildIndex(cat)
    ensures e.kind == Owned ==> e.name in cat.owned
    ensures e.kind == Competitors ==> e.name in cat.competitors
  {
    var idx := BuildIndex(cat);
    var k :| 0 <= k < |idx| && idx[k] == e;
    if k >= |cat.owned| {
      assert idx[|cat.owned| + (k - |cat.owned|)] == e;
    }
  }

  /** The alias table of the default catalog answers exactly its four keys, each with an owned name. */
  lemma DefaultAliases(q: string)
    ensures q in Aliases <==> q in {"michelob ultra", "stella", "modelo especial", "corona extra"}
    ensures AliasToCanonical(Aliases, q).Some?
        <==> q in {"michelob ultra", "stella", "modelo especial", "corona extra"}
    ensures AliasToCanonical(Aliases, q).Some? ==> AliasToCanonical(Aliases, q).value in OwnedBrands
  {
    if q == "michelob ultra" { assert OwnedBrands[3] == "Michelob"; }
    if q == "stella" { assert OwnedBrands[2] == "Stella Artois"; }
    if q == "modelo especial" { assert OwnedBrands[6] == "Modelo"; }
    if q == "corona extra" { assert OwnedBrands[1] == "Corona"; }
  }
}
