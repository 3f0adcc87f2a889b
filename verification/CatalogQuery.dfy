/** What the query parser hands to every search (catalog/query.py). */
module CatalogQuery {
  import opened Prelude

  /** Why a query is refused rather than guessed at. */
  datatype Reason = PriceOutOfRange | NegationNotForColour | OperatorWithoutNumber | IncompleteRange

  datatype ParsedQuery = ParsedQuery(
    categories: set<string>,
    colors: set<string>,
    excludeColors: set<string>,
    materials: set<string>,
    minPrice: Option<int>,
    maxPrice: Option<int>,
    inStock: bool,
    text: seq<string>,
    unsupported: seq<Reason>)
}
