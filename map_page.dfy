/**
 * The map page's link back to the list: it forwards the same truthy search
 * fields as the home page's map link, and is `/?` alone when none is given.
 */
module MapPage {
  import opened Js
  import opened UrlParams
  import opened Search

  /**
   * `listParams`/`listHref`: exactly the truthy fields, in the order query,
   * sort, lat, lon; `/?` when there are none, `/?` and the serialised pairs
   * otherwise.
   */
  method BuildListHref(query: Option<string>, sort: Option<string>, lat: Option<string>, lon: Option<string>,
                       encode: string -> string)
    returns (params: seq<Pair>, href: string)
    ensures params == TruthyPairs(SearchFields(query, sort, lat, lon))
    ensures href == if params == [] then "/?" else "/?" + Serialize(params, encode)
  {
    params, href := SearchLink("/?", "/?", query, sort, lat, lon, encode);
  }
}
