/**
 * The search fields both pages read from their URL (`query`, `sort`, `lat`,
 * `lon`), the arguments they pass to the `search_stores` procedure, and the
 * defaulting of its result. `parseFloat` is a parameter.
 */
module Search {
  import opened Js
  import opened UrlParams

  /** The search fields a link forwards, in the order the pages set them. */
  function SearchFields(query: Option<string>, sort: Option<string>, lat: Option<string>, lon: Option<string>)
    : seq<(string, Option<string>)>
  {
    [("query", query), ("sort", sort), ("lat", lat), ("lon", lon)]
  }

  /** Each forwarded field is carried with its own text exactly when it is truthy. */
  lemma SearchFieldsLookup(query: Option<string>, sort: Option<string>, lat: Option<string>, lon: Option<string>)
    ensures var ps := TruthyPairs(SearchFields(query, sort, lat, lon));
      && Lookup(ps, "query") == (if TruthyText(query) then Some(query.value) else None)
      && Lookup(ps, "sort") == (if TruthyText(sort) then Some(sort.value) else None)
      && Lookup(ps, "lat") == (if TruthyText(lat) then Some(lat.value) else None)
      && Lookup(ps, "lon") == (if TruthyText(lon) then Some(lon.value) else None)
  {
    var fields := SearchFields(query, sort, lat, lon);
    SearchFieldNamesDistinct(query, sort, lat, lon);
    TruthyPairsLookup(fields, 0);
    TruthyPairsLookup(fields, 1);
    TruthyPairsLookup(fields, 2);
    TruthyPairsLookup(fields, 3);
  }

  /** At most the four fields are carried, and none exactly when no field is truthy. */
  lemma SearchFieldsEmpty(query: Option<string>, sort: Option<string>, lat: Option<string>, lon: Option<string>)
    ensures var ps := TruthyPairs(SearchFields(query, sort, lat, lon));
      && |ps| <= 4
      && (ps == [] <==> !TruthyText(query) && !TruthyText(sort) && !TruthyText(lat) && !TruthyText(lon))
  {
    var fields := SearchFields(query, sort, lat, lon);
    TruthyPairsEmpty(fields);
    assert fields[0].1 == query && fields[1].1 == sort && fields[2].1 == lat && fields[3].1 == lon;
  }

  /** The four field names differ from each other. */
  lemma SearchFieldNamesDistinct(query: Option<string>, sort: Option<string>, lat: Option<string>, lon: Option<string>)
    ensures DistinctFieldNames(SearchFields(query, sort, lat, lon))
  {
    var fields := SearchFields(query, sort, lat, lon);
    assert fields[0].0 == "query" && fields[1].0 == "sort" && fields[2].0 == "lat" && fields[3].0 == "lon";
  }

  /** The names the link carries come in the order query, sort, lat, lon. */
  lemma SearchFieldsOrder(query: Option<string>, sort: Option<string>, lat: Option<string>, lon: Option<string>)
    ensures var names := Names(TruthyPairs(SearchFields(query, sort, lat, lon)));
      names == (if TruthyText(query) then ["query"] else []) + (if TruthyText(sort) then ["sort"] else [])
             + (if TruthyText(lat) then ["lat"] else []) + (if TruthyText(lon) then ["lon"] else [])
  {
    var fields := SearchFields(query, sort, lat, lon);
    var p0, p1, p2, p3 := FieldPair(fields[0]), FieldPair(fields[1]), FieldPair(fields[2]), FieldPair(fields[3]);
    calc {
      Names(TruthyPairs(fields));
      { TruthyPairsFour(fields); }
      Names(p0 + p1 + p2 + p3);
      { NamesAppend(p0 + p1 + p2, p3); NamesAppend(p0 + p1, p2); NamesAppend(p0, p1); }
      Names(p0) + Names(p1) + Names(p2) + Names(p3);
      { FieldPairNames(fields[0]); FieldPairNames(fields[1]); FieldPairNames(fields[2]); FieldPairNames(fields[3]); }
      (if TruthyText(query) then ["query"] else []) + (if TruthyText(sort) then ["sort"] else [])
      + (if TruthyText(lat) then ["lat"] else []) + (if TruthyText(lon) then ["lon"] else []);
    }
  }

  /**
   * The four conditional `set` calls both pages make on an empty
   * `URLSearchParams`: afterwards it holds exactly the reference pairs.
   */
  method SetSearchFields(p: SearchParams, query: Option<string>, sort: Option<string>, lat: Option<string>,
                         lon: Option<string>)
    requires p.pairs == []
    modifies p
    ensures p.pairs == TruthyPairs(SearchFields(query, sort, lat, lon))
  {
    FieldNamesFresh(query, sort, lat);
    p.SetIfTruthy("query", query);
    p.SetIfTruthy("sort", sort);
    p.SetIfTruthy("lat", lat);
    p.SetIfTruthy("lon", lon);
    SearchFieldsPairs(query, sort, lat, lon);
  }

  /**
   * The link one page builds to the other from its search fields: `prefix`
   * followed by the serialised truthy fields, or `bare` alone when none is
   * given (`/mapa?` and `/mapa` on the home page, `/?` and `/?` on the map page).
   */
  method SearchLink(prefix: string, bare: string, query: Option<string>, sort: Option<string>, lat: Option<string>,
                    lon: Option<string>, encode: string -> string)
    returns (params: seq<Pair>, href: string)
    ensures params == TruthyPairs(SearchFields(query, sort, lat, lon))
    ensures href == if params == [] then bare else prefix + Serialize(params, encode)
  {
    var p := new SearchParams();
    SetSearchFields(p, query, sort, lat, lon);
    params := p.pairs;
    href := if p.Size() > 0 then prefix + p.ToString(encode) else bare;
  }

  /** The reference pairs of the four fields, one field's contribution after another. */
  lemma SearchFieldsPairs(query: Option<string>, sort: Option<string>, lat: Option<string>, lon: Option<string>)
    ensures TruthyPairs(SearchFields(query, sort, lat, lon))
            == [] + FieldPair(("query", query)) + FieldPair(("sort", sort)) + FieldPair(("lat", lat))
               + FieldPair(("lon", lon))
  {
    var fields := SearchFields(query, sort, lat, lon);
    TruthyPairsFour(fields);
    assert [] + FieldPair(("query", query)) == FieldPair(fields[0]);
  }

  /** Each `set` of the sequence names a parameter the previous ones did not set. */
  lemma FieldNamesFresh(query: Option<string>, sort: Option<string>, lat: Option<string>)
    ensures "query" !in Names([])
    ensures "sort" !in Names([] + FieldPair(("query", query)))
    ensures "lat" !in Names([] + FieldPair(("query", query)) + FieldPair(("sort", sort)))
    ensures "lon" !in Names([] + FieldPair(("query", query)) + FieldPair(("sort", sort)) + FieldPair(("lat", lat)))
  {
    var p0, p1, p2 := FieldPair(("query", query)), FieldPair(("sort", sort)), FieldPair(("lat", lat));
    assert [] + p0 == p0;
    NamesAppend(p0, p1);
    NamesAppend(p0 + p1, p2);
  }

  /** The arguments of the `search_stores` call. */
  datatype RpcArgs = RpcArgs(searchTerm: string, sortOption: string, userLat: Option<real>, userLon: Option<real>)

  /**
   * `search_term: query || ''`, `sort_option: sort || 'default'`, and each
   * coordinate parsed when its parameter is truthy, `null` otherwise.
   */
  function SearchArgs(query: Option<string>, sort: Option<string>, lat: Option<string>, lon: Option<string>,
                      parseFloat: string -> real): (r: RpcArgs)
    ensures r.searchTerm == (if TruthyText(query) then query.value else "")
    ensures r.sortOption != ""
    ensures TruthyText(sort) ==> r.sortOption == sort.value
    ensures !TruthyText(sort) ==> r.sortOption == "default"
    ensures r.userLat.None? <==> !TruthyText(lat)
    ensures r.userLon.None? <==> !TruthyText(lon)
    ensures r.userLat.Some? ==> r.userLat.value == parseFloat(lat.value)
    ensures r.userLon.Some? ==> r.userLon.value == parseFloat(lon.value)
  {
    RpcArgs(
      if TruthyText(query) then query.value else "",
      if TruthyText(sort) then sort.value else "default",
      if TruthyText(lat) then Some(parseFloat(lat.value)) else None,
      if TruthyText(lon) then Some(parseFloat(lon.value)) else None)
  }

  /** `(data as Branch[] | null) ?? []`: no data is an empty list. */
  function RowsOrEmpty<T>(data: Option<seq<T>>): (r: seq<T>)
    ensures data.None? ==> r == []
    ensures data.Some? ==> r == data.value
  {
    if data.Some? then data.value else []
  }
}
