/** Translating metadata queries between the two databases: Elasticsearch's bool query
    to a Typesense filter string, and back. */
module Queries {
  import opened Options
  import opened Strings

  /** A clause of a bool query. `NoValue` is a term whose value is undefined; `Other` is
      any clause that is neither term nor terms. */
  datatype Clause =
    | Term(field: string, value: string)
    | Terms(field: string, values: seq<string>)
    | NoValue(field: string)
    | Other

  datatype BoolQuery = BoolQuery(filter: seq<Clause>, mustNot: seq<Clause>)

  /** The fields of either dialect; the ones not set are undefined. */
  datatype SearchQuery = SearchQuery(
    query: Option<BoolQuery>,
    from: Option<int>,
    size: Option<int>,
    filterBy: Option<string>,
    start: Option<int>,
    numHits: Option<int>)

  const AND := " && "

  /** `value || other`: undefined and zero are falsy. */
  function Or(value: Option<int>, other: int): int {
    if value.Some? && value.value != 0 then value.value else other
  }

  // ---------- bool query to filter string ----------

  /** A clause as text; None for a clause that is skipped. */
  function PrintClause(clause: Clause, negative: bool): Option<string> {
    var op := if negative then ":!=" else ":=";
    match clause
    case Term(f, v) => Some(f + op + v)
    case Terms(f, vs) => Some(f + op + "[" + Join(vs, ",") + "]")
    case NoValue(f) => Some(f + op + "undefined")
    case Other => None
  }

  function PrintClauses(clauses: seq<Clause>, negative: bool): seq<string> {
    if clauses == [] then []
    else
      var last := PrintClause(clauses[|clauses| - 1], negative);
      PrintClauses(clauses[..|clauses| - 1], negative) + if last.Some? then [last.value] else []
  }

  function PrintFilter(q: BoolQuery): string {
    Join(PrintClauses(q.filter, false) + PrintClauses(q.mustNot, true), AND)
  }

  /** A query in Typesense's dialect. None is the exception that a query in neither
      dialect causes. */
  function ToTypesense(sq: SearchQuery): Option<SearchQuery> {
    if sq.filterBy.Some? then Some(sq)
    else if sq.query.None? then None
    else Some(SearchQuery(None, None, None,
                          Some(PrintFilter(sq.query.value)), Some(Or(sq.from, 0)), Some(Or(sq.size, 10))))
  }

  /** TypesenseMetadataQuery.buildQuery. */
  method BuildTypesenseQuery(searchQuery: SearchQuery) returns (r: Option<SearchQuery>)
    ensures r == ToTypesense(searchQuery)
  {
    if searchQuery.filterBy.Some? {
      return Some(searchQuery);
    }
    if searchQuery.query.None? {
      return None;
    }
    var query := searchQuery.query.value;
    var filters: seq<string> := [];
    var i := 0;
    while i < |query.filter|
      invariant 0 <= i <= |query.filter|
      invariant filters == PrintClauses(query.filter[..i], false)
    {
      assert query.filter[..i + 1][..i] == query.filter[..i];
      match query.filter[i] {
        case Term(field, value) => filters := filters + [field + ":=" + value];
        case NoValue(field) => filters := filters + [field + ":=" + "undefined"];
        case Terms(field, values) => filters := filters + [field + ":=" + "[" + Join(values, ",") + "]"];
        case Other =>
      }
      i := i + 1;
    }
    assert query.filter[..i] == query.filter;
    var j := 0;
    while j < |query.mustNot|
      invariant 0 <= j <= |query.mustNot|
      invariant filters == PrintClauses(query.filter, false) + PrintClauses(query.mustNot[..j], true)
    {
      assert query.mustNot[..j + 1][..j] == query.mustNot[..j];
      match query.mustNot[j] {
        case Term(field, value) => filters := filters + [field + ":!=" + value];
        case NoValue(field) => filters := filters + [field + ":!=" + "undefined"];
        case Terms(field, values) => filters := filters + [field + ":!=" + "[" + Join(values, ",") + "]"];
        case Other =>
      }
      j := j + 1;
    }
    assert query.mustNot[..j] == query.mustNot;
    var filterBy := "";
    if |filters| > 0 {
      filterBy := Join(filters, AND);
    }
    return Some(SearchQuery(None, None, None, Some(filterBy),
                            Some(Or(searchQuery.from, 0)), Some(Or(searchQuery.size, 10))));
  }

  // ---------- filter string to bool query ----------

  /** One part of a filter string: whether it is negative, and the clause it becomes. */
  function ParsePart(part: string): (bool, Clause) {
    if Contains(part, "!=") then
      var pieces := Split(part, ":!=");
      (true, if |pieces| > 1 then Term(pieces[0], pieces[1]) else NoValue(pieces[0]))
    else if Contains(part, ":=[") then
      var pieces := Split(part, ":=[");
      (false, Terms(pieces[0], Split(ReplaceFirst(pieces[1], "]", ""), ",")))
    else
      var pieces := Split(part, ":=");
      (false, if |pieces| > 1 then Term(pieces[0], pieces[1]) else NoValue(pieces[0]))
  }

  function ParseParts(parts: seq<string>): BoolQuery {
    if parts == [] then BoolQuery([], [])
    else
      var before := ParseParts(parts[..|parts| - 1]);
      var (negative, clause) := ParsePart(parts[|parts| - 1]);
      if negative then before.(mustNot := before.mustNot + [clause])
      else before.(filter := before.filter + [clause])
  }

  function ParseFilter(filterBy: string): BoolQuery {
    if filterBy == "" then BoolQuery([], []) else ParseParts(Split(filterBy, AND))
  }

  /** A query in Elasticsearch's dialect. */
  function ToElastic(sq: SearchQuery): SearchQuery {
    if sq.query.Some? then sq
    else
      var filterBy := if sq.filterBy.Some? then sq.filterBy.value else "";
      SearchQuery(Some(ParseFilter(filterBy)), Some(Or(sq.start, 0)), Some(Or(sq.numHits, 10)), None, None, None)
  }

  /** A query that is in the dialect asked for stays as it is, so translating twice is
      translating once. */
  lemma TranslationIsIdempotent(sq: SearchQuery)
    ensures ToElastic(ToElastic(sq)) == ToElastic(sq)
    ensures ToTypesense(sq).Some? ==> ToTypesense(ToTypesense(sq).value) == ToTypesense(sq)
  {
  }

  /** ElasticSearchMetadataQuery.buildQuery. */
  method BuildElasticQuery(searchQuery: SearchQuery) returns (r: SearchQuery)
    ensures r == ToElastic(searchQuery)
  {
    hide Split, Contains, IndexOf, ReplaceFirst;
    if searchQuery.query.Some? {
      return searchQuery;
    }
    var bool' := BoolQuery([], []);
    if searchQuery.filterBy.Some? && searchQuery.filterBy.value != "" {
      var filters := Split(searchQuery.filterBy.value, AND);
      var i := 0;
      while i < |filters|
        invariant 0 <= i <= |filters|
        invariant bool' == ParseParts(filters[..i])
      {
        assert filters[..i + 1][..i] == filters[..i];
        var filter := filters[i];
        if Contains(filter, "!=") {
          var pieces := Split(filter, ":!=");
          var term := if |pieces| > 1 then Term(pieces[0], pieces[1]) else NoValue(pieces[0]);
          bool' := bool'.(mustNot := bool'.mustNot + [term]);
        } else if Contains(filter, ":=[") {
          var pieces := Split(filter, ":=[");
          var values := Split(ReplaceFirst(pieces[1], "]", ""), ",");
          bool' := bool'.(filter := bool'.filter + [Terms(pieces[0], values)]);
        } else {
          var pieces := Split(filter, ":=");
          var term := if |pieces| > 1 then Term(pieces[0], pieces[1]) else NoValue(pieces[0]);
          bool' := bool'.(filter := bool'.filter + [term]);
        }
        i := i + 1;
      }
      assert filters[..i] == filters;
    }
    return SearchQuery(Some(bool'), Some(Or(searchQuery.start, 0)), Some(Or(searchQuery.numHits, 10)),
                       None, None, None);
  }
}
