/**
 * `search`: the metric table, the option defaults and the similarity query
 * text. Only the query vector is bound as a parameter; the vector field, the
 * collection and the limit are written into the text as they come.
 */
module Search {
  import opened PyValues
  import opened Sql

  datatype Metric = L2 | InnerProduct | Cosine

  const MetricNames: set<string> := {"l2", "ip", "cosine"}

  /** The name a request uses for a metric. */
  function MetricName(m: Metric): string {
    match m
    case L2 => "l2"
    case InnerProduct => "ip"
    case Cosine => "cosine"
  }

  /** Looks a metric name up in the table; exactly the three names are known. */
  function ParseMetric(name: string): (r: Option<Metric>)
    ensures r.Some? ==> MetricName(r.value) == name
    ensures r.None? <==> name !in MetricNames
  {
    if name == "l2" then Some(L2)
    else if name == "ip" then Some(InnerProduct)
    else if name == "cosine" then Some(Cosine)
    else None
  }

  /** Every metric is found again under its own name. */
  lemma ParseMetricName(m: Metric)
    ensures ParseMetric(MetricName(m)) == Some(m)
  {
  }

  /** The pgvector distance operator of a metric. */
  function Operator(m: Metric): string {
    match m
    case L2 => "<->"
    case InnerProduct => "<#>"
    case Cosine => "<=>"
  }

  /** Subscripting the metric table with the request's metric value: a list
      or dict cannot be a key (TypeError), any other unknown value is a
      KeyError. */
  function MetricOperator(metric: Value): (r: Result<string>)
    ensures r.Ok? <==> metric.Str? && metric.s in MetricNames
    ensures r.Ok? ==> r.value == Operator(ParseMetric(metric.s).value)
    ensures r.Err? ==> r.error == (if metric.Arr? || metric.Obj? then TypeError else KeyError(metric))
  {
    match metric
    case Arr(_) => Err(TypeError)
    case Obj(_) => Err(TypeError)
    case Str(name) =>
      (match ParseMetric(name)
       case Some(m) => Ok(Operator(m))
       case None => Err(KeyError(metric)))
    case _ => Err(KeyError(metric))
  }

  /** Metrics the web client offers but the table does not know fail. */
  lemma ClientOnlyMetricsFail()
    ensures MetricOperator(Str("jaccard")) == Err(KeyError(Str("jaccard")))
    ensures MetricOperator(Str("hamming")) == Err(KeyError(Str("hamming")))
  {
  }

  /** What `search` reads from the body. */
  datatype Query = Query(vectorField: Value, collection: Value, embeddings: Value,
                         limit: Value, metricType: Value)

  /** `body.get("options", {})`, which `search` then asks with `.get`:
      options that are not a dict have no `get` (AttributeError). */
  function Options(body: Dict): (r: Result<Dict>)
    ensures r.Err? <==> Get(body, "options").Some? && !Get(body, "options").value.Obj?
    ensures r.Err? ==> r.error == AttributeError
    ensures r.Ok? ==> GetOr(body, "options", Obj([])) == Obj(r.value)
  {
    match GetOr(body, "options", Obj([]))
    case Obj(options) => Ok(options)
    case _ => Err(AttributeError)
  }

  /** The body's keys in the order `search` reads them: `id` and `pc` must be
      present though they are not used; `limit` defaults to 10 and
      `metricType` to "cosine". */
  function SearchRequest(body: Dict): (r: Result<Query>)
    ensures r.Ok? <==> && Get(body, "id").Some? && Get(body, "pc").Some?
                       && Get(body, "collection").Some? && Get(body, "vectorField").Some?
                       && Get(body, "embeddings").Some? && Options(body).Ok?
    ensures r.Ok? ==> && r.value.collection == Get(body, "collection").value
                      && r.value.vectorField == Get(body, "vectorField").value
                      && r.value.embeddings == Get(body, "embeddings").value
    ensures r.Ok? ==> && r.value.limit == GetOr(Options(body).value, "limit", Int(10))
                      && r.value.metricType == GetOr(Options(body).value, "metricType", Str("cosine"))
  {
    var id :- Lookup(body, "id");
    var pc :- Lookup(body, "pc");
    var collection :- Lookup(body, "collection");
    var vectorField :- Lookup(body, "vectorField");
    var embeddings :- Lookup(body, "embeddings");
    var options :- Options(body);
    Ok(Query(vectorField, collection, embeddings,
             GetOr(options, "limit", Int(10)), GetOr(options, "metricType", Str("cosine"))))
  }

  /** The query text, with the one slot for the query vector. */
  function SearchText(vectorField: string, operator: string, collection: string, limit: string): string {
    "\n    SELECT *, 1 - (" + vectorField + " " + operator + " %s) AS similarity\n    FROM "
    + collection + "\n    ORDER BY similarity DESC\n    LIMIT " + limit + "\n    "
  }

  /** The text is the similarity expression over the vector field, the
      collection it reads, and the ordering on similarity, best first, with
      the limit. */
  lemma SearchTextShape(vectorField: string, operator: string, collection: string, limit: string)
    ensures var text := SearchText(vectorField, operator, collection, limit);
            var head := "\n    SELECT *, 1 - (" + vectorField + " " + operator + " %s) AS similarity";
            var tail := "\n    ORDER BY similarity DESC\n    LIMIT " + limit + "\n    ";
            && text == head + "\n    FROM " + collection + tail
            && text[..|head|] == head
            && EndsWith(text, "\n    ORDER BY similarity DESC\n    LIMIT " + limit + "\n    ")
  {
    var text := SearchText(vectorField, operator, collection, limit);
    var head := "\n    SELECT *, 1 - (" + vectorField + " " + operator + " %s) AS similarity";
    var suffix := "\n    ORDER BY similarity DESC\n    LIMIT " + limit + "\n    ";
    assert text == head + ("\n    FROM " + collection) + suffix;
    assert text[|text| - |suffix|..] == suffix;
  }

  /** The part of the text before the slot. */
  function SearchHead(vectorField: string, operator: string): string {
    "\n    SELECT *, 1 - (" + vectorField + " " + operator + " "
  }

  /** The part of the text after the slot. */
  function SearchTail(collection: string, limit: string): string {
    ") AS similarity\n    FROM " + collection + "\n    ORDER BY similarity DESC\n    LIMIT " + limit + "\n    "
  }

  lemma SearchTextSplit(vectorField: string, operator: string, collection: string, limit: string)
    ensures SearchText(vectorField, operator, collection, limit)
            == SearchHead(vectorField, operator) + "%s" + SearchTail(collection, limit)
  {
  }

  lemma SearchPartsPlain(vectorField: string, operator: string, collection: string, limit: string)
    requires '%' !in vectorField && '%' !in operator && '%' !in collection && '%' !in limit
    ensures '%' !in SearchHead(vectorField, operator) && '%' !in SearchTail(collection, limit)
  {
  }

  /** When the interpolated parts carry no percent sign, the text has exactly
      one slot. */
  lemma SearchTextOneSlot(vectorField: string, operator: string, collection: string, limit: string)
    requires '%' !in vectorField && '%' !in operator && '%' !in collection && '%' !in limit
    ensures Placeholders(SearchText(vectorField, operator, collection, limit)) == 1
  {
    SearchTextSplit(vectorField, operator, collection, limit);
    SearchPartsPlain(vectorField, operator, collection, limit);
    PlaceholdersPlainSlot(SearchHead(vectorField, operator), SearchTail(collection, limit));
    PlaceholdersPlain(SearchTail(collection, limit));
  }

  /** The command `search` executes, or the exception it raises first. */
  function SearchCommand(body: Dict): (r: Result<Command>)
    ensures r.Ok? <==> SearchRequest(body).Ok? && MetricOperator(SearchRequest(body).value.metricType).Ok?
    ensures r.Ok? ==> r.value.params == [SearchRequest(body).value.embeddings]
  {
    var q :- SearchRequest(body);
    var operator :- MetricOperator(q.metricType);
    Ok(Command(SearchText(Show(q.vectorField), operator, Show(q.collection), Show(q.limit)), [q.embeddings]))
  }

  /** The text `search` executes: the similarity expression over the vector
      field with the metric's operator and the query vector's slot, read from
      the request's collection, ordered best first and cut at the limit. */
  lemma SearchCommandText(body: Dict)
    requires SearchCommand(body).Ok?
    ensures var q := SearchRequest(body).value;
            var text := SearchCommand(body).value.text;
            var head := "\n    SELECT *, 1 - (" + Show(q.vectorField) + " "
                        + Operator(ParseMetric(q.metricType.s).value) + " %s) AS similarity";
            var tail := "\n    ORDER BY similarity DESC\n    LIMIT " + Show(q.limit) + "\n    ";
            && text == head + "\n    FROM " + Show(q.collection) + tail
            && |head| <= |text| && text[..|head|] == head
            && EndsWith(text, tail)
  {
    var q := SearchRequest(body).value;
    SearchTextShape(Show(q.vectorField), MetricOperator(q.metricType).value, Show(q.collection), Show(q.limit));
  }

  /** Each option falls back to its default on its own: options without a
      `limit` give 10, options without a `metricType` give "cosine", and no
      options at all give both. */
  lemma DefaultOptions(body: Dict)
    requires SearchRequest(body).Ok?
    ensures Get(Options(body).value, "limit").None? ==> SearchRequest(body).value.limit == Int(10)
    ensures Get(Options(body).value, "metricType").None? ==> SearchRequest(body).value.metricType == Str("cosine")
    ensures Get(body, "options").None? ==> Options(body).value == []
  {
  }

  /** A given option is taken as it is sent. */
  lemma GivenOptions(body: Dict)
    requires SearchRequest(body).Ok?
    ensures Get(Options(body).value, "limit").Some? ==>
              SearchRequest(body).value.limit == Get(Options(body).value, "limit").value
    ensures Get(Options(body).value, "metricType").Some? ==>
              SearchRequest(body).value.metricType == Get(Options(body).value, "metricType").value
  {
  }

  lemma ShowTen()
    ensures Show(Int(10)) == "10"
  {
  }

  /** With no options the search uses the cosine operator and LIMIT 10. */
  lemma SearchDefaults(body: Dict)
    requires Get(body, "options").None?
    requires SearchRequest(body).Ok?
    ensures var q := SearchRequest(body).value;
            SearchCommand(body)
            == Ok(Command(SearchText(Show(q.vectorField), "<=>", Show(q.collection), "10"), [q.embeddings]))
  {
    DefaultOptions(body);
    assert Get(Options(body).value, "limit").None? && Get(Options(body).value, "metricType").None?;
    ShowTen();
    assert MetricOperator(Str("cosine")) == Ok("<=>") by {
      assert ParseMetric("cosine") == Some(Cosine);
    }
  }

  /** When the vector field, the collection and the limit carry no percent
      sign, the text has exactly one slot, matching the one parameter. */
  lemma SearchOneSlot(body: Dict)
    requires SearchCommand(body).Ok?
    requires var q := SearchRequest(body).value;
             '%' !in Show(q.vectorField) && '%' !in Show(q.collection) && '%' !in Show(q.limit)
    ensures WellBound(SearchCommand(body).value)
  {
    var q := SearchRequest(body).value;
    var operator := MetricOperator(q.metricType).value;
    assert '%' !in operator;
    SearchTextOneSlot(Show(q.vectorField), operator, Show(q.collection), Show(q.limit));
  }

  /** The vector field is written into the text unchecked: a field name that
      contains `%s` opens a second slot for the single parameter. */
  lemma VectorFieldOpensSlot(operator: string, collection: string, limit: string)
    requires '%' !in operator && '%' !in collection && '%' !in limit
    ensures Placeholders(SearchText("v%s", operator, collection, limit)) == 2
  {
    var tail := SearchTail(collection, limit);
    var mid := " " + operator + " ";
    SearchTextSplit("v%s", operator, collection, limit);
    SearchPartsPlain("", operator, collection, limit);
    assert SearchHead("v%s", operator) == "\n    SELECT *, 1 - (v" + "%s" + mid;
    assert SearchText("v%s", operator, collection, limit) == "\n    SELECT *, 1 - (v" + "%s" + (mid + "%s" + tail);
    PlaceholdersPlainSlot("\n    SELECT *, 1 - (v", mid + "%s" + tail);
    PlaceholdersPlainSlot(mid, tail);
    PlaceholdersPlain(tail);
  }
}
