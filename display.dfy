/**
 * What `display_model`, `display_search_results` and `display_providers`
 * pick out of a decoded response before handing it to the terminal
 * renderer (src/toktab/display.py): the header fields, the pricing and
 * context-window rows, the capability labels, the search-result rows and
 * the provider list. Styling, markup and the cost cells' text are not
 * modelled; a row carries the record value that its cell renders.
 */
module Display {

  import opened Wrappers
  import opened Decimal
  import opened Json
  import Tokens

  /** A record key shown under a label. */
  datatype Field = Field(key: string, caption: string)

  /** A table row: its label and the record value its cell renders. */
  datatype Row = Row(caption: string, value: Value)

  /** The capability flags, in the order the labels are shown. */
  const CapabilityFields: seq<Field> := [
    Field("supports_vision", "Vision"),
    Field("supports_function_calling", "Functions"),
    Field("supports_tool_choice", "Tool choice"),
    Field("supports_prompt_caching", "Caching"),
    Field("supports_response_schema", "Schema"),
    Field("supports_system_messages", "System msgs"),
    Field("supports_audio_input", "Audio in"),
    Field("supports_audio_output", "Audio out"),
    Field("supports_pdf_input", "PDF")
  ]

  /** The pricing rows that appear only when their field is truthy. */
  const CacheFields: seq<Field> := [
    Field("cache_read_input_token_cost", "Cache read"),
    Field("cache_creation_input_token_cost", "Cache write")
  ]

  /** The context-window rows, each shown only when its field is truthy. */
  const ContextFields: seq<Field> := [
    Field("max_input_tokens", "Max input"),
    Field("max_output_tokens", "Max output"),
    Field("max_tokens", "Max total")
  ]

  predicate Increasing(s: seq<nat>) {
    forall i, j :: 0 <= i < j < |s| ==> s[i] < s[j]
  }

  predicate DistinctLabels(fields: seq<Field>) {
    forall i, j :: 0 <= i < j < |fields| ==> fields[i].caption != fields[j].caption
  }

  /** The positions among the first `n` fields whose value in `data` is truthy. */
  function Present(data: Record, fields: seq<Field>, n: nat): seq<nat>
    requires n <= |fields|
  {
    if n == 0 then []
    else Present(data, fields, n - 1) + (if Truthy(Get(data, fields[n - 1].key)) then [n - 1] else [])
  }

  /**
   * The rows that `if value := data.get(key): table.add_row(label, value)`
   * adds for each of the first `n` fields in turn.
   */
  function TruthyRows(data: Record, fields: seq<Field>, n: nat): seq<Row>
    requires n <= |fields|
  {
    if n == 0 then []
    else
      var v := Get(data, fields[n - 1].key);
      TruthyRows(data, fields, n - 1) + (if Truthy(v) then [Row(fields[n - 1].caption, v)] else [])
  }

  function Labels(rows: seq<Row>): (labels: seq<string>)
    ensures |labels| == |rows| && forall k :: 0 <= k < |rows| ==> labels[k] == rows[k].caption
  {
    seq(|rows|, k requires 0 <= k < |rows| => rows[k].caption)
  }

  /** `Present` lists, in increasing order, exactly the positions whose field is truthy. */
  lemma {:induction false} PresentSpec(data: Record, fields: seq<Field>, n: nat)
    requires n <= |fields|
    ensures var sel := Present(data, fields, n);
      && Increasing(sel)
      && (forall k :: 0 <= k < |sel| ==> sel[k] < n)
      && (forall j :: 0 <= j < n ==> (j in sel <==> Truthy(Get(data, fields[j].key))))
  {
    if n > 0 {
      PresentSpec(data, fields, n - 1);
    }
  }

  /**
   * The rows are one per truthy field, in field order, each with that
   * field's label and value.
   */
  lemma {:induction false} TruthyRowsSpec(data: Record, fields: seq<Field>, n: nat)
    requires n <= |fields|
    ensures var rows, sel := TruthyRows(data, fields, n), Present(data, fields, n);
      && |rows| == |sel|
      && forall k :: 0 <= k < |rows| ==>
           sel[k] < |fields| && rows[k] == Row(fields[sel[k]].caption, Get(data, fields[sel[k]].key))
  {
    PresentSpec(data, fields, n);
    if n > 0 {
      TruthyRowsSpec(data, fields, n - 1);
    }
  }

  /** A field's row is present exactly when its value is truthy; no other row is present. */
  lemma TruthyRowsMembership(data: Record, fields: seq<Field>, n: nat)
    requires n <= |fields| && DistinctLabels(fields)
    ensures var rows := TruthyRows(data, fields, n);
      && |rows| <= n
      && (forall j :: 0 <= j < n ==>
           ((exists k :: 0 <= k < |rows| && rows[k].caption == fields[j].caption) <==> Truthy(Get(data, fields[j].key))))
      && (forall k :: 0 <= k < |rows| ==> Truthy(rows[k].value))
      && (forall i, k :: 0 <= i < k < |rows| ==> rows[i].caption != rows[k].caption)
  {
    var rows, sel := TruthyRows(data, fields, n), Present(data, fields, n);
    TruthyRowsSpec(data, fields, n);
    PresentSpec(data, fields, n);
    PresentBound(sel, n);
    forall j | 0 <= j < n
      ensures (exists k :: 0 <= k < |rows| && rows[k].caption == fields[j].caption) <==> Truthy(Get(data, fields[j].key))
    {
      if Truthy(Get(data, fields[j].key)) {
        var k :| 0 <= k < |sel| && sel[k] == j;
        assert rows[k].caption == fields[j].caption;
      }
    }
    forall k | 0 <= k < |rows| ensures Truthy(rows[k].value) {
      assert sel[k] in sel;
    }
  }

  /** An increasing sequence of positions below `n` has at most `n` entries. */
  lemma {:induction false} PresentBound(sel: seq<nat>, n: nat)
    requires Increasing(sel) && forall k :: 0 <= k < |sel| ==> sel[k] < n
    ensures |sel| <= n
  {
    if |sel| > 0 {
      var init := sel[..|sel| - 1];
      assert forall k :: 0 <= k < |init| ==> init[k] < sel[|sel| - 1];
      PresentBound(init, sel[|sel| - 1]);
    }
  }

  /** Some row is added exactly when some field is truthy. */
  lemma TruthyRowsNonEmpty(data: Record, fields: seq<Field>)
    ensures |TruthyRows(data, fields, |fields|)| > 0 <==> exists j :: 0 <= j < |fields| && Truthy(Get(data, fields[j].key))
  {
    var sel := Present(data, fields, |fields|);
    TruthyRowsSpec(data, fields, |fields|);
    PresentSpec(data, fields, |fields|);
    if |sel| > 0 {
      assert sel[0] in sel;
    }
  }

  /** A field's row, holding that field's value, is present exactly when the value is truthy. */
  lemma TruthyRowsHold(data: Record, fields: seq<Field>)
    requires DistinctLabels(fields)
    ensures var rows := TruthyRows(data, fields, |fields|);
      forall j :: 0 <= j < |fields| ==>
        ((exists k :: 0 <= k < |rows| && rows[k] == Row(fields[j].caption, Get(data, fields[j].key)))
         <==> Truthy(Get(data, fields[j].key)))
  {
    var rows, sel := TruthyRows(data, fields, |fields|), Present(data, fields, |fields|);
    TruthyRowsSpec(data, fields, |fields|);
    PresentSpec(data, fields, |fields|);
    TruthyRowsMembership(data, fields, |fields|);
    forall j | 0 <= j < |fields|
      ensures (exists k :: 0 <= k < |rows| && rows[k] == Row(fields[j].caption, Get(data, fields[j].key)))
              <==> Truthy(Get(data, fields[j].key))
    {
      if exists k :: 0 <= k < |rows| && rows[k] == Row(fields[j].caption, Get(data, fields[j].key)) {
        var k :| 0 <= k < |rows| && rows[k] == Row(fields[j].caption, Get(data, fields[j].key));
        assert rows[k].caption == fields[j].caption;
      }
      if Truthy(Get(data, fields[j].key)) {
        var k :| 0 <= k < |sel| && sel[k] == j;
        assert rows[k] == Row(fields[j].caption, Get(data, fields[j].key));
      }
    }
  }

  /** The labels of the truthy fields, in field order, each at most once. */
  lemma TruthyLabelsSpec(data: Record, fields: seq<Field>)
    requires DistinctLabels(fields)
    ensures var labels, sel := Labels(TruthyRows(data, fields, |fields|)), Present(data, fields, |fields|);
      && |labels| == |sel| && Increasing(sel)
      && (forall k :: 0 <= k < |labels| ==> sel[k] < |fields| && labels[k] == fields[sel[k]].caption)
      && (forall j :: 0 <= j < |fields| ==> (fields[j].caption in labels <==> Truthy(Get(data, fields[j].key))))
      && (forall i, k :: 0 <= i < k < |labels| ==> labels[i] != labels[k])
  {
    var rows := TruthyRows(data, fields, |fields|);
    var labels := Labels(rows);
    TruthyRowsSpec(data, fields, |fields|);
    PresentSpec(data, fields, |fields|);
    TruthyRowsMembership(data, fields, |fields|);
    forall j | 0 <= j < |fields|
      ensures fields[j].caption in labels <==> Truthy(Get(data, fields[j].key))
    {
      if fields[j].caption in labels {
        var k :| 0 <= k < |labels| && labels[k] == fields[j].caption;
        assert rows[k].caption == fields[j].caption;
      }
      if Truthy(Get(data, fields[j].key)) {
        var k :| 0 <= k < |rows| && rows[k].caption == fields[j].caption;
        assert labels[k] == fields[j].caption;
      }
    }
  }

  lemma CapabilityLabelsDistinct()
    ensures DistinctLabels(CapabilityFields)
  {
  }

  lemma ContextLabelsDistinct()
    ensures DistinctLabels(ContextFields)
  {
  }

  // ---- Capabilities -------------------------------------------------------

  /**
   * The capability labels `display_model` shows for `data`: exactly those
   * whose flag is truthy, in the fixed list order, each at most once.
   */
  function Capabilities(data: Record): (caps: seq<string>)
    ensures var sel := Present(data, CapabilityFields, |CapabilityFields|);
      && |caps| == |sel| && Increasing(sel)
      && (forall k :: 0 <= k < |caps| ==> sel[k] < |CapabilityFields| && caps[k] == CapabilityFields[sel[k]].caption)
      && (forall j :: 0 <= j < |CapabilityFields| ==>
           (CapabilityFields[j].caption in caps <==> Truthy(Get(data, CapabilityFields[j].key))))
      && (forall i, k :: 0 <= i < k < |caps| ==> caps[i] != caps[k])
    ensures |caps| > 0 <==> exists j :: 0 <= j < |CapabilityFields| && Truthy(Get(data, CapabilityFields[j].key))
  {
    CapabilityLabelsDistinct();
    TruthyLabelsSpec(data, CapabilityFields);
    TruthyRowsNonEmpty(data, CapabilityFields);
    Labels(TruthyRows(data, CapabilityFields, |CapabilityFields|))
  }

  /** The `for field, label in capability_fields` loop of `display_model`. */
  method CollectCapabilities(data: Record) returns (capabilities: seq<string>)
    ensures capabilities == Capabilities(data)
  {
    capabilities := [];
    for i := 0 to |CapabilityFields|
      invariant capabilities == Labels(TruthyRows(data, CapabilityFields, i))
    {
      var field := CapabilityFields[i];
      if Truthy(Get(data, field.key)) {
        capabilities := capabilities + [field.caption];
      }
    }
  }

  // ---- Model page ------------------------------------------------------------

  /**
   * The pricing table. It always starts with Input and Output; the Cache
   * read row is there exactly when its cost is truthy and comes before the
   * Cache write row, which is there exactly when its cost is truthy, and
   * is last.
   */
  function PricingRows(data: Record): (rows: seq<Row>)
    ensures var read, write := Get(data, "cache_read_input_token_cost"), Get(data, "cache_creation_input_token_cost");
      && |rows| == 2 + (if Truthy(read) then 1 else 0) + (if Truthy(write) then 1 else 0)
      && rows[0] == Row("Input", Get(data, "input_cost_per_token"))
      && rows[1] == Row("Output", Get(data, "output_cost_per_token"))
      && (Truthy(read) ==> rows[2] == Row("Cache read", read))
      && (Truthy(write) ==> rows[|rows| - 1] == Row("Cache write", write))
  {
    var read, write := Get(data, "cache_read_input_token_cost"), Get(data, "cache_creation_input_token_cost");
    assert TruthyRows(data, CacheFields, 1) == (if Truthy(read) then [Row("Cache read", read)] else []);
    assert TruthyRows(data, CacheFields, 2)
      == TruthyRows(data, CacheFields, 1) + (if Truthy(write) then [Row("Cache write", write)] else []);
    [Row("Input", Get(data, "input_cost_per_token")), Row("Output", Get(data, "output_cost_per_token"))]
      + TruthyRows(data, CacheFields, |CacheFields|)
  }

  /**
   * The context-window table: Max input, Max output, Max total in that
   * order, a row for a limit exactly when that limit is truthy, holding
   * that limit, and no other row.
   */
  function ContextRows(data: Record): (rows: seq<Row>)
    ensures var sel := Present(data, ContextFields, |ContextFields|);
      && |rows| == |sel| && Increasing(sel)
      && forall k :: 0 <= k < |rows| ==>
           sel[k] < |ContextFields| && rows[k] == Row(ContextFields[sel[k]].caption, Get(data, ContextFields[sel[k]].key))
    ensures |rows| <= |ContextFields|
    ensures forall j :: 0 <= j < |ContextFields| ==>
      ((exists k :: 0 <= k < |rows| && rows[k] == Row(ContextFields[j].caption, Get(data, ContextFields[j].key)))
       <==> Truthy(Get(data, ContextFields[j].key)))
    ensures forall k :: 0 <= k < |rows| ==> Truthy(rows[k].value)
    ensures |rows| > 0 <==> exists j :: 0 <= j < |ContextFields| && Truthy(Get(data, ContextFields[j].key))
  {
    ContextLabelsDistinct();
    TruthyRowsSpec(data, ContextFields, |ContextFields|);
    PresentSpec(data, ContextFields, |ContextFields|);
    TruthyRowsHold(data, ContextFields);
    TruthyRowsMembership(data, ContextFields, |ContextFields|);
    TruthyRowsNonEmpty(data, ContextFields);
    TruthyRows(data, ContextFields, |ContextFields|)
  }

  /**
   * The text of a context cell, `format_tokens(value)`, for an integer
   * limit: never `-`, and it reads back as the limit itself below one
   * thousand, and otherwise within half a tenth of the unit. The suffix
   * clauses of `Tokens.FormatTokens` then say which magnitude it shows.
   */
  function LimitCell(v: Value): (cell: Option<string>)
    ensures cell.Some? <==> v.Int?
    ensures v.Int? ==> cell.value == Tokens.FormatTokens(Some(v.i))
    ensures v.Int? ==> cell.value != "-" && Tokens.ReadTokens(cell.value).Some?
    ensures v.Int? ==> var m := Tokens.ReadTokens(cell.value).value;
      && (v.i < Tokens.Thousand ==> m == v.i)
      && (Tokens.Thousand <= v.i < Tokens.Million ==> 2 * m <= 2 * v.i + 100 && 2 * v.i <= 2 * m + 100)
      && (v.i >= Tokens.Million ==> 2 * m <= 2 * v.i + 100_000 && 2 * v.i <= 2 * m + 100_000)
  {
    if v.Int? then
      Tokens.FormatTokensReadBack(Some(v.i));
      Some(Tokens.FormatTokens(Some(v.i)))
    else None
  }

  /** Everything `display_model` shows for a record, before rendering. */
  datatype ModelPage = ModelPage(
    name: Value,
    provider: Value,
    pricing: seq<Row>,
    context: seq<Row>,
    capabilities: seq<string>)

  /**
   * The section headings printed: Pricing first, then Context Window and
   * Capabilities in that order, each exactly when its table has a row.
   */
  function Sections(page: ModelPage): (sections: seq<string>)
    ensures |sections| == 1 + (if |page.context| > 0 then 1 else 0) + (if |page.capabilities| > 0 then 1 else 0)
    ensures sections[0] == "Pricing" && "Pricing" !in sections[1..]
    ensures "Context Window" in sections <==> |page.context| > 0
    ensures "Capabilities" in sections <==> |page.capabilities| > 0
    ensures |page.context| > 0 ==> sections[1] == "Context Window"
  {
    ["Pricing"]
      + (if |page.context| > 0 then ["Context Window"] else [])
      + (if |page.capabilities| > 0 then ["Capabilities"] else [])
  }

  /**
   * The page of `display_model`: its three tables are those that
   * `PricingRows`, `ContextRows` and `Capabilities` describe. The header falls back from the model name
   * to the slug to `Unknown`, and the provider to `Unknown`, only for
   * MISSING keys. Pricing is always printed first; the Context Window
   * section exactly when some limit is truthy; the Capabilities section
   * exactly when some flag is.
   */
  function ModelPageOf(data: Record): (page: ModelPage)
    ensures page.pricing == PricingRows(data)
    ensures page.context == ContextRows(data)
    ensures page.capabilities == Capabilities(data)
    ensures "litellm_model_name" in data ==> page.name == data["litellm_model_name"]
    ensures "litellm_model_name" !in data && "slug" in data ==> page.name == data["slug"]
    ensures "litellm_model_name" !in data && "slug" !in data ==> page.name == Str("Unknown")
    ensures "litellm_provider" in data ==> page.provider == data["litellm_provider"]
    ensures "litellm_provider" !in data ==> page.provider == Str("Unknown")
    ensures var sections := Sections(page);
      && sections[0] == "Pricing"
      && ("Context Window" in sections <==>
           exists j :: 0 <= j < |ContextFields| && Truthy(Get(data, ContextFields[j].key)))
      && ("Capabilities" in sections <==>
           exists j :: 0 <= j < |CapabilityFields| && Truthy(Get(data, CapabilityFields[j].key)))
  {
    ModelPage(
      GetOr(data, "litellm_model_name", GetOr(data, "slug", Str("Unknown"))),
      GetOr(data, "litellm_provider", Str("Unknown")),
      PricingRows(data),
      ContextRows(data),
      Capabilities(data))
  }

  // ---- Search results -----------------------------------------------------------

  /** One row of the search table: model, provider, input cost, output cost. */
  datatype SearchRow = SearchRow(model: Value, provider: Value, inputCost: Value, outputCost: Value)

  /** What `display_search_results` shows: the no-match message, or the count line and the table. */
  datatype SearchPage =
    | NoModels(query: Value)
    | Found(count: Value, query: Value, rows: seq<SearchRow>)

  /**
   * The Python exception the display code would raise on a response of the
   * wrong shape: `len()` of a value without a length (`TypeError`), or
   * `.get` on a result that is not a dict (`AttributeError`).
   */
  datatype Fault = NotSized | NotAMapping

  /**
   * One search-table row. The model column falls back from slug to name to
   * `?`, the provider column to `-`, each only for a MISSING key; a missing
   * cost is `None`.
   */
  function SearchRowOf(model: Record): (row: SearchRow)
    ensures "slug" in model ==> row.model == model["slug"]
    ensures "slug" !in model && "name" in model ==> row.model == model["name"]
    ensures "slug" !in model && "name" !in model ==> row.model == Str("?")
    ensures "provider" in model ==> row.provider == model["provider"]
    ensures "provider" !in model ==> row.provider == Str("-")
    ensures "input_cost_per_token" in model ==> row.inputCost == model["input_cost_per_token"]
    ensures "input_cost_per_token" !in model ==> row.inputCost == Null
    ensures "output_cost_per_token" in model ==> row.outputCost == model["output_cost_per_token"]
    ensures "output_cost_per_token" !in model ==> row.outputCost == Null
  {
    SearchRow(
      GetOr(model, "slug", GetOr(model, "name", Str("?"))),
      GetOr(model, "provider", Str("-")),
      Get(model, "input_cost_per_token"),
      Get(model, "output_cost_per_token"))
  }

  /**
   * The rows of `for model in results: table.add_row(...)`: one row per
   * result, in order, exactly when every result is a dict; otherwise the
   * `.get` on the first non-dict entry raises.
   */
  function SearchRows(results: seq<Value>): (r: Result<seq<SearchRow>, Fault>)
    ensures r.Success? <==> forall k :: 0 <= k < |results| ==> results[k].Object?
    ensures r.Success? ==>
      |r.value| == |results| && forall k :: 0 <= k < |results| ==> r.value[k] == SearchRowOf(results[k].fields)
    ensures r.Failure? ==> r.error == NotAMapping
  {
    if results == [] then Success([])
    else
      var init := results[..|results| - 1];
      assert forall k :: 0 <= k < |init| ==> init[k] == results[k];
      match SearchRows(init)
      case Failure(e) => Failure(e)
      case Success(rows) =>
        match results[|results| - 1]
        case Object(m) => Success(rows + [SearchRowOf(m)])
        case _ => Failure(NotAMapping)
  }

  /** The loop of `display_search_results` that fills the table. */
  method BuildSearchRows(results: seq<Value>) returns (r: Result<seq<SearchRow>, Fault>)
    ensures r == SearchRows(results)
  {
    var rows: seq<SearchRow> := [];
    for i := 0 to |results|
      invariant SearchRows(results[..i]) == Success(rows)
    {
      assert results[..i + 1][..i] == results[..i];
      match results[i]
      case Object(m) =>
        rows := rows + [SearchRowOf(m)];
      case _ =>
        SearchRowsFailPrefix(results, i + 1);
        return Failure(NotAMapping);
    }
    assert results[..|results|] == results;
    r := Success(rows);
  }

  /** Once a prefix fails, the whole sequence fails the same way. */
  lemma {:induction false} SearchRowsFailPrefix(results: seq<Value>, n: nat)
    requires n <= |results| && SearchRows(results[..n]).Failure?
    ensures SearchRows(results) == SearchRows(results[..n])
    decreases |results| - n
  {
    if n < |results| {
      assert results[..n + 1][..n] == results[..n];
      SearchRowsFailPrefix(results, n + 1);
    } else {
      assert results[..n] == results;
    }
  }

  /**
   * `display_search_results` without `--json`. `len(results)` is evaluated
   * as the default of `count` before the emptiness test, so a result value
   * without a length raises even when it is falsy. The no-match page
   * appears exactly for missing or falsy results; any other value that is
   * not a list of dicts reaches `.get` on a non-dict and raises. A non-empty list of
   * dicts gives one row per result in order, with the count defaulting to
   * the number of results.
   */
  function SearchPageOf(data: Record): (r: Result<SearchPage, Fault>)
    ensures r == Failure(NotSized) <==> "results" in data && Length(data["results"]).None?
    ensures r.Success? && r.value.NoModels? <==>
      "results" !in data || (Length(data["results"]).Some? && !Truthy(data["results"]))
    ensures r.Success? && r.value.NoModels? ==> r.value.query == GetOr(data, "query", Str(""))
    ensures r == Failure(NotAMapping) <==>
      && "results" in data && Length(data["results"]).Some? && Truthy(data["results"])
      && !(data["results"].List? && forall k :: 0 <= k < |data["results"].items| ==> data["results"].items[k].Object?)
    ensures ("results" !in data || data["results"] == List([])) ==>
      r == Success(NoModels(GetOr(data, "query", Str(""))))
    ensures r.Success? && r.value.Found? ==>
      && "results" in data && data["results"].List?
      && var items := data["results"].items;
      && items != []
      && |r.value.rows| == |items|
      && (forall k :: 0 <= k < |items| ==> items[k].Object? && r.value.rows[k] == SearchRowOf(items[k].fields))
      && r.value.count == GetOr(data, "count", Int(|items|))
      && r.value.query == GetOr(data, "query", Str(""))
    ensures "results" in data && data["results"].List? && data["results"].items != []
      && (forall k :: 0 <= k < |data["results"].items| ==> data["results"].items[k].Object?)
      ==> r.Success? && r.value.Found?
  {
    var results := GetOr(data, "results", List([]));
    match Length(results)
    case None => Failure(NotSized)
    case Some(n) =>
      var count := GetOr(data, "count", Int(n));
      var query := GetOr(data, "query", Str(""));
      if !Truthy(results) then Success(NoModels(query))
      else if results.List? then
        match SearchRows(results.items)
        case Success(rows) => Success(Found(count, query, rows))
        case Failure(e) => Failure(e)
      else Failure(NotAMapping)
  }

  // ---- Providers -------------------------------------------------------------------

  const Bullet: string := "  • "

  /** The provider a listing line names, when the line is a bullet item. */
  function ListedProvider(line: string): Option<string> {
    if |line| >= |Bullet| && line[..|Bullet|] == Bullet then Some(line[|Bullet|..]) else None
  }

  /**
   * The text of `display_providers` without `--json`: the count shown in
   * the heading and one bullet line per provider, in order.
   */
  method ProviderListing(providers: seq<string>) returns (count: nat, lines: seq<string>)
    ensures count == |providers|
    ensures |lines| == |providers|
    ensures forall k :: 0 <= k < |lines| ==> ListedProvider(lines[k]) == Some(providers[k])
  {
    count := |providers|;
    lines := [];
    for i := 0 to |providers|
      invariant |lines| == i
      invariant forall k :: 0 <= k < i ==> ListedProvider(lines[k]) == Some(providers[k])
    {
      var line := Bullet + providers[i];
      assert line[..|Bullet|] == Bullet && line[|Bullet|..] == providers[i];
      lines := lines + [line];
    }
  }
}
