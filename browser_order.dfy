/**
 * The ordering rules of the browser views: `get_order_by` chooses the list of fields a query
 * is ordered by, and `get_aggregate_func` chooses the expression that is annotated as the
 * `order_value` of each row. Django's query expressions are represented by the datatypes
 * below; the ordering of the Comic model and of the other models are passed in.
 */
module BrowserOrder {
  import opened Wrappers

  /** The model classes a browser view groups by. */
  datatype Model = Publisher | Imprint | Series | Volume | Comic | Folder

  /** The aggregate functions of `_ORDER_AGGREGATE_FUNCS`, and Max, which replaces Min on a reversed order. */
  datatype AggFunc = Avg | Min | Max | Sum

  /** The argument of an aggregate: a column by name, or the file-name part of a path column (`_get_path_query_func`). */
  datatype Column = Column(name: string) | FileName(name: string)

  datatype OrderExpr =
    | NoSearchScore                                          // `_NO_SEARCH_SCORE`: Value(None, IntegerField())
    | NullValue                                              // Value(None, output_field=CharField())
    | PathFunc(field: string)                                // `_get_path_query_func(field)`
    | FieldRef(field: string)                                // F(field)
    | Aggregate(func: AggFunc, arg: Column, queryPk: Option<int>) // agg_func(full_field, filters=Q(comic__searchresult__query=pk))

  /** `_ORDER_AGGREGATE_FUNCS`. */
  const OrderAggregateFuncs: map<string, AggFunc> := map[
    "age_rating" := Avg,
    "community_rating" := Avg,
    "created_at" := Min,
    "critical_rating" := Avg,
    "date" := Min,
    "page_count" := Sum,
    "path" := Min,
    "size" := Sum,
    "updated_at" := Min,
    "searchresult__score" := Min]

  /** `_ORDER_BY_FIELD_ALIASES`. */
  const OrderByFieldAliases: map<string, string> := map["search_score" := "searchresult__score"]

  const DefaultOrderKey := "sort_name"

  /** The default ordering of Comic and Folder rows outside cover-path mode. */
  const DefaultComicOrderFields := ["series_name", "volume_name", "unionfix_issue", "unionfix_issue_suffix", "name"]

  /** Python truthiness of an optional primary key: None and 0 are false. */
  predicate Truthy(pk: Option<int>)
  {
    pk.Some? && pk.value != 0
  }

  /** An order key that asks for the default sort: "sort_name" or empty. */
  predicate IsDefaultKey(key: string)
  {
    key == "sort_name" || key == ""
  }

  predicate StartsWith(s: string, prefix: string)
  {
    |prefix| <= |s| && s[..|prefix|] == prefix
  }

  /** The field `get_aggregate_func` orders by ("" for Python's None), once the no-score case is excluded. */
  function AggregateField(orderKey: string): (field: string)
    ensures field == "" <==> IsDefaultKey(orderKey)
    ensures orderKey == "search_score" ==> field == "searchresult__score"
    ensures orderKey != "search_score" && !IsDefaultKey(orderKey) ==> field == orderKey
  {
    if orderKey == "search_score" then "searchresult__score"
    else if IsDefaultKey(orderKey) then ""
    else orderKey
  }

  /** `get_aggregate_func(order_key, model, autoquery_pk)` with `order_reverse` from the request params. */
  function GetAggregateFunc(orderKey: string, model: Model, autoqueryPk: Option<int>, orderReverse: bool): (r: Result<OrderExpr>)
    // the no-score constant exactly for a search-score order without a search
    ensures r == Ok(NoSearchScore) <==> orderKey == "search_score" && !Truthy(autoqueryPk)
    // a null value exactly for the default sort
    ensures r == Ok(NullValue) <==> IsDefaultKey(orderKey)
    // Comic rows are never aggregated and never fail
    ensures model == Comic ==> r.Ok? && !r.value.Aggregate?
    // only a group model can fail, on a field the aggregate table does not list
    ensures r.Err? ==> model != Comic && AggregateField(orderKey) !in OrderAggregateFuncs
    // an aggregate always reads a column of the group's comics, filtered by the search
    ensures r.Ok? && r.value.Aggregate? ==>
      model != Comic && r.value.queryPk == autoqueryPk &&
      (r.value.arg.Column? ==> StartsWith(r.value.arg.name, "comic__")) &&
      (r.value.arg.FileName? ==> r.value.arg.name == "comic__path")
    // Max appears only in place of Min on a reversed order, and Min only on an unreversed one
    ensures r.Ok? && r.value.Aggregate? && r.value.func == Max ==> orderReverse
    ensures r.Ok? && r.value.Aggregate? && r.value.func == Min ==> !orderReverse
  {
    if orderKey == "search_score" && !Truthy(autoqueryPk) then Ok(NoSearchScore)
    else
      var field := AggregateField(orderKey);
      if field == "" then Ok(NullValue)
      else if field == "path" && (model == Comic || model == Folder) then Ok(PathFunc(field))
      else if model == Comic then Ok(FieldRef(field))
      else if field !in OrderAggregateFuncs then Err(KeyError(field))
      else
        var aggFunc := OrderAggregateFuncs[field];
        var aggFunc := if aggFunc == Min && orderReverse then Max else aggFunc;
        var fullField := if field == "path" then FileName("comic__" + field) else Column("comic__" + field);
        Ok(Aggregate(aggFunc, fullField, autoqueryPk))
  }

  /** `path` on Comic and Folder rows sorts by the file name; any other field on Comic rows is a plain column. */
  lemma AggregateFuncComicAndFolder(orderKey: string, model: Model, autoqueryPk: Option<int>, orderReverse: bool)
    requires !IsDefaultKey(orderKey) && !(orderKey == "search_score" && !Truthy(autoqueryPk))
    ensures AggregateField(orderKey) == "path" && (model == Comic || model == Folder) ==>
      GetAggregateFunc(orderKey, model, autoqueryPk, orderReverse) == Ok(PathFunc("path"))
    ensures AggregateField(orderKey) != "path" && model == Comic ==>
      GetAggregateFunc(orderKey, model, autoqueryPk, orderReverse) == Ok(FieldRef(AggregateField(orderKey)))
  {
  }

  /**
   * For group rows the table decides: a listed field is aggregated over the group's comics
   * with its function, Min turned into Max exactly on a reversed order; an unlisted one fails.
   */
  lemma AggregateFuncGroups(orderKey: string, model: Model, autoqueryPk: Option<int>, orderReverse: bool)
    requires model != Comic && !IsDefaultKey(orderKey) && !(orderKey == "search_score" && !Truthy(autoqueryPk))
    requires !(model == Folder && AggregateField(orderKey) == "path")
    ensures var field := AggregateField(orderKey);
      var r := GetAggregateFunc(orderKey, model, autoqueryPk, orderReverse);
      (r.Err? <==> field !in OrderAggregateFuncs) &&
      (r.Err? ==> r.error == KeyError(field)) &&
      (field in OrderAggregateFuncs ==>
        var f := OrderAggregateFuncs[field];
        r == Ok(Aggregate(if f == Min && orderReverse then Max else f,
                          if field == "path" then FileName("comic__path") else Column("comic__" + field),
                          autoqueryPk)))
  {
  }

  /** The search-score order with a search in progress aggregates Min (Max reversed) of the comics' scores. */
  lemma AggregateFuncSearchScore(model: Model, autoqueryPk: Option<int>, orderReverse: bool)
    requires Truthy(autoqueryPk) && model != Comic
    ensures GetAggregateFunc("search_score", model, autoqueryPk, orderReverse) ==
      Ok(Aggregate(if orderReverse then Max else Min, Column("comic__searchresult__score"), autoqueryPk))
  {
    assert "comic__" + "searchresult__score" == "comic__searchresult__score";
    assert OrderAggregateFuncs["searchresult__score"] == Min;
  }

  /** The prefix of every order field: "-" on a reversed order, then "comic__" in cover-path mode. */
  function OrderPrefix(orderReverse: bool, forCoverPath: bool): (p: string)
    ensures |p| == (if orderReverse then 1 else 0) + (if forCoverPath then 7 else 0)
  {
    (if orderReverse then "-" else "") + (if forCoverPath then "comic__" else "")
  }

  lemma OrderPrefixSpec(orderReverse: bool, forCoverPath: bool)
    ensures var p := OrderPrefix(orderReverse, forCoverPath);
      (StartsWith(p, "-") <==> orderReverse) &&
      (forCoverPath ==> p[|p| - 7..] == "comic__") &&
      (!forCoverPath ==> |p| <= 1)
  {
    var p := OrderPrefix(orderReverse, forCoverPath);
    if !orderReverse && forCoverPath {
      assert p[0] == 'c';
    }
  }

  /** The order fields `get_order_by` chooses before "pk" is appended and the prefix added. */
  function BaseOrderFields(model: Model, forCoverPath: bool, orderBy: Option<string>, comicOrdering: seq<string>, modelOrdering: seq<string>): (r: seq<string>)
    // the choice is empty only when the ordering it copies is: Comic's in cover-path mode, a group model's otherwise
    ensures r == [] ==> (forCoverPath ==> comicOrdering == []) && (!forCoverPath ==> modelOrdering == [] && model != Comic && model != Folder)
    // outside cover-path mode the rows are ordered by a model's ordering or by the annotated `order_value` alone
    ensures !forCoverPath ==> r == DefaultComicOrderFields || r == modelOrdering || r == ["order_value"]
  {
    var orderKey := if orderBy.Some? then orderBy.value else DefaultOrderKey;
    if forCoverPath then
      var field := if orderKey in OrderByFieldAliases then OrderByFieldAliases[orderKey] else orderKey;
      if IsDefaultKey(field) then comicOrdering else [field]
    else if IsDefaultKey(orderKey) then
      if model == Comic || model == Folder then DefaultComicOrderFields else modelOrdering
    else ["order_value"]
  }

  /** Every field of `fields` behind `prefix`: the list comprehension `[prefix + field for field in order_fields]`. */
  function Prefixed(prefix: string, fields: seq<string>): seq<string>
  {
    seq(|fields|, i requires 0 <= i < |fields| => prefix + fields[i])
  }

  /**
   * `get_order_by(model, for_cover_path)` with `order_by` and `order_reverse` from the request
   * params, `Comic.ORDERING` and `model._meta.ordering`. An empty base ordering makes the
   * source's `order_fields[-1]` raise IndexError.
   */
  function GetOrderBy(model: Model, forCoverPath: bool, orderBy: Option<string>, orderReverse: bool, comicOrdering: seq<string>, modelOrdering: seq<string>): (r: Result<seq<string>>)
    ensures var base := BaseOrderFields(model, forCoverPath, orderBy, comicOrdering, modelOrdering);
      var prefix := OrderPrefix(orderReverse, forCoverPath);
      (r.Err? <==> base == []) &&
      (r.Ok? ==>
        // never empty, and ends with the prefixed primary key, appended only when missing
        |r.value| > 0 && r.value[|r.value| - 1] == prefix + "pk" &&
        |r.value| == |base| + (if base[|base| - 1] == "pk" then 0 else 1) &&
        // the chosen fields in order, each behind the same prefix
        (forall i :: 0 <= i < |base| ==> r.value[i] == prefix + base[i]) &&
        (forall i :: 0 <= i < |r.value| ==> StartsWith(r.value[i], prefix)))
  {
    var prefix := OrderPrefix(orderReverse, forCoverPath);
    var orderFields := BaseOrderFields(model, forCoverPath, orderBy, comicOrdering, modelOrdering);
    if orderFields == [] then Err(IndexError)
    else
      var orderFields := if orderFields[|orderFields| - 1] != "pk" then orderFields + ["pk"] else orderFields;
      Ok(Prefixed(prefix, orderFields))
  }

  /** A missing `order_by` param means the default key "sort_name". */
  lemma OrderByDefaultsToSortName(model: Model, forCoverPath: bool, comicOrdering: seq<string>, modelOrdering: seq<string>)
    ensures BaseOrderFields(model, forCoverPath, None, comicOrdering, modelOrdering)
         == BaseOrderFields(model, forCoverPath, Some(DefaultOrderKey), comicOrdering, modelOrdering)
  {
  }

  /** Outside cover-path mode a non-default key orders by the annotated `order_value`, then "pk". */
  lemma OrderByNonDefaultKey(model: Model, key: string, orderReverse: bool, comicOrdering: seq<string>, modelOrdering: seq<string>)
    requires !IsDefaultKey(key)
    ensures GetOrderBy(model, false, Some(key), orderReverse, comicOrdering, modelOrdering)
         == Ok([OrderPrefix(orderReverse, false) + "order_value", OrderPrefix(orderReverse, false) + "pk"])
  {
    var p := OrderPrefix(orderReverse, false);
    var r := GetOrderBy(model, false, Some(key), orderReverse, comicOrdering, modelOrdering);
    assert BaseOrderFields(model, false, Some(key), comicOrdering, modelOrdering) == ["order_value"];
    assert "order_value"[0] != "pk"[0];
    assert |r.value| == 2;
    assert r.value == [p + "order_value", p + "pk"];
  }

  /** Outside cover-path mode the default key orders Comic and Folder rows by series, volume, issue, suffix, name, pk. */
  lemma OrderByDefaultForComics(model: Model, key: string, orderReverse: bool, comicOrdering: seq<string>, modelOrdering: seq<string>)
    requires IsDefaultKey(key) && (model == Comic || model == Folder)
    ensures var p := OrderPrefix(orderReverse, false);
      GetOrderBy(model, false, Some(key), orderReverse, comicOrdering, modelOrdering)
      == Ok([p + "series_name", p + "volume_name", p + "unionfix_issue", p + "unionfix_issue_suffix", p + "name", p + "pk"])
  {
    var p := OrderPrefix(orderReverse, false);
    var r := GetOrderBy(model, false, Some(key), orderReverse, comicOrdering, modelOrdering);
    assert DefaultComicOrderFields[4][0] != "pk"[0];
    assert |r.value| == 6;
    assert r.value == [p + "series_name", p + "volume_name", p + "unionfix_issue", p + "unionfix_issue_suffix", p + "name", p + "pk"];
  }

  /** Outside cover-path mode the default key orders group rows by the model's own ordering. */
  lemma OrderByDefaultForGroups(model: Model, key: string, orderReverse: bool, comicOrdering: seq<string>, modelOrdering: seq<string>)
    requires IsDefaultKey(key) && model != Comic && model != Folder
    ensures BaseOrderFields(model, false, Some(key), comicOrdering, modelOrdering) == modelOrdering
  {
  }

  /**
   * In cover-path mode "search_score" becomes "searchresult__score", the default key uses the
   * comic ordering, and any other key orders by itself.
   */
  lemma OrderByCoverPath(model: Model, key: string, orderReverse: bool, comicOrdering: seq<string>, modelOrdering: seq<string>)
    ensures key == "search_score" ==>
      GetOrderBy(model, true, Some(key), orderReverse, comicOrdering, modelOrdering)
      == Ok([OrderPrefix(orderReverse, true) + "searchresult__score", OrderPrefix(orderReverse, true) + "pk"])
    ensures IsDefaultKey(key) ==> BaseOrderFields(model, true, Some(key), comicOrdering, modelOrdering) == comicOrdering
    ensures key != "search_score" && !IsDefaultKey(key) ==> BaseOrderFields(model, true, Some(key), comicOrdering, modelOrdering) == [key]
  {
    if key == "search_score" {
      var r := GetOrderBy(model, true, Some(key), orderReverse, comicOrdering, modelOrdering);
      assert BaseOrderFields(model, true, Some(key), comicOrdering, modelOrdering) == ["searchresult__score"];
      assert "searchresult__score"[0] != "pk"[0];
      assert |r.value| == 2;
      var p := OrderPrefix(orderReverse, true);
      assert r.value == [p + "searchresult__score", p + "pk"];
    }
  }

  /** A prefixed list of fields holds `prefix + x` only if the list held `x`. */
  lemma PrefixedMember(prefix: string, fields: seq<string>, x: string)
    ensures prefix + x in Prefixed(prefix, fields) ==> x in fields
  {
    var r := Prefixed(prefix, fields);
    if prefix + x in r {
      var i :| 0 <= i < |r| && r[i] == prefix + x;
      assert x == (prefix + x)[|prefix|..] == (prefix + fields[i])[|prefix|..] == fields[i];
    }
  }

  /**
   * The two rules agree outside cover-path mode: the rows are ordered by the annotated
   * `order_value` exactly when the aggregate for the same key is not the null value of the
   * default sort (given that no model ordering names `order_value` itself).
   */
  lemma OrderValueExactlyWhenAggregated(model: Model, key: string, orderReverse: bool, autoqueryPk: Option<int>,
                                        comicOrdering: seq<string>, modelOrdering: seq<string>)
    requires "order_value" !in modelOrdering && modelOrdering != []
    ensures var r := GetOrderBy(model, false, Some(key), orderReverse, comicOrdering, modelOrdering);
      r.Ok? &&
      ((OrderPrefix(orderReverse, false) + "order_value" in r.value) <==> GetAggregateFunc(key, model, autoqueryPk, orderReverse) != Ok(NullValue))
  {
    var p := OrderPrefix(orderReverse, false);
    var base := BaseOrderFields(model, false, Some(key), comicOrdering, modelOrdering);
    var r := GetOrderBy(model, false, Some(key), orderReverse, comicOrdering, modelOrdering);
    if IsDefaultKey(key) {
      assert "order_value" !in base + ["pk"];
      var fields := if base[|base| - 1] != "pk" then base + ["pk"] else base;
      assert r.value == Prefixed(p, fields);
      PrefixedMember(p, fields, "order_value");
    } else {
      assert r.value[0] == p + "order_value";
    }
  }
}
