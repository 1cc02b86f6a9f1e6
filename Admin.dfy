/**
 * The Events admin list: the columns it shows, which of them sort, how a
 * sort on one of them becomes a meta-value sort, the two dropdown filters
 * that become a `meta_query`, and the date shown in the Date column.
 */
module Admin {
  import opened Wrappers
  import opened Php
  import opened Seqs
  import opened Entities
  import opened Helpers

  // ---------------------------------------------------------------------------
  // String-keyed PHP arrays
  // ---------------------------------------------------------------------------

  /** A PHP array with string keys and string values: its keys in insertion order, and its entries. */
  datatype StrArray = StrArray(keys: seq<string>, values: map<string, string>)

  /** Each key is listed once, and the listed keys are exactly those with an entry. */
  ghost predicate Wf(a: StrArray) {
    && Distinct(a.keys)
    && forall k {:trigger k in a.keys} :: k in a.values <==> k in a.keys
  }

  /** `$a[$k] = $v`: an existing key keeps its place, a new one goes last. */
  function Put(a: StrArray, k: string, v: string): (r: StrArray)
    requires Wf(a)
    ensures Wf(r)
    ensures r.values == a.values[k := v]
    ensures r.keys == if k in a.values then a.keys else a.keys + [k]
  {
    if k in a.values then StrArray(a.keys, a.values[k := v])
    else
      assert Distinct(a.keys + [k]) by {
        forall i, j | 0 <= i < j < |a.keys| + 1 ensures (a.keys + [k])[i] != (a.keys + [k])[j] {
          if j == |a.keys| {
            assert a.keys[i] in a.keys;
          }
        }
      }
      StrArray(a.keys + [k], a.values[k := v])
  }

  /** The keys of `keys` other than `k`, in order. */
  function Without(keys: seq<string>, k: string): (r: seq<string>)
    ensures forall x :: x in r <==> x in keys && x != k
  {
    Filter(keys, (x: string) => x != k)
  }

  /** Dropping a key from a list of distinct keys keeps them distinct. */
  lemma {:induction false} WithoutDistinct(keys: seq<string>, k: string)
    requires Distinct(keys)
    ensures Distinct(Without(keys, k))
    decreases |keys|
  {
    if keys != [] {
      var front, last := keys[..|keys| - 1], keys[|keys| - 1];
      assert keys == front + [last];
      assert Distinct(front) by {
        forall i, j | 0 <= i < j < |front| ensures front[i] != front[j] {
          assert front[i] == keys[i] && front[j] == keys[j];
        }
      }
      WithoutDistinct(front, k);
      FilterSnoc(front, last, (x: string) => x != k);
      var r := Without(front, k);
      if last != k {
        forall i | 0 <= i < |front| ensures front[i] != last {
          assert keys[i] != keys[|keys| - 1];
        }
        assert last !in r;
        forall i, j | 0 <= i < j < |r| + 1 ensures (r + [last])[i] != (r + [last])[j] {
          if j == |r| {
            assert r[i] in r;
          }
        }
      }
    }
  }

  /** `unset($a[$k])`: the entry goes, the other keys keep their order. */
  function Unset(a: StrArray, k: string): (r: StrArray)
    requires Wf(a)
    ensures Wf(r)
    ensures r.values == a.values - {k}
    ensures r.keys == Without(a.keys, k)
  {
    WithoutDistinct(a.keys, k);
    StrArray(Without(a.keys, k), a.values - {k})
  }

  // ---------------------------------------------------------------------------
  // cerrito_event_columns and cerrito_event_sortable_columns
  // ---------------------------------------------------------------------------

  /** `$a[$k] = $v` for each pair of `ks` and `vs`, in order. */
  function PutAll(a: StrArray, ks: seq<string>, vs: seq<string>): (r: StrArray)
    requires Wf(a) && |ks| == |vs|
    ensures Wf(r)
    decreases |ks|
  {
    if ks == [] then a else PutAll(Put(a, ks[0], vs[0]), ks[1..], vs[1..])
  }

  /** The keys of `ks` that have no entry in `m`, in order. */
  function NewKeys(ks: seq<string>, m: map<string, string>): (r: seq<string>)
    ensures forall x :: x in r <==> x in ks && x !in m
    decreases |ks|
  {
    if ks == [] then [] else (if ks[0] in m then [] else [ks[0]]) + NewKeys(ks[1..], m)
  }

  /** Entries for keys outside `ks` make no difference to which of them are new. */
  lemma {:induction false} NewKeysSame(ks: seq<string>, m: map<string, string>, m': map<string, string>)
    requires forall x :: x in ks ==> (x in m <==> x in m')
    ensures NewKeys(ks, m) == NewKeys(ks, m')
    decreases |ks|
  {
    if ks != [] {
      assert ks[0] in ks;
      NewKeysSame(ks[1..], m, m');
    }
  }

  /** The rest of a list of distinct keys is distinct, and does not hold its first key. */
  lemma DistinctTail(ks: seq<string>)
    requires Distinct(ks) && ks != []
    ensures Distinct(ks[1..]) && ks[0] !in ks[1..]
  {
    var rest := ks[1..];
    forall i, j | 0 <= i < j < |rest| ensures rest[i] != rest[j] {
      assert rest[i] == ks[i + 1] && rest[j] == ks[j + 1];
    }
    forall i | 0 <= i < |rest| ensures rest[i] != ks[0] {
      assert rest[i] == ks[i + 1];
    }
  }

  /** Assigning distinct keys appends the new ones, in order, after the old keys. */
  lemma {:induction false} PutAllKeys(a: StrArray, ks: seq<string>, vs: seq<string>)
    requires Wf(a) && |ks| == |vs| && Distinct(ks)
    ensures PutAll(a, ks, vs).keys == a.keys + NewKeys(ks, a.values)
    decreases |ks|
  {
    if ks != [] {
      var k, rest := ks[0], ks[1..];
      var b := Put(a, k, vs[0]);
      DistinctTail(ks);
      assert PutAll(a, ks, vs) == PutAll(b, rest, vs[1..]);
      PutAllKeys(b, rest, vs[1..]);
      assert forall x :: x in rest ==> (x in b.values <==> x in a.values);
      NewKeysSame(rest, b.values, a.values);
      var tail := NewKeys(rest, a.values);
      assert NewKeys(ks, a.values) == (if k in a.values then [] else [k]) + tail;
      if k !in a.values {
        ConcatAssoc(a.keys, [k], tail);
      } else {
        assert [] + tail == tail;
      }
    }
  }

  /** After assigning distinct keys, each holds its own value and every other entry is as it was. */
  lemma {:induction false} PutAllValues(a: StrArray, ks: seq<string>, vs: seq<string>)
    requires Wf(a) && |ks| == |vs| && Distinct(ks)
    ensures forall j :: 0 <= j < |ks| ==> ks[j] in PutAll(a, ks, vs).values && PutAll(a, ks, vs).values[ks[j]] == vs[j]
    ensures forall k :: k !in ks ==>
              (k in PutAll(a, ks, vs).values <==> k in a.values)
              && (k in a.values ==> PutAll(a, ks, vs).values[k] == a.values[k])
    decreases |ks|
  {
    if ks != [] {
      var b := Put(a, ks[0], vs[0]);
      DistinctTail(ks);
      PutAllValues(b, ks[1..], vs[1..]);
      var r := PutAll(a, ks, vs);
      assert r == PutAll(b, ks[1..], vs[1..]);
      forall j | 0 <= j < |ks| ensures ks[j] in r.values && r.values[ks[j]] == vs[j] {
        if j > 0 {
          assert ks[j] == ks[1..][j - 1] && vs[j] == vs[1..][j - 1];
        }
      }
    }
  }

  /** Four assignments, written out. */
  lemma FourPuts(a: StrArray, k: seq<string>, v: seq<string>)
    requires Wf(a) && |k| == 4 && |v| == 4
    ensures PutAll(a, k, v) == Put(Put(Put(Put(a, k[0], v[0]), k[1], v[1]), k[2], v[2]), k[3], v[3])
  {
    var r1 := Put(a, k[0], v[0]);
    var r2 := Put(r1, k[1], v[1]);
    var r3 := Put(r2, k[2], v[2]);
    assert PutAll(r3, k[3..], v[3..]) == Put(r3, k[3], v[3]) by {
      assert k[3..][1..] == [] && v[3..][1..] == [];
    }
    assert PutAll(r2, k[2..], v[2..]) == PutAll(r3, k[3..], v[3..]) by {
      assert k[2..][1..] == k[3..] && v[2..][1..] == v[3..];
    }
    assert PutAll(r1, k[1..], v[1..]) == PutAll(r2, k[2..], v[2..]) by {
      assert k[1..][1..] == k[2..] && v[1..][1..] == v[2..];
    }
  }

  /** Five assignments, written out. */
  lemma FivePuts(a: StrArray, k: seq<string>, v: seq<string>)
    requires Wf(a) && |k| == 5 && |v| == 5
    ensures PutAll(a, k, v) == Put(Put(Put(Put(Put(a, k[0], v[0]), k[1], v[1]), k[2], v[2]), k[3], v[3]), k[4], v[4])
  {
    FourPuts(Put(a, k[0], v[0]), k[1..], v[1..]);
  }

  /** The five columns the plugin adds, in the order it adds them, and their headings. */
  const AddedColumns: seq<string> := ["event_date", "event_time", "event_location", "is_recurring", "game_type"]
  const AddedHeadings: seq<string> := ["Date", "Time", "Location", "Recurring", "Type"]

  /** The added column names are distinct, and none is WordPress's `date`. */
  lemma AddedColumnsDistinct()
    ensures "date" !in AddedColumns && Distinct(AddedColumns)
  {
    assert "event_date"[6] != "event_time"[6];
  }

  /** The columns once `date` is unset and the five event columns assigned. */
  function WithEventColumns(columns: StrArray): (r: StrArray)
    requires Wf(columns)
    ensures Wf(r)
    ensures "date" !in r.values
    ensures forall j :: 0 <= j < |AddedColumns| ==>
              AddedColumns[j] in r.values && r.values[AddedColumns[j]] == AddedHeadings[j]
    ensures forall k :: k !in AddedColumns && k != "date" ==>
              (k in r.values <==> k in columns.values) && (k in columns.values ==> r.values[k] == columns.values[k])
    ensures r.keys == Without(columns.keys, "date") + NewKeys(AddedColumns, columns.values)
  {
    var a := Unset(columns, "date");
    AddedColumnsDistinct();
    PutAllKeys(a, AddedColumns, AddedHeadings);
    PutAllValues(a, AddedColumns, AddedHeadings);
    NewKeysSame(AddedColumns, a.values, columns.values);
    PutAll(a, AddedColumns, AddedHeadings)
  }

  /**
   * `cerrito_event_columns`: WordPress's own `date` column goes; the five
   * event columns get their headings, an existing one in its place and a new
   * one at the end, in the order Date, Time, Location, Recurring, Type; every
   * other column keeps its heading and its place.
   */
  method EventColumns(columns: StrArray) returns (r: StrArray)
    requires Wf(columns)
    ensures r == WithEventColumns(columns)
  {
    r := Unset(columns, "date");
    ghost var a0 := r;
    r := Put(r, "event_date", "Date");
    r := Put(r, "event_time", "Time");
    r := Put(r, "event_location", "Location");
    r := Put(r, "is_recurring", "Recurring");
    r := Put(r, "game_type", "Type");
    FivePuts(a0, AddedColumns, AddedHeadings);
  }

  /** The columns that sort, each sorting by its own name: the added columns less Type. */
  const SortableColumns: seq<string> := ["event_date", "event_time", "event_location", "is_recurring"]

  /** The sortable columns are distinct added columns, and Type is not among them. */
  lemma SortableColumnsShape()
    ensures Distinct(SortableColumns)
    ensures forall k :: k in SortableColumns ==> k in AddedColumns
    ensures "game_type" in AddedColumns && "game_type" !in SortableColumns
  {
    assert "event_date"[6] != "event_time"[6];
  }

  /**
   * `cerrito_event_sortable_columns`: the four sortable event columns map to
   * themselves, new ones at the end; every other entry is kept, so the Type
   * column is not made sortable by the plugin.
   */
  method EventSortableColumns(columns: StrArray) returns (r: StrArray)
    requires Wf(columns)
    ensures Wf(r)
    ensures forall j :: 0 <= j < |SortableColumns| ==>
              SortableColumns[j] in r.values && r.values[SortableColumns[j]] == SortableColumns[j]
    ensures forall k :: k !in SortableColumns ==>
              (k in r.values <==> k in columns.values) && (k in columns.values ==> r.values[k] == columns.values[k])
    ensures r.keys == columns.keys + NewKeys(SortableColumns, columns.values)
  {
    SortableColumnsShape();
    r := Put(columns, "event_date", "event_date");
    r := Put(r, "event_time", "event_time");
    r := Put(r, "event_location", "event_location");
    r := Put(r, "is_recurring", "is_recurring");
    FourPuts(columns, SortableColumns, SortableColumns);
    PutAllKeys(columns, SortableColumns, SortableColumns);
    PutAllValues(columns, SortableColumns, SortableColumns);
  }

  // ---------------------------------------------------------------------------
  // The list query: cerrito_event_orderby and cerrito_event_filter_query
  // ---------------------------------------------------------------------------

  /** One clause of a `meta_query`; `value` is absent for `NOT EXISTS`. */
  datatype MetaClause = MetaClause(key: string, value: Option<string>, compare: string)

  /** A query variable: a plain string, or a `meta_query` list. */
  datatype QueryVar = Text(s: string) | MetaQuery(clauses: seq<MetaClause>)

  /** The admin list's `WP_Query`: whether it is the main query, and its query variables. */
  class Query {
    const isMainQuery: bool
    var vars: map<string, QueryVar>

    constructor(isMain: bool, initial: map<string, QueryVar>)
      ensures isMainQuery == isMain && vars == initial
    {
      isMainQuery := isMain;
      vars := initial;
    }

    /** `$query->get($name)`: the variable, or "" when it is unset. */
    function Get(name: string): (v: QueryVar)
      reads this
      ensures name in vars ==> v == vars[name]
      ensures name !in vars ==> v == Text("")
    {
      if name in vars then vars[name] else Text("")
    }

    /** `$query->set($name, $value)`. */
    method Set(name: string, value: QueryVar)
      modifies this
      ensures vars == old(vars)[name := value]
    {
      vars := vars[name := value];
    }
  }

  /**
   * The query variables after `cerrito_event_orderby`: in the admin's main
   * query, a sort on one of the four sortable columns becomes a sort on the
   * meta value of the field with that name; nothing else changes.
   */
  function OrderbyVars(isAdmin: bool, isMain: bool, vars: map<string, QueryVar>): (r: map<string, QueryVar>)
    ensures !isAdmin || !isMain ==> r == vars
    ensures isAdmin && isMain && "orderby" in vars && vars["orderby"].Text? && vars["orderby"].s in SortableColumns ==>
              r == vars["meta_key" := vars["orderby"]]["orderby" := Text("meta_value")]
    ensures !("orderby" in vars && vars["orderby"].Text? && vars["orderby"].s in SortableColumns) ==> r == vars
  {
    if isAdmin && isMain && "orderby" in vars && vars["orderby"].Text? && vars["orderby"].s in SortableColumns then
      vars["meta_key" := vars["orderby"]]["orderby" := Text("meta_value")]
    else vars
  }

  /** Sorting by meta value is not one of the column sorts, so running the rewrite twice changes nothing more. */
  lemma OrderbyIdempotent(isAdmin: bool, isMain: bool, vars: map<string, QueryVar>)
    ensures OrderbyVars(isAdmin, isMain, OrderbyVars(isAdmin, isMain, vars)) == OrderbyVars(isAdmin, isMain, vars)
  {
    SortableColumnsShape();
    assert "meta_value" !in SortableColumns;
  }

  /** `cerrito_event_orderby`: four separate tests of the same `orderby` value read once. */
  method EventOrderby(isAdmin: bool, query: Query)
    modifies query
    ensures query.vars == OrderbyVars(isAdmin, query.isMainQuery, old(query.vars))
  {
    if !isAdmin || !query.isMainQuery {
      return;
    }
    var orderby := query.Get("orderby");
    if Text("event_date") == orderby {
      query.Set("meta_key", Text("event_date"));
      query.Set("orderby", Text("meta_value"));
    }
    if Text("event_time") == orderby {
      query.Set("meta_key", Text("event_time"));
      query.Set("orderby", Text("meta_value"));
    }
    if Text("event_location") == orderby {
      query.Set("meta_key", Text("event_location"));
      query.Set("orderby", Text("meta_value"));
    }
    if Text("is_recurring") == orderby {
      query.Set("meta_key", Text("is_recurring"));
      query.Set("orderby", Text("meta_value"));
    }
  }

  /** The `LIKE` clause of the location filter: the serialised relationship holds the quoted post ID. */
  function LocationClause(filter: string): (c: MetaClause)
    ensures c.key == "event_location" && c.compare == "LIKE"
    ensures c.value.Some? && |c.value.value| >= 3
    ensures c.value.value[0] == '"' && c.value.value[|c.value.value| - 1] == '"'
    ensures c.value.value == "\"" + IntToString(IntVal(filter)) + "\""
    ensures CanonicalDecimal(c.value.value[1..|c.value.value| - 1])
    ensures IntVal(c.value.value[1..|c.value.value| - 1]) == IntVal(filter)
  {
    var digits := IntToString(IntVal(filter));
    IntValOfIntToString(IntVal(filter));
    IntToStringCanonical(IntVal(filter));
    var v := "\"" + digits + "\"";
    assert v[1..|v| - 1] == digits;
    MetaClause("event_location", Some(v), "LIKE")
  }

  const RecurringOnly := MetaClause("is_recurring", Some("1"), "=")
  const OneTimeOnly := MetaClause("is_recurring", None, "NOT EXISTS")

  /**
   * The `meta_query` the dropdowns leave behind, given the request's query
   * string: a "yes" or "no" recurring filter decides it whatever the location
   * filter says (it is set last), otherwise a non-empty location filter does;
   * `None` when neither sets one.
   */
  function FilterMetaQuery(get: map<string, string>): (r: Option<seq<MetaClause>>)
    ensures "recurring_filter" in get && get["recurring_filter"] == "yes" ==> r == Some([RecurringOnly])
    ensures "recurring_filter" in get && get["recurring_filter"] == "no" ==> r == Some([OneTimeOnly])
    ensures !("recurring_filter" in get && get["recurring_filter"] in {"yes", "no"}) ==>
              r == if "event_location_filter" in get && Truthy(get["event_location_filter"])
                   then Some([LocationClause(get["event_location_filter"])]) else None
  {
    if "recurring_filter" in get && get["recurring_filter"] == "yes" then Some([RecurringOnly])
    else if "recurring_filter" in get && get["recurring_filter"] == "no" then Some([OneTimeOnly])
    else if "event_location_filter" in get && Truthy(get["event_location_filter"]) then
      Some([LocationClause(get["event_location_filter"])])
    else None
  }

  /** Whether the filters apply: the main query of the Events list screen. */
  predicate FiltersApply(pagenow: string, typenow: string, isMain: bool) {
    pagenow == "edit.php" && typenow == "event" && isMain
  }

  /** A recurring filter other than "yes" or "no" leaves the query as the location filter made it. */
  lemma OtherRecurringValueIgnored(get: map<string, string>, v: string)
    requires v != "yes" && v != "no"
    ensures FilterMetaQuery(get["recurring_filter" := v]) == FilterMetaQuery(get - {"recurring_filter"})
  {
  }

  /** `cerrito_event_filter_query`: the location filter, then the recurring filter, each setting `meta_query`. */
  method EventFilterQuery(pagenow: string, typenow: string, get: map<string, string>, query: Query)
    modifies query
    ensures FiltersApply(pagenow, typenow, query.isMainQuery) && FilterMetaQuery(get).Some? ==>
              query.vars == old(query.vars)["meta_query" := MetaQuery(FilterMetaQuery(get).value)]
    ensures !(FiltersApply(pagenow, typenow, query.isMainQuery) && FilterMetaQuery(get).Some?) ==>
              query.vars == old(query.vars)
  {
    if pagenow == "edit.php" && typenow == "event" && query.isMainQuery {
      if "event_location_filter" in get && Truthy(get["event_location_filter"]) {
        var locationId := IntVal(get["event_location_filter"]);
        query.Set("meta_query", MetaQuery([MetaClause("event_location", Some("\"" + IntToString(locationId) + "\""), "LIKE")]));
      }
      if "recurring_filter" in get && Truthy(get["recurring_filter"]) {
        if get["recurring_filter"] == "yes" {
          query.Set("meta_query", MetaQuery([MetaClause("is_recurring", Some("1"), "=")]));
        } else if get["recurring_filter"] == "no" {
          query.Set("meta_query", MetaQuery([MetaClause("is_recurring", None, "NOT EXISTS")]));
        }
      }
    }
  }

  // ---------------------------------------------------------------------------
  // The Date column of cerrito_event_column_content
  // ---------------------------------------------------------------------------

  /**
   * The stored date as the Date column rewrites it: an eight-character
   * numeric string is split as `YYYY-MM-DD` (`is_numeric`, so a sign, a
   * decimal point, an exponent or surrounding whitespace pass the test), a
   * string with '/' is read as `m/d/Y` when that parses, anything else stays.
   */
  function ColumnDate(date: string, cal: Calendar): (r: string)
    ensures |date| == 8 && IsNumeric(date) ==>
              |r| == 10 && r[4] == '-' && r[7] == '-'
              && r[0..4] == date[0..4] && r[5..7] == date[4..6] && r[8..10] == date[6..8]
    ensures !(|date| == 8 && IsNumeric(date)) && '/' in date ==> r == cal.parseMdY(date).GetOr(date)
    ensures !(|date| == 8 && IsNumeric(date)) && '/' !in date ==> r == date
  {
    if |date| == 8 && IsNumeric(date) then date[0..4] + "-" + date[4..6] + "-" + date[6..8]
    else if '/' in date then cal.parseMdY(date).GetOr(date)
    else date
  }

  /** What the Date column prints: an em dash for a falsy date, else `M j, Y` of the rewritten date or the date itself. */
  function DateColumnText(date: string, cal: Calendar): (r: string)
    ensures !Truthy(date) ==> r == "—"
    ensures Truthy(date) ==>
              var d := ColumnDate(date, cal);
              r == if cal.parseYmd(d).Some? then cal.parseYmd(d).value.long else d
  {
    if !Truthy(date) then "—"
    else
      var d := ColumnDate(date, cal);
      match cal.parseYmd(d)
      case Some(info) => info.long
      case None => d
  }

  /**
   * The Date column agrees with the shared normaliser on every stored date
   * except eight-character numeric strings that are not all digits.
   */
  lemma ColumnDateAgrees(date: string, cal: Calendar)
    requires Truthy(date)
    requires !(|date| == 8 && IsNumeric(date) && !CtypeDigit(date))
    ensures ColumnDate(date, cal) == NormaliseDate(date, cal)
  {
    if IsCompactDate(date) {
      DigitsAreNumeric(date);
    }
  }

  /** `+2025021` is a number literal: a sign followed by seven digits. */
  lemma SignedExampleNumeric()
    ensures IsNumeric("+2025021")
  {
    var s := "+2025021";
    assert SkipDigits(s, 1) == 8 by {
      SkipDigitsOfDigits(s, 1);
    }
    assert NumberLiteral(s[0..8]) by {
      assert s[0..8] == s;
    }
  }

  /** The shared normaliser keeps `+2025021`: it is not all digits and holds no slash. */
  lemma SignedExampleKept(cal: Calendar)
    ensures NormaliseDate("+2025021", cal) == "+2025021"
  {
    var s := "+2025021";
    assert !IsDigit(s[0]);
    assert '/' !in s;
  }

  /** An eight-character numeric date is cut after its fourth and sixth characters. */
  lemma ColumnDateChars(date: string, cal: Calendar)
    requires |date| == 8 && IsNumeric(date)
    ensures ColumnDate(date, cal) ==
      [date[0], date[1], date[2], date[3], '-', date[4], date[5], '-', date[6], date[7]]
  {
  }

  /** The Date column splits `+2025021` as if it were `Ymd`. */
  lemma SignedExampleSplit(cal: Calendar)
    ensures ColumnDate("+2025021", cal) == "+202-50-21"
  {
    SignedExampleNumeric();
    ColumnDateChars("+2025021", cal);
  }

  /** `+2025021` is numeric but not all digits: the column splits it, the normaliser keeps it. */
  lemma ColumnDateDiffers(cal: Calendar)
    ensures ColumnDate("+2025021", cal) == "+202-50-21"
    ensures NormaliseDate("+2025021", cal) == "+2025021"
  {
    SignedExampleSplit(cal);
    SignedExampleKept(cal);
  }
}
