/** `_export_to_df`: the raw export body split into lines, every line that parses flattened
    into one row, the union of the row keys, and the columns the data frame is built with. */
module Flattener {
  import opened Wrappers
  import opened PyText
  import opened PyValues

  /** One event as the data frame receives it: its properties and its name. */
  type Row = map<string, Json>

  /** `ev = event['properties']; ev['event'] = event['event']` on a parsed record, or the
      exception it raises. The right-hand side `event['event']` is evaluated before the
      assignment into `ev`, so a missing `event` is reported ahead of a `properties` value
      that is not an object. */
  function ToRow(record: Json): (r: Result<Row, PyError>)
    ensures r.Ok? <==> record.JObject? && "properties" in record.fields && "event" in record.fields
                       && record.fields["properties"].JObject?
    ensures r.Ok? ==> r.value == record.fields["properties"].fields["event" := record.fields["event"]]
    ensures record.JObject? && "properties" !in record.fields ==> r == Err(KeyError("properties"))
    ensures record.JObject? && "properties" in record.fields && "event" !in record.fields ==>
              r == Err(KeyError("event"))
    ensures r.Err? && r.error != KeyError("properties") && r.error != KeyError("event") ==> r.error == TypeError
  {
    match record
    case JObject(fields) =>
      if "properties" !in fields then Err(KeyError("properties"))
      else if "event" !in fields then Err(KeyError("event"))
      else if !fields["properties"].JObject? then Err(TypeError)
      else Ok(fields["properties"].fields["event" := fields["event"]])
    case _ => Err(TypeError)
  }

  /** The records of the lines that parse, in the order of the lines. */
  function Parsed(lines: seq<string>, loads: string -> Option<Json>): seq<Json>
    decreases |lines|
  {
    if lines == [] then []
    else
      var before := Parsed(lines[..|lines| - 1], loads);
      match loads(lines[|lines| - 1])
      case None => before
      case Some(record) => before + [record]
  }

  /** Number of lines that parse. */
  function ParsableCount(lines: seq<string>, loads: string -> Option<Json>): nat
    decreases |lines|
  {
    if lines == [] then 0
    else ParsableCount(lines[..|lines| - 1], loads) + (if loads(lines[|lines| - 1]).Some? then 1 else 0)
  }

  /** The rows of a sequence of records, or the exception of the first record that does not
      flatten. */
  function RowsOf(records: seq<Json>): Result<seq<Row>, PyError>
    decreases |records|
  {
    if records == [] then Ok([])
    else
      match RowsOf(records[..|records| - 1])
      case Err(e) => Err(e)
      case Ok(rows) =>
        match ToRow(records[|records| - 1])
        case Err(e) => Err(e)
        case Ok(row) => Ok(rows + [row])
  }

  /** What the loop of `_export_to_df` has produced after the given lines: the rows so far,
      or the exception that ended it. A line that does not parse raises `ValueError`, which
      the loop catches and skips; every other exception escapes. */
  function Flatten(lines: seq<string>, loads: string -> Option<Json>): Result<seq<Row>, PyError>
    decreases |lines|
  {
    if lines == [] then Ok([])
    else
      match Flatten(lines[..|lines| - 1], loads)
      case Err(e) => Err(e)
      case Ok(rows) =>
        match loads(lines[|lines| - 1])
        case None => Ok(rows)
        case Some(record) =>
          match ToRow(record)
          case Err(e) => Err(e)
          case Ok(row) => Ok(rows + [row])
  }

  /** Flattening skips the lines that do not parse and converts the records of the others. */
  lemma {:induction false} FlattenIsRowsOfParsed(lines: seq<string>, loads: string -> Option<Json>)
    ensures Flatten(lines, loads) == RowsOf(Parsed(lines, loads))
    decreases |lines|
  {
    if lines != [] {
      var init := lines[..|lines| - 1];
      FlattenIsRowsOfParsed(init, loads);
      var before := Parsed(init, loads);
      match loads(lines[|lines| - 1])
      case None =>
      case Some(record) =>
        var after := before + [record];
        assert after[..|after| - 1] == before;
    }
  }

  /** One record per line that parses. */
  lemma {:induction false} ParsedCount(lines: seq<string>, loads: string -> Option<Json>)
    ensures |Parsed(lines, loads)| == ParsableCount(lines, loads)
    decreases |lines|
  {
    if lines != [] {
      ParsedCount(lines[..|lines| - 1], loads);
    }
  }

  /** The records of two blocks of lines are the records of the first block followed by those
      of the second. */
  lemma {:induction false} ParsedAppend(a: seq<string>, b: seq<string>, loads: string -> Option<Json>)
    ensures Parsed(a + b, loads) == Parsed(a, loads) + Parsed(b, loads)
    decreases |b|
  {
    if b == [] {
      assert a + b == a;
    } else {
      var b' := b[..|b| - 1];
      assert (a + b)[..|a + b| - 1] == a + b';
      assert (a + b)[|a + b| - 1] == b[|b| - 1];
      ParsedAppend(a, b', loads);
    }
  }

  /** A line that does not parse contributes nothing; one that does contributes its record. */
  lemma ParsedLine(line: string, loads: string -> Option<Json>)
    ensures Parsed([line], loads) == (if loads(line).Some? then [loads(line).value] else [])
  {
    assert [line][..0] == [];
  }

  /** The records convert without an exception exactly when each one does, and then there is
      one row per record, in order, each the record's properties with its name set. */
  lemma {:induction false} RowsOfOk(records: seq<Json>)
    ensures RowsOf(records).Ok? <==> forall i :: 0 <= i < |records| ==> ToRow(records[i]).Ok?
    ensures RowsOf(records).Ok? ==>
              |RowsOf(records).value| == |records|
              && forall i :: 0 <= i < |records| ==> RowsOf(records).value[i] == ToRow(records[i]).value
    decreases |records|
  {
    if records != [] {
      var init := records[..|records| - 1];
      RowsOfOk(init);
      assert forall i :: 0 <= i < |init| ==> init[i] == records[i];
    }
  }

  /** An exception comes from the first record that does not flatten. */
  lemma {:induction false} RowsOfErr(records: seq<Json>)
    requires RowsOf(records).Err?
    ensures exists i :: 0 <= i < |records| && ToRow(records[i]) == Err(RowsOf(records).error)
                        && forall j :: 0 <= j < i ==> ToRow(records[j]).Ok?
    decreases |records|
  {
    var n := |records|;
    var init := records[..n - 1];
    assert forall j :: 0 <= j < |init| ==> init[j] == records[j];
    if RowsOf(init).Err? {
      RowsOfErr(init);
      var i :| 0 <= i < |init| && ToRow(init[i]) == Err(RowsOf(init).error)
               && forall j :: 0 <= j < i ==> ToRow(init[j]).Ok?;
      assert ToRow(records[i]) == Err(RowsOf(records).error);
    } else {
      RowsOfOk(init);
      assert ToRow(records[n - 1]) == Err(RowsOf(records).error);
    }
  }

  /** An exception ends the loop: once a prefix of the lines raises, so do all the lines. */
  lemma {:induction false} FlattenErrorPersists(lines: seq<string>, k: nat, loads: string -> Option<Json>)
    requires k <= |lines|
    requires Flatten(lines[..k], loads).Err?
    ensures Flatten(lines, loads) == Flatten(lines[..k], loads)
    decreases |lines| - k
  {
    if k < |lines| {
      var next := lines[..k + 1];
      assert next[..k] == lines[..k];
      assert Flatten(next, loads) == Flatten(lines[..k], loads);
      FlattenErrorPersists(lines, k + 1, loads);
    } else {
      assert lines[..k] == lines;
    }
  }

  /** Every key that occurs in some row: the `parameters` set. */
  function UnionKeys(rows: seq<Row>): (r: set<string>)
    ensures forall i, k :: 0 <= i < |rows| && k in rows[i] ==> k in r
    ensures forall k :: k in r ==> exists i :: 0 <= i < |rows| && k in rows[i]
  {
    set i, k | 0 <= i < |rows| && k in rows[i] :: k
  }

  lemma UnionKeysSnoc(rows: seq<Row>, row: Row)
    ensures UnionKeys(rows + [row]) == UnionKeys(rows) + row.Keys
  {
    var all := rows + [row];
    forall k | k in UnionKeys(all) ensures k in UnionKeys(rows) + row.Keys {
      var i :| 0 <= i < |all| && k in all[i];
      if i < |rows| {
        assert all[i] == rows[i];
      }
    }
    forall k | k in UnionKeys(rows) ensures k in UnionKeys(all) {
      var i :| 0 <= i < |rows| && k in rows[i];
      assert all[i] == rows[i];
    }
    assert all[|rows|] == row;
  }

  /** Each row holds `event`, and so does the union as soon as there is a row. */
  lemma FlattenedRowsHaveEvent(lines: seq<string>, loads: string -> Option<Json>)
    requires Flatten(lines, loads).Ok?
    ensures forall i :: 0 <= i < |Flatten(lines, loads).value| ==> "event" in Flatten(lines, loads).value[i]
    ensures |Flatten(lines, loads).value| > 0 ==> "event" in UnionKeys(Flatten(lines, loads).value)
  {
    var records := Parsed(lines, loads);
    var rows := Flatten(lines, loads).value;
    FlattenIsRowsOfParsed(lines, loads);
    RowsOfOk(records);
    forall i | 0 <= i < |rows| ensures "event" in rows[i] {
      var r := ToRow(records[i]);
      assert r.Ok? && rows[i] == r.value;
    }
    if |rows| > 0 {
      assert "event" in rows[0];
    }
  }

  /** The rows and the key union the loop collects. */
  datatype Flattened = Flattened(events: seq<Row>, parameters: set<string>)

  /** The loop of `_export_to_df` over `data.split('\n')`. */
  method FlattenLines(data: string, loads: string -> Option<Json>) returns (r: Result<Flattened, PyError>)
    ensures match Flatten(SplitLines(data), loads)
            case Ok(rows) => r == Ok(Flattened(rows, UnionKeys(rows)))
            case Err(e) => r == Err(e)
  {
    var lines := SplitLines(data);
    var events: seq<Row> := [];
    var parameters: set<string> := {};
    var i := 0;
    while i < |lines|
      invariant 0 <= i <= |lines|
      invariant Flatten(lines[..i], loads) == Ok(events)
      invariant parameters == UnionKeys(events)
    {
      assert lines[..i + 1][..i] == lines[..i];
      match loads(lines[i]) {
        case None =>
        case Some(event) =>
          match ToRow(event) {
            case Err(e) =>
              FlattenErrorPersists(lines, i + 1, loads);
              return Err(e);
            case Ok(ev) =>
              UnionKeysSnoc(events, ev);
              parameters := parameters + ev.Keys;
              events := events + [ev];
          }
      }
      i := i + 1;
    }
    assert lines[..i] == lines;
    r := Ok(Flattened(events, parameters));
  }

  /** Mixpanel's own properties: names that start with `$` or `mp_`. */
  predicate Reserved(p: string)
  {
    "$" <= p || "mp_" <= p
  }

  /** `[p for p in order if not (p.startswith('$') or p.startswith('mp_'))]`. */
  function KeepOwn(order: seq<string>): (r: seq<string>)
    ensures forall p :: p in r <==> p in order && !Reserved(p)
    ensures |r| <= |order|
    decreases |order|
  {
    if order == [] then []
    else
      var init := KeepOwn(order[..|order| - 1]);
      var p := order[|order| - 1];
      assert forall q :: q in order <==> q in order[..|order| - 1] || q == p;
      if Reserved(p) then init else init + [p]
  }

  /** Filtering keeps the order of what it keeps, and so never repeats a name. */
  lemma {:induction false} KeepOwnDistinct(order: seq<string>)
    requires Distinct(order)
    ensures Distinct(KeepOwn(order))
    decreases |order|
  {
    if order != [] {
      var n := |order|;
      var init := order[..n - 1];
      assert Distinct(init) by {
        forall i, j | 0 <= i < j < |init| ensures init[i] != init[j] {
          assert init[i] == order[i] && init[j] == order[j];
        }
      }
      KeepOwnDistinct(init);
      var p := order[n - 1];
      assert p !in init by {
        forall i | 0 <= i < |init| ensures init[i] != p {
          assert init[i] == order[i];
        }
      }
      var kept := KeepOwn(init);
      if !Reserved(p) {
        var after := kept + [p];
        assert p !in kept;
        forall i, j | 0 <= i < j < |after| ensures after[i] != after[j] {
          if j == |kept| {
            assert after[i] == kept[i];
          } else {
            assert after[i] == kept[i] && after[j] == kept[j];
          }
        }
      }
    }
  }

  /** `time` is added at the end of a column list that lacks it. */
  function WithTime(cols: seq<string>): (r: seq<string>)
    ensures "time" in r
    ensures cols <= r
    ensures forall p :: p in r <==> p in cols || p == "time"
  {
    if "time" in cols then cols else cols + ["time"]
  }

  /** Adding `time` a second time changes nothing. */
  lemma WithTimeIdempotent(cols: seq<string>)
    ensures WithTime(WithTime(cols)) == WithTime(cols)
  {
  }

  /** A list that already names `time` is left unchanged; any other grows by the one name. */
  lemma WithTimeShape(cols: seq<string>)
    ensures "time" in cols ==> WithTime(cols) == cols
    ensures "time" !in cols ==> |WithTime(cols)| == |cols| + 1 && WithTime(cols)[|cols|] == "time"
  {
  }

  /** The columns the data frame is built with: all the collected names (a set, in the order
      it iterates), or a list of names. */
  datatype Columns = AllOf(keys: set<string>) | Listed(names: seq<string>)

  /** A caller's list of column names, which `_export_to_df` extends in place. */
  class NameList {
    var items: seq<string>

    constructor (names: seq<string>)
      ensures items == names
    {
      items := names;
    }
  }

  /** The columns chosen for the collected names `parameters`, given the caller's list (if
      any) as it was on entry. */
  ghost predicate Resolved(parameters: set<string>, given: Option<seq<string>>, excludeMp: bool, c: Columns)
  {
    match given
    case None =>
      if excludeMp then c.Listed? && Distinct(c.names) && forall p :: p in c.names <==> p in parameters && !Reserved(p)
      else c == AllOf(parameters)
    case Some(cols) => c == Listed(WithTime(cols))
  }

  /** With no list from the caller and `exclude_mp`, `time` is a column exactly when some row
      has it, since `time` is not one of Mixpanel's own names. */
  lemma InferredTimeColumn(rows: seq<Row>, c: Columns)
    requires Resolved(UnionKeys(rows), None, true, c)
    ensures "time" in c.names <==> exists i :: 0 <= i < |rows| && "time" in rows[i]
  {
    assert !Reserved("time") by {
      assert "time"[0] != '$';
      assert "time"[..3] != "mp_";
    }
  }

  /** The column choice of `_export_to_df`: the caller's list with `time` appended in place
      when it lacks one, or else the collected names, filtered when `exclude_mp` is set. */
  method ResolveColumns(parameters: set<string>, columns: NameList?, excludeMp: bool) returns (c: Columns)
    modifies columns
    ensures Resolved(parameters, if columns == null then None else Some(old(columns.items)), excludeMp, c)
    ensures columns != null ==> columns.items == WithTime(old(columns.items))
  {
    if columns == null {
      if excludeMp {
        var order := Enumerate(parameters);
        KeepOwnDistinct(order);
        c := Listed(KeepOwn(order));
      } else {
        c := AllOf(parameters);
      }
    } else {
      if "time" !in columns.items {
        columns.items := columns.items + ["time"];
      }
      c := Listed(columns.items);
    }
  }

  /** What `_export_to_df` hands to the data frame constructor. */
  datatype Export = Export(rows: seq<Row>, parameters: set<string>, columns: Columns)

  /** The outcome of `_export_to_df` on the body `data` and the caller's column list `given`
      as it was on entry: the exception of a record that does not flatten, or the flattened
      rows with the names they use and the columns resolved from them. */
  ghost predicate ExportOutcome(data: string, given: Option<seq<string>>, excludeMp: bool,
                                loads: string -> Option<Json>, r: Result<Export, PyError>)
  {
    match Flatten(SplitLines(data), loads)
    case Err(e) => r == Err(e)
    case Ok(rows) =>
      && r.Ok?
      && r.value.rows == rows
      && r.value.parameters == UnionKeys(rows)
      && Resolved(r.value.parameters, given, excludeMp, r.value.columns)
  }

  /** `_export_to_df` up to the data frame: the flattened rows, the collected names and the
      resolved columns, or the exception of a record that does not flatten, raised before the
      caller's list is touched. */
  method ExportToDf(data: string, columns: NameList?, excludeMp: bool, loads: string -> Option<Json>)
    returns (r: Result<Export, PyError>)
    modifies columns
    ensures ExportOutcome(data, if columns == null then None else Some(old(columns.items)), excludeMp, loads, r)
    ensures columns != null ==> columns.items == if r.Ok? then WithTime(old(columns.items)) else old(columns.items)
  {
    var flat := FlattenLines(data, loads);
    match flat
    case Err(e) =>
      r := Err(e);
    case Ok(f) =>
      var c := ResolveColumns(f.parameters, columns, excludeMp);
      r := Ok(Export(f.events, f.parameters, c));
  }
}
