/** `read_events`: the export query built from the caller's arguments, sent through
    `request` to the export endpoint, and the body handed to `_export_to_df`. */
module Query {
  import opened Wrappers
  import opened PyText
  import opened PyValues
  import opened Signing
  import opened Flattener

  /** The `events` argument: absent (all events), one event name, or a list of names. */
  datatype Events = AllEvents | OneEvent(name: string) | EventList(names: seq<string>)

  /** The start date used when none is given, the earliest the export accepts. */
  const EarliestStart: DateArg := Day(2011, 7, 10)

  /** The `event` value of the query: a lone name becomes a one-element list. */
  function EventsValue(events: Events): (r: Option<Value>)
    ensures r.None? <==> events.AllEvents?
    ensures events.OneEvent? ==> r == Some(List([events.name]))
    ensures events.EventList? ==> r == Some(List(events.names))
  {
    match events
    case AllEvents => None
    case OneEvent(name) => Some(List([name]))
    case EventList(names) => Some(List(names))
  }

  /** `{'event': events, 'where': where, 'bucket': bucket}`, with `None` for an absent value. */
  function OptionalFields(events: Events, where: Option<string>, bucket: Option<string>): map<string, Option<Value>>
  {
    map["event" := EventsValue(events),
        "where" := if where.Some? then Some(Str(where.value)) else None,
        "bucket" := if bucket.Some? then Some(Str(bucket.value)) else None]
  }

  /** The entries of `fields` whose value is not `None`. */
  function Present(fields: map<string, Option<Value>>): (r: map<string, Value>)
    ensures forall k :: k in r <==> k in fields && fields[k].Some?
    ensures forall k :: k in r ==> r[k] == fields[k].value
  {
    map k | k in fields && fields[k].Some? :: fields[k].value
  }

  /** The loop of `read_events` that copies every optional argument that is not `None` into
      the query, visiting them in the order the dict yields them. */
  method FillPayload(payload: ParamDict, fields: map<string, Option<Value>>)
    modifies payload
    ensures payload.entries == old(payload.entries) + Present(fields)
  {
    ghost var before := payload.entries;
    var keys := Enumerate(fields.Keys);
    ghost var done: set<string> := {};
    for i := 0 to |keys|
      invariant forall j :: 0 <= j < i ==> keys[j] in done
      invariant done <= fields.Keys
      invariant forall k :: k in payload.entries <==> k in before || (k in done && fields[k].Some?)
      invariant forall k :: k in payload.entries ==>
                  payload.entries[k] == if k in done && fields[k].Some? then fields[k].value else before[k]
    {
      var k := keys[i];
      if fields[k].Some? {
        payload.entries := payload.entries[k := fields[k].value];
      }
      done := done + {k};
    }
    assert done == fields.Keys;
    Merged(before, fields, payload.entries);
  }

  lemma Merged(before: map<string, Value>, fields: map<string, Option<Value>>, after: map<string, Value>)
    requires forall k :: k in after <==> k in before || (k in fields && fields[k].Some?)
    requires forall k :: k in after ==> after[k] == if k in fields && fields[k].Some? then fields[k].value else before[k]
    ensures after == before + Present(fields)
  {
  }

  /** The query `read_events` sends before `request` adds to it: the start and end dates as
      the date library writes them, then every optional argument that is given. */
  function Payload(events: Events, start: Option<DateArg>, end: Option<DateArg>, where: Option<string>,
                   bucket: Option<string>, yesterday: DateArg, dateText: DateArg -> string): map<string, Value>
  {
    map["from_date" := Str(dateText(start.GetOr(EarliestStart))),
        "to_date" := Str(dateText(end.GetOr(yesterday)))]
    + Present(OptionalFields(events, where, bucket))
  }

  /** The dates are always present, defaulting to 2011-07-10 and to yesterday; each optional
      argument is present exactly when it is given; a lone event name is sent as a one-element
      list; and there is nothing else. */
  lemma PayloadFields(events: Events, start: Option<DateArg>, end: Option<DateArg>, where: Option<string>,
                      bucket: Option<string>, yesterday: DateArg, dateText: DateArg -> string)
    ensures var p := Payload(events, start, end, where, bucket, yesterday, dateText);
      && "from_date" in p && p["from_date"] == Str(dateText(if start.Some? then start.value else EarliestStart))
      && "to_date" in p && p["to_date"] == Str(dateText(if end.Some? then end.value else yesterday))
      && ("event" in p <==> !events.AllEvents?)
      && (events.OneEvent? ==> p["event"] == List([events.name]))
      && (events.EventList? ==> p["event"] == List(events.names))
      && ("where" in p <==> where.Some?) && (where.Some? ==> p["where"] == Str(where.value))
      && ("bucket" in p <==> bucket.Some?) && (bucket.Some? ==> p["bucket"] == Str(bucket.value))
      && p.Keys <= {"from_date", "to_date", "event", "where", "bucket"}
  {
    var opt := Present(OptionalFields(events, where, bucket));
    OptionalPresent(events, where, bucket);
    var dates := map["from_date" := Str(dateText(start.GetOr(EarliestStart))),
                     "to_date" := Str(dateText(end.GetOr(yesterday)))];
    assert Payload(events, start, end, where, bucket, yesterday, dateText) == dates + opt;
    assert "from_date" !in opt && "to_date" !in opt;
  }

  /** The optional arguments that are given, with a lone event name as a one-element list. */
  lemma OptionalPresent(events: Events, where: Option<string>, bucket: Option<string>)
    ensures var o := Present(OptionalFields(events, where, bucket));
      && o.Keys <= {"event", "where", "bucket"}
      && ("event" in o <==> !events.AllEvents?)
      && (events.OneEvent? ==> o["event"] == List([events.name]))
      && (events.EventList? ==> o["event"] == List(events.names))
      && ("where" in o <==> where.Some?) && (where.Some? ==> o["where"] == Str(where.value))
      && ("bucket" in o <==> bucket.Some?) && (bucket.Some? ==> o["bucket"] == Str(bucket.value))
  {
    var fields := OptionalFields(events, where, bucket);
    assert fields.Keys == {"event", "where", "bucket"};
    assert fields["event"] == EventsValue(events);
  }

  /** The export request: the URL is the export endpoint followed by the query. */
  lemma ExportUrl(query: string)
    ensures RequestUrl(true, ["export"], query) == DataApiBase + "/2.0/export/?" + query
  {
    UrlWithMethods(true, ["export"], query);
    assert JoinWith("/", ["export"]) == "export";
    assert DataApiBase + "/2.0/" + "export" + "/?" + query == DataApiBase + "/2.0/export/?" + query;
  }

  /** `read_events` up to the data frame: the query built, signed and sent to the export
      endpoint, and the body flattened. `clock` is `time.time()`, `yesterday` is yesterday's
      date, and `columns` is the caller's list of column names, if any. */
  method ReadEvents(keys: (string, string), events: Events, start: Option<DateArg>, end: Option<DateArg>,
                    where: Option<string>, bucket: Option<string>, columns: NameList?, excludeMp: bool,
                    clock: real, yesterday: DateArg, lib: Library)
    returns (url: string, r: Result<Export, PyError>)
    modifies columns
    ensures exists items ::
              && IsItemsOf(items, Signed(Payload(events, start, end, where, bucket, yesterday, lib.dateText),
                                         keys.0, keys.1, Truncate(clock) + ExpirySeconds, "json", lib))
              && url == RequestUrl(true, ["export"], lib.urlencode(items))
    ensures ExportOutcome(lib.urlopen(url), if columns == null then None else Some(old(columns.items)),
                          excludeMp, lib.jsonLoads, r)
    ensures columns != null ==> columns.items == if r.Ok? then WithTime(old(columns.items)) else old(columns.items)
  {
    var startDay := if start.Some? then start.value else EarliestStart;
    var endDay := if end.Some? then end.value else yesterday;
    var payload := new ParamDict(map["from_date" := Str(lib.dateText(startDay)),
                                     "to_date" := Str(lib.dateText(endDay))]);
    FillPayload(payload, OptionalFields(events, where, bucket));
    assert payload.entries == Payload(events, start, end, where, bucket, yesterday, lib.dateText);
    var reply;
    url, reply := Request(keys, ["export"], payload, "json", true, clock, lib);
    assert reply == Ok(Body(lib.urlopen(url)));
    r := ExportToDf(reply.value.text, columns, excludeMp, lib.jsonLoads);
  }
}
