# mixpandas in Dafny

A model of the `mixpandas` client (`mixpandas.py`), which downloads events from Mixpanel's raw
data export API and turns them into the rows and columns of a pandas data frame. The model
covers three parts, with their contracts proved:

- **Signing** (`request`, `hash_args`, `unicode_urlencode`): how the request parameters are
  prepared and signed in place, and how the request URL is built.
  - `request` sets `api_key`, sets `expire` to `int(time.time()) + 600`, sets `format`, drops
    any old `sig`, then stores a fresh `sig`.
  - `hash_args` rewrites list values as JSON text, in place. It then concatenates `key=value` over
    the keys in ascending order and hashes that text followed by the secret.
- **Flattening** (`_export_to_df`): how the export body becomes rows and columns.
  - The body is split on newlines, and lines that do not parse are skipped.
  - Each record becomes its `properties` with `event` set to the record's `event` name.
  - The names used by the rows are collected.
  - The columns are chosen by Mixpanel's `$`/`mp_` filter, or by appending `time` to the caller's
    list in place.
- **Query building** (`read_events`): the payload with the date range and the optional filters,
  sent through `request` to the export endpoint and handed to `_export_to_df`.

Modules:
- `Wrappers`: `Option` and `Result`.
- `PyText`: `str.join`, `str.split('\n')`, `str(int)` and `int(float)`.
- `Sorting`: Python's string order, and `sorted()` as a selection sort proved equal to the unique
  ascending enumeration `SortedKeys`.
- `PyValues`:
  - JSON documents and parameter values;
  - the Python exceptions that escape;
  - the mutable parameter dict (`ParamDict`);
  - dict and set iteration, which may visit the entries in any order;
  - the foreign calls, which the environment supplies as the function-valued fields of `Library`.
- `Signing`, `Flattener` and `Query`: the three parts above.

Statements that change state are methods on the `ParamDict` and `NameList` classes (the caller's
column list). Each is proved against a specification function: `Signed`, `Canonical`, `Flatten`,
`UnionKeys`, `WithTime` and `Payload`. The lemmas state what the source promises about those
functions.

Two points read differently from a plain description of the client:
- An empty `methods` list gives the URL base + `/2.0/?` + query (`Signing.UrlNoMethods`). The
  form base + `/2.0/` + the methods joined by `/` + `/?` + query holds only for a non-empty list
  (`Signing.UrlWithMethods`).
- In `ev[u'event'] = event['event']`, Python evaluates the right-hand side first. So a record
  without an `event` raises `KeyError('event')` even when its `properties` is not an object,
  which would raise `TypeError` (`Flattener.ToRow`).

Within `request`, the list rewrite in `unicode_urlencode` changes nothing, because `hash_args`
has already turned every list into text. `Signing.BuildUrl` uses `SerializeListsIdempotent` for
that step.

## Model

| member | source | states |
|---|---|---|
| `Sorting.LessIrreflexive` | mixpandas.py:200 | no string sorts before itself |
| `Sorting.LessTransitive` | mixpandas.py:200 | the string order is transitive |
| `Sorting.LessTotal` | mixpandas.py:200 | of two distinct strings, one sorts before the other |
| `Sorting.LeastExists` | mixpandas.py:200 | every non-empty set of keys has a least key |
| `Sorting.SortedKeys` | mixpandas.py:200 | `sorted(keys)` is strictly ascending, holds exactly the keys, and has one entry per key |
| `Sorting.SortedUnique` | mixpandas.py:200 | two strictly ascending sequences with the same elements are equal, so the sorted order of a key set is unique |
| `Sorting.SortedKeysLeast` | mixpandas.py:200 | the sorted keys start with the least key, followed by the sorted rest |
| `Sorting.ConsSorted` | mixpandas.py:200 | putting a key below all others in front keeps a sequence strictly ascending |
| `Sorting.Least` | mixpandas.py:200 | one pass over a non-empty key set finds its least key |
| `Sorting.Sort` | mixpandas.py:200 | the selection loop returns exactly `SortedKeys` of the keys |
| `PyValues.Enumerate` | mixpandas.py:196 | iterating a dict's keys or a set visits each element exactly once, in some order |
| `PyValues.Items` | mixpandas.py:180 | `params.items()` lists each entry exactly once, in some order |
| `PyValues.Serialize` | mixpandas.py:197 | a list value becomes its JSON text; the result is never a list |
| `PyValues.SerializeLists` | mixpandas.py:196-197 | rewriting the lists keeps the key set and leaves no list value |
| `PyValues.SerializeListsIdempotent` | mixpandas.py:182-183 | rewriting lists a second time changes nothing; a dict without lists is unchanged |
| `PyValues.SerializePairsItems` | mixpandas.py:179-183 | rewriting the items of a dict gives the items of the rewritten dict |
| `PyText.SplitLines` | mixpandas.py:99 | `split('\n')` yields at least one piece, and no piece holds a newline |
| `PyText.SplitLinesCount` | mixpandas.py:99 | there is one more piece than there are newlines |
| `PyText.JoinSplitLines` | mixpandas.py:99 | joining the pieces with newlines gives back the body |
| `PyText.SplitJoinLines` | mixpandas.py:99 | splitting newline-joined pieces without newlines gives the pieces back |
| `PyText.NatTextDigits` | mixpandas.py:211 | `str(n)` of a natural number is a non-empty run of decimal digits |
| `PyText.NatTextRoundTrip` | mixpandas.py:211 | the digits of `str(n)` denote `n` |
| `PyText.IntTextRoundTrip` | mixpandas.py:211 | `int(str(i)) == i`, so the signed text determines an integer value |
| `PyText.Truncate` | mixpandas.py:152 | `int(t)` truncates toward zero: within 1 below a non-negative `t`, within 1 above a negative `t` |
| `Signing.CanonicalAnyAscendingOrder` | mixpandas.py:199-211 | visiting the keys in any strictly ascending order gives the canonical text, which therefore depends only on the dict's contents |
| `Signing.JoinPairsFront` | mixpandas.py:199-211 | the text for a key put in front is its `key=value` followed by the text for the rest |
| `Signing.JoinPairsOtherKeys` | mixpandas.py:199-211 | the joined text depends only on the values of the keys visited |
| `Signing.CanonicalLeastFirst` | mixpandas.py:199-211 | the canonical text is the least key's `key=value` followed by the canonical text of the other entries |
| `Signing.SerializeListsInPlace` | mixpandas.py:196-197 | the first loop of `hash_args` keeps the key set and rewrites every list, and only lists, into JSON text |
| `Signing.JoinSorted` | mixpandas.py:199-211 | the second loop of `hash_args` builds exactly the canonical text |
| `Signing.HashArgs` | mixpandas.py:191-216 | `hash_args` leaves `args` list-free with the same keys, and returns the MD5 digest of the canonical text followed by the secret |
| `Signing.UnicodeUrlencode` | mixpandas.py:174-188 | the query is `urlencode` of some enumeration of the dict's items, with lists written as JSON |
| `Signing.PrepareInPlace` | mixpandas.py:151-154 | the caller's dict gets `api_key`, `expire` and `format` set and `sig` removed |
| `Signing.BuildUrl` | mixpandas.py:157-163 | the URL is the chosen base, the version and the methods joined by `/`, then `/?` and the encoded parameters |
| `Signing.Request` | mixpandas.py:140-171 | `request` leaves the signed parameters in the caller's dict, requests the URL built from them, and returns the body verbatim for the export endpoint, or decoded (or `ValueError`) otherwise |
| `Signing.SignedFields` | mixpandas.py:151-155 | the sent parameters hold the API key, `expire` as given, the format, and a string `sig` |
| `Signing.SignedKeepsCallerEntries` | mixpandas.py:151-155 | the sent keys are the caller's keys plus `api_key`, `expire`, `format` and `sig`; every other caller entry is sent, with a list as its JSON text |
| `Signing.SignatureOverSentEntries` | mixpandas.py:154-155 | `sig` is the digest of the canonical text of every other sent parameter followed by the secret, and the signed text holds no `sig` and no list |
| `Signing.SignedThroughPrepare` | mixpandas.py:151-155 | what is sent depends on the caller's dict only through the prepared parameters |
| `Signing.OldSignatureIgnored` | mixpandas.py:154 | a `sig` already in the caller's dict, or its absence, does not change what is sent |
| `Signing.ResignStable` | mixpandas.py:151-155 | signing already signed parameters again with the same key, secret, expiry and format changes nothing |
| `Signing.UrlNoMethods` | mixpandas.py:162-163 | with no methods the URL is the base, `/2.0/?`, then the query |
| `Signing.UrlWithMethods` | mixpandas.py:162-163 | with methods the URL is the base, `/2.0/`, the methods joined by `/`, then `/?` and the query |
| `Signing.UrlSelectsEndpoint` | mixpandas.py:157-160 | the URL begins with `http://data.mixpanel.com/api` exactly when `data_api` is set |
| `Flattener.ToRow` | mixpandas.py:101-103 | a record flattens exactly when it is an object with object `properties` and an `event`; the row is `properties` with `event` set to the record's `event`. Otherwise it raises `KeyError('properties')`, then `KeyError('event')`, then `TypeError` |
| `Flattener.FlattenIsRowsOfParsed` | mixpandas.py:99-108 | the loop skips the lines that do not parse and converts the records of the others, in order, stopping at the first exception |
| `Flattener.ParsedCount` | mixpandas.py:99-105 | there is one record per line that parses |
| `Flattener.ParsedAppend` | mixpandas.py:99-105 | the records of two blocks of lines are those of the first block followed by those of the second |
| `Flattener.ParsedLine` | mixpandas.py:101-105 | a line that raises `ValueError` contributes nothing; any other line contributes its record |
| `Flattener.RowsOfOk` | mixpandas.py:102-108 | the records convert without exception exactly when each one does; then there is one row per record, in order, each being that record's row |
| `Flattener.RowsOfErr` | mixpandas.py:102-103 | an escaping exception is that of the first record that does not flatten |
| `Flattener.FlattenErrorPersists` | mixpandas.py:99-105 | once a prefix of the lines raises, the whole body raises the same exception |
| `Flattener.UnionKeys` | mixpandas.py:107 | the collected parameters are exactly the names used by some row |
| `Flattener.UnionKeysSnoc` | mixpandas.py:107 | appending a row adds exactly its names to the collected parameters |
| `Flattener.FlattenedRowsHaveEvent` | mixpandas.py:103-108 | every row holds `event`, so the collected names include `event` once there is a row |
| `Flattener.FlattenLines` | mixpandas.py:93-108 | the loop returns the rows of `Flatten` with the union of their names, or the exception that `Flatten` reports |
| `Flattener.KeepOwn` | mixpandas.py:115-116 | the comprehension keeps exactly the names starting with neither `$` nor `mp_` |
| `Flattener.KeepOwnDistinct` | mixpandas.py:115-116 | filtering a repetition-free enumeration repeats no name |
| `Flattener.WithTime` | mixpandas.py:119-120 | the resolved list contains `time`, extends the caller's list, and adds no name other than `time` |
| `Flattener.WithTimeIdempotent` | mixpandas.py:119-120 | adding `time` again changes nothing |
| `Flattener.WithTimeShape` | mixpandas.py:119-120 | a list holding `time` is unchanged; one without it grows by `time` at its end |
| `Flattener.InferredTimeColumn` | mixpandas.py:113-116 | with no caller list and `exclude_mp`, `time` is a column exactly when some row has a `time` |
| `Flattener.ResolveColumns` | mixpandas.py:113-120 | the columns are the filtered names, all names, or the caller's list with `time` appended in place when missing |
| `Flattener.ExportToDf` | mixpandas.py:91-121 | `_export_to_df` hands the flattened rows and the resolved columns to the data frame, or raises before touching the caller's list |
| `Query.EventsValue` | mixpandas.py:77-78 | no events means no `event` entry; a lone name becomes a one-element list; a list is kept |
| `Query.Present` | mixpandas.py:82-84 | exactly the optional arguments that are not `None` are kept, with their values |
| `Query.FillPayload` | mixpandas.py:81-84 | in any visiting order, the loop adds exactly the given optional arguments to the payload |
| `Query.OptionalPresent` | mixpandas.py:76-84 | `event`, `where` and `bucket` are added exactly when given, and a lone event name is added as a one-element list |
| `Query.PayloadFields` | mixpandas.py:59-84 | `from_date` and `to_date` are always present, defaulting to 2011-07-10 and yesterday; each optional argument is present exactly when given; nothing else is present |
| `Query.ExportUrl` | mixpandas.py:86 | the export request goes to `http://data.mixpanel.com/api/2.0/export/?` followed by the query |
| `Query.ReadEvents` | mixpandas.py:59-88 | `read_events` sends the signed payload to the export endpoint and returns `_export_to_df` of the body |

## Left out

- MD5, `json.dumps`, `json.loads`, `urllib.urlencode`, `urllib.urlopen(...).read()` and `pd.to_datetime(...).strftime('%Y-%m-%d')` are foreign code. They are fields of `Library` that the environment supplies, and nothing is assumed about them. `hashlib.md5(joined)` followed by `update(secret)` is the digest of `joined + secret`.
- `time.time()` is the parameter `clock`. `datetime.date.today() - datetime.timedelta(1)` is the parameter `yesterday`, because calendar arithmetic belongs to the date library.
- The UTF-8 encoding of unicode keys and values (mixpandas.py:186, 201-202, 208-209) is treated as the identity on characters. The model has no byte level.
- JSON numbers are integers. Floating-point event properties are not modelled.
- pandas `DataFrame` construction and the missing-cell filling (mixpandas.py:121) are library code. So is the conversion of the `time` column by `datetime.fromtimestamp` (mixpandas.py:124), including the `KeyError` that line raises when no column is named `time`. `Flattener.InferredTimeColumn` states when that column exists.
- A `columns` argument given as a string, which the docstring allows, is not modelled. Its `'time' not in columns` is a substring test, and a string has no `append`. Only `None` or a list of names is modelled.
- A list of pairs as the input to `unicode_urlencode` (mixpandas.py:179) is not modelled. Only the dict that `request` passes is.
- Parameter values other than strings, integers and lists of strings, and `str()` of other types, are not modelled. Neither is an `events` list holding something other than strings.
- Network and HTTP errors, and `pd.to_datetime` failing on a date string it cannot read, are not modelled: those foreign calls are total here. `json.loads` failing on a non-export body is modelled, as `ValueError`.
- Aliasing between a parsed record and its row is not modelled. `ev` is the record's own `properties` dict, and here rows are values.
- `setup.py` holds only packaging metadata.
