# Kinesis record preprocessor, modelled in Dafny

The modelled system is an AWS Lambda that runs ahead of Kinesis Analytics. It
receives a batch of Kinesis records, each a base64 string holding a
KPL-aggregated blob. For each record it decodes the base64 and de-aggregates
the blob into sub-record texts. Each text that parses as a JSON object with a
`revenue` or `requestDetails` field has that field's list of `{key, value}`
objects turned into a key-to-value dict. The resulting texts are concatenated
and re-encoded. The handler returns one response per record, with the record
id and a verdict, `Ok` or `ProcessingFailed`, and counts both verdicts.

Modules:

- `Wrappers` (wrappers.dfy): `Option` and `Result`, standing in for Python exceptions.
- `PyJson` (pyjson.dfy): decoded JSON values. Dicts are `map<Key, Json>`. The
  module also gives Python's `in`, `v['name']` and `for item in v` on each kind
  of value, with `None` where Python raises.
- `Pairs` (pairs.dfy): the loop that fills a dict from a pair list. It is
  specified by `Normalized` and proved to be last-key-wins.
- `Transform` (transform.dfy): `construct_response_record` and
  `process_kpl_record`. `NormalizeField`, `NormalizedText` and
  `ProcessRecord` are the specification functions. The methods
  `NormalizeFieldBlock`, `NormalizeSubRecord` and `ProcessKplRecord` follow
  lines 15-53 in order, with the two `if` blocks as one method called twice.
  They are proved equal to `NormalizeField`, `NormalizedText` and
  `ProcessRecord` respectively.
- `Handler` (handler.dfy): `lambda_handler` and its two counts.

The library calls (`deaggregate_record`, `json.loads`, `json.dumps`,
`base64.b64encode`, `base64.b64decode`) are foreign code. They are fields of
the `Lib` parameter, and each partial call returns an `Option`. Nothing is
assumed about them beyond their types. In particular the model does not
assume that `b64encode(b64decode(x)) == x`.

Three behaviours of the code are modelled as written:

- On a whole-record failure the payload is `b64encode(b64decode(data))`. This
  is the decoded input re-encoded, not the original string.
- `b64decode` runs before the `try`. A malformed base64 payload therefore does
  not produce `ProcessingFailed`. The exception leaves the handler, so
  `LambdaHandler` returns `Err(i)` for the first such record `i`.
- A malformed pair inside `revenue` or `requestDetails` fails the whole
  sub-record. That sub-record keeps its original text. It is not skipped pair
  by pair.

## Model

| member | source | states |
|---|---|---|
| `PyJson.AsKey` | ks-preprocessor/transaction-callback-preprocessor.py:30 | a value can key a dict exactly when it is not a list or dict, and the key stands for that value |
| `PyJson.Subscript` | ks-preprocessor/transaction-callback-preprocessor.py:29 | `v['name']` succeeds exactly on a dict holding the key and yields the stored value |
| `PyJson.Contains` | ks-preprocessor/transaction-callback-preprocessor.py:28 | `name in v` is defined exactly on dicts, lists and strings: key membership for a dict, element equality for a list, substring for a string; on scalars it raises |
| `PyJson.IsSubstringIff` | ks-preprocessor/transaction-callback-preprocessor.py:28 | the substring test used by `in` on a string holds exactly when the name occurs at some position of the string |
| `PyJson.PairItems` | ks-preprocessor/transaction-callback-preprocessor.py:29 | `for item in v` visits a list's elements, and a string's one-character strings in order; an empty dict yields no items; a non-empty dict, or a scalar, raises |
| `Pairs.AsPair` | ks-preprocessor/transaction-callback-preprocessor.py:30 | one loop step succeeds exactly on a dict with `key` and `value` whose key is hashable, and stores that value under that key |
| `Pairs.Normalized` | ks-preprocessor/transaction-callback-preprocessor.py:29-30 | the dict the pair loop leaves after visiting the items in order; it is `None` exactly when some item is not a well-formed pair |
| `Pairs.NormalizedKeys` | ks-preprocessor/transaction-callback-preprocessor.py:29-30 | the built dict's keys are exactly the keys carried by the pairs |
| `Pairs.LastKeyWins` | ks-preprocessor/transaction-callback-preprocessor.py:29-30 | each key maps to the value of the last pair that carries it |
| `Pairs.FillPairs` | ks-preprocessor/transaction-callback-preprocessor.py:29-30 | the item-by-item loop yields the dict of `Normalized`, or fails exactly when it does |
| `Transform.ConstructResponseRecord` | ks-preprocessor/transaction-callback-preprocessor.py:7-11 | the response keeps the record id, reads `Ok` exactly when the success flag is set and `ProcessingFailed` otherwise, and carries the base64 of the payload |
| `Transform.NormalizeField` | ks-preprocessor/transaction-callback-preprocessor.py:28-33 | one `if name in record` block: when it does not flag a change the record is unchanged; it flags a change exactly on a dict holding the field, then keeps every key, makes the field a dict and leaves every other field as it was; on a dict it succeeds exactly when the field is absent or normalisable |
| `Transform.NormalizeRecord` | ks-preprocessor/transaction-callback-preprocessor.py:28-40 | both blocks in order: unflagged means the record is unchanged; flagged means a dict with the same keys |
| `Transform.NormalizedText` | ks-preprocessor/transaction-callback-preprocessor.py:26-47 | the emitted text is either the original text or the serialisation of the normalised dict parsed from it |
| `Transform.NonObjectUnchanged` | ks-preprocessor/transaction-callback-preprocessor.py:28-40 | a value that is not a dict is either left unchanged and unflagged, or makes a block raise |
| `Transform.OnlyTwoFieldsChange` | ks-preprocessor/transaction-callback-preprocessor.py:28-40 | normalising a dict succeeds exactly when both fields are absent or normalisable; then every key is kept, all other fields are unchanged, each present field becomes the dict its pairs build, and the change flag is set exactly when one of the two fields was present |
| `Transform.UnchangedTextPassesThrough` | ks-preprocessor/transaction-callback-preprocessor.py:26-47 | a text that does not parse, is not a dict, or has neither field is emitted byte for byte |
| `Transform.SubRecordFallback` | ks-preprocessor/transaction-callback-preprocessor.py:26-47 | if either field cannot be normalised, the original text is kept, even when `revenue` succeeded first |
| `Transform.NormalizedTextSerializes` | ks-preprocessor/transaction-callback-preprocessor.py:42-43 | a dict with a field to normalise, all normalisable, is emitted as the serialisation of the normalised dict |
| `Transform.RevenueExample` | ks-preprocessor/transaction-callback-preprocessor.py:28-33 | `{"a":1,"revenue":[{"key":"x","value":5}]}` becomes `{"a":1,"revenue":{"x":5}}` and is marked changed |
| `Transform.Join` | ks-preprocessor/transaction-callback-preprocessor.py:49 | joining no texts gives the empty text, joining one gives that text, and every part fits within the join |
| `Transform.JoinAppend` | ks-preprocessor/transaction-callback-preprocessor.py:49 | joining a concatenation of lists is the concatenation of the joins |
| `Transform.JoinSplitsAt` | ks-preprocessor/transaction-callback-preprocessor.py:49 | every part appears unaltered between the join of the parts before it and the join of those after it |
| `Transform.SubRecordOutputs` | ks-preprocessor/transaction-callback-preprocessor.py:21-47 | exactly one output text per sub-record, in order, each that sub-record's normalised or original text |
| `Transform.ProcessRecord` | ks-preprocessor/transaction-callback-preprocessor.py:14-53 | the record yields a response exactly when its base64 decodes; the response keeps the record id, and its verdict is `Ok` exactly when de-aggregation succeeds and is always one of the two literals |
| `Transform.WholeRecordFailure` | ks-preprocessor/transaction-callback-preprocessor.py:51-53 | when de-aggregation raises, the response is `ProcessingFailed` carrying the re-encoded decoded bytes |
| `Transform.OrderedConcatenation` | ks-preprocessor/transaction-callback-preprocessor.py:21-50 | whenever de-aggregation succeeds the response is `Ok` with the base64 of the separator-free, in-order join of one text per sub-record; each sub-record's text sits at its place in it, and with no sub-records the joined text is empty |
| `Transform.NormalizeFieldBlock` | ks-preprocessor/transaction-callback-preprocessor.py:28-33 | one `if name in record` block, with the dict filled item by item and the field deleted and reassigned, computes `NormalizeField` |
| `Transform.NormalizeSubRecord` | ks-preprocessor/transaction-callback-preprocessor.py:22-47 | the inner `try` for one sub-record computes `NormalizedText` |
| `Transform.ProcessKplRecord` | ks-preprocessor/transaction-callback-preprocessor.py:14-53 | the loop that appends one text per sub-record and joins them computes `ProcessRecord` |
| `Handler.LambdaHandler` | ks-preprocessor/transaction-callback-preprocessor.py:58-59 | the handler returns exactly when every record's base64 decodes, giving one response per record in order; otherwise it fails at the first record that does not decode |
| `Handler.SuccessCount` | ks-preprocessor/transaction-callback-preprocessor.py:62 | the success count equals the number of responses whose result reads `Ok`, so it is at most their number and zero exactly when none reads `Ok` |
| `Handler.FailureCount` | ks-preprocessor/transaction-callback-preprocessor.py:63 | the failure count equals the number of responses whose result reads `ProcessingFailed`, so it is at most their number and zero exactly when none reads `ProcessingFailed` |
| `Handler.CountsPartition` | ks-preprocessor/transaction-callback-preprocessor.py:62-63 | when every result is one of the two literals, the success and failure counts add up to the number of responses |
| `Handler.DispatcherInvariants` | ks-preprocessor/transaction-callback-preprocessor.py:58-63 | the handler's output matches the input in length and order, keeps each record id, and its two counts add up to its length |

## Left out

- `deaggregate_record` (KPL framing, protobuf and MD5 checks) is foreign library code. It is the `deaggregate` field of `Lib`, a partial function.
- `json.loads` and `json.dumps` are library code. The model does not cover their text syntax, key order or formatting; they are the `loads` and `dumps` fields of `Lib`. `dumps` is total, because every dict the model builds has scalar keys.
- The base64 codec is library code. `b64encode` and `b64decode` are opaque fields of `Lib`.
- JSON numbers are integers. Floating-point numbers, and Python's equality of `1.0` and `1` as dict keys, are not modelled.
- `PyJson.Key` keeps `true` and `1`, and `false` and `0`, as distinct dict keys. Python treats each of these pairs as one key.
- `PyJson.PairItems` reports a non-empty dict used as a pair list as a failure at once. Python iterates its keys in an unspecified order. Each key is a scalar, so in `revenue[item['key']] = item['value']` the first `item['value']`, evaluated before the target, raises. The outcome is the same.
- A record of `event['records']` lacking `data` or `recordId` is not modelled. Every input record carries both.
- The `print` calls, the Lambda `context` and the event and response dict envelope around `records` are not modelled.
- Exceptions other than those of the modelled calls are not modelled. This covers `MemoryError` and `KeyboardInterrupt`, which the outer `except BaseException` would also catch.
