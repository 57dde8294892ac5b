/** The per-record transform `process_kpl_record`: de-aggregate one Kinesis
    record, normalise the `revenue` and `requestDetails` pair lists of each
    sub-record, and re-encode the concatenated texts. */
module Transform {
  import opened Wrappers
  import opened PyJson
  import opened Pairs

  /** The library calls the transform makes, as the functions they compute.
      `None` is "the call raised". */
  datatype Lib = Lib(
    deaggregate: Bytes -> Option<seq<Bytes>>,  // aws_kinesis_agg's deaggregate_record
    loads: Bytes -> Option<Json>,              // json.loads
    dumps: Json -> Bytes,                      // json.dumps
    b64encode: Bytes -> string,                // base64.b64encode
    b64decode: string -> Option<Bytes>)        // base64.b64decode

  /** An entry of `event['records']`. */
  datatype InputRecord = InputRecord(recordId: string, data: string)

  /** A response record as `construct_response_record` builds it. */
  datatype Response = Response(recordId: string, result: string, data: string)

  const OK := "Ok"
  const PROCESSING_FAILED := "ProcessingFailed"

  /** The two fields whose pair lists are normalised. */
  const REVENUE := "revenue"
  const REQUEST_DETAILS := "requestDetails"

  /** `construct_response_record`: the record id, a verdict literal and the
      base64 encoding of the payload. */
  function ConstructResponseRecord(lib: Lib, recordId: string, data: Bytes, isParseSuccess: bool): (r: Response)
    ensures r.recordId == recordId
    ensures r.result == OK <==> isParseSuccess
    ensures r.result == OK || r.result == PROCESSING_FAILED
    ensures r.data == lib.b64encode(data)
  {
    Response(recordId, if isParseSuccess then OK else PROCESSING_FAILED, lib.b64encode(data))
  }

  /** A field that the block for `name` can normalise: absent, or present
      with a value whose iteration yields well-formed pairs only. */
  predicate FieldNormalizable(m: map<Key, Json>, name: string)
  {
    KStr(name) in m ==>
      PairItems(m[KStr(name)]).Some? && Normalized(PairItems(m[KStr(name)]).value).Some?
  }

  /** One `if name in record:` block: the record afterwards and whether the
      block changed it, or `None` if the block raised. */
  function NormalizeField(record: Json, name: string): (r: Option<(Json, bool)>)
    ensures r.Some? && !r.value.1 ==> r.value.0 == record
    ensures r.Some? ==> (r.value.1 <==> record.Obj? && KStr(name) in record.fields)
    ensures r.Some? && r.value.1 ==>
      && r.value.0.Obj?
      && r.value.0.fields.Keys == record.fields.Keys
      && r.value.0.fields[KStr(name)].Obj?
      && (forall k | k in record.fields && k != KStr(name) :: r.value.0.fields[k] == record.fields[k])
    ensures record.Obj? ==> (r.Some? <==> FieldNormalizable(record.fields, name))
  {
    match Contains(record, name)
    case None => None
    case Some(present) =>
      if !present then Some((record, false))
      else
        match Subscript(record, name)
        case None => None
        case Some(v) =>
          match PairItems(v)
          case None => None
          case Some(items) =>
            match Normalized(items)
            case None => None
            case Some(d) => Some((Obj(record.fields[KStr(name) := Obj(d)]), true))
  }

  /** Both blocks in order, and the `changed` flag they leave. */
  function NormalizeRecord(record: Json): (r: Option<(Json, bool)>)
    ensures r.Some? && !r.value.1 ==> r.value.0 == record
    ensures r.Some? && r.value.1 ==>
      && record.Obj? && r.value.0.Obj?
      && r.value.0.fields.Keys == record.fields.Keys
  {
    match NormalizeField(record, REVENUE)
    case None => None
    case Some(first) =>
      match NormalizeField(first.0, REQUEST_DETAILS)
      case None => None
      case Some(second) => Some((second.0, first.1 || second.1))
  }

  /** The text the inner `try` leaves in `recordStr`: the re-serialised
      record if a block changed it, otherwise, and whenever anything raised,
      the original text. */
  function NormalizedText(lib: Lib, text: Bytes): (r: Bytes)
    ensures r == text || (
      && lib.loads(text).Some? && lib.loads(text).value.Obj?
      && NormalizeRecord(lib.loads(text).value).Some?
      && r == lib.dumps(NormalizeRecord(lib.loads(text).value).value.0))
  {
    match lib.loads(text)
    case None => text
    case Some(record) =>
      match NormalizeRecord(record)
      case None => text
      case Some(result) => if result.1 then lib.dumps(result.0) else text
  }

  /** A value that is not a dict goes through both blocks unchanged, or one
      of them raises: `in` raises on scalars, and on a list or a string that
      contains the name the subscript that follows raises. */
  lemma NonObjectUnchanged(record: Json)
    requires !record.Obj?
    ensures NormalizeRecord(record).None? || NormalizeRecord(record) == Some((record, false))
  {
  }

  /** What normalising a dict does: it succeeds exactly when both fields are
      normalisable; it then keeps every key, leaves every field but the two
      as it was, replaces each present one with the dict its pairs build, and
      reports a change exactly when one of the two was present. */
  lemma {:induction false} OnlyTwoFieldsChange(m: map<Key, Json>)
    ensures NormalizeRecord(Obj(m)).Some? <==>
      FieldNormalizable(m, REVENUE) && FieldNormalizable(m, REQUEST_DETAILS)
    ensures NormalizeRecord(Obj(m)).Some? ==>
      var (r, changed) := NormalizeRecord(Obj(m)).value;
      && r.Obj?
      && r.fields.Keys == m.Keys
      && (forall k | k in m && k != KStr(REVENUE) && k != KStr(REQUEST_DETAILS) :: r.fields[k] == m[k])
      && (forall name | name == REVENUE || name == REQUEST_DETAILS ::
            KStr(name) in m ==>
              r.fields[KStr(name)] == Obj(Normalized(PairItems(m[KStr(name)]).value).value))
      && (changed <==> KStr(REVENUE) in m || KStr(REQUEST_DETAILS) in m)
  {
    assert KStr(REVENUE) != KStr(REQUEST_DETAILS);
    match NormalizeField(Obj(m), REVENUE)
    case None =>
    case Some(first) =>
      var m1 := first.0.fields;
      assert m1.Keys == m.Keys;
      assert KStr(REQUEST_DETAILS) in m1 <==> KStr(REQUEST_DETAILS) in m;
      assert KStr(REQUEST_DETAILS) in m ==> m1[KStr(REQUEST_DETAILS)] == m[KStr(REQUEST_DETAILS)];
      assert FieldNormalizable(m1, REQUEST_DETAILS) <==> FieldNormalizable(m, REQUEST_DETAILS);
  }

  /** Unchanged text passes through: a text that does not parse, that is not
      a dict, or whose dict has neither field comes out byte for byte. */
  lemma UnchangedTextPassesThrough(lib: Lib, text: Bytes)
    requires
      || lib.loads(text).None?
      || !lib.loads(text).value.Obj?
      || (KStr(REVENUE) !in lib.loads(text).value.fields && KStr(REQUEST_DETAILS) !in lib.loads(text).value.fields)
    ensures NormalizedText(lib, text) == text
  {
    if lib.loads(text).Some? {
      var record := lib.loads(text).value;
      if record.Obj? {
        OnlyTwoFieldsChange(record.fields);
      } else {
        NonObjectUnchanged(record);
      }
    }
  }

  /** Per-sub-record fallback: if either field of a parsed dict cannot be
      normalised, the original text is kept, even when `revenue` was
      normalised before `requestDetails` failed. */
  lemma SubRecordFallback(lib: Lib, text: Bytes)
    requires lib.loads(text).Some? && lib.loads(text).value.Obj?
    requires !FieldNormalizable(lib.loads(text).value.fields, REVENUE)
          || !FieldNormalizable(lib.loads(text).value.fields, REQUEST_DETAILS)
    ensures NormalizedText(lib, text) == text
  {
    OnlyTwoFieldsChange(lib.loads(text).value.fields);
  }

  /** A parsed dict with a field to normalise, both normalisable, comes out
      as the serialisation of the normalised dict. */
  lemma NormalizedTextSerializes(lib: Lib, text: Bytes)
    requires lib.loads(text).Some? && lib.loads(text).value.Obj?
    requires KStr(REVENUE) in lib.loads(text).value.fields || KStr(REQUEST_DETAILS) in lib.loads(text).value.fields
    requires FieldNormalizable(lib.loads(text).value.fields, REVENUE)
    requires FieldNormalizable(lib.loads(text).value.fields, REQUEST_DETAILS)
    ensures NormalizeRecord(lib.loads(text).value).Some?
    ensures NormalizedText(lib, text) == lib.dumps(NormalizeRecord(lib.loads(text).value).value.0)
  {
    OnlyTwoFieldsChange(lib.loads(text).value.fields);
  }

  /** The worked example: `{"a":1,"revenue":[{"key":"x","value":5}]}`
      becomes `{"a":1,"revenue":{"x":5}}`, marked as changed. */
  lemma RevenueExample()
    ensures NormalizeRecord(Obj(map[KStr("a") := Num(1),
                                    KStr(REVENUE) := Arr([Obj(map[KStr("key") := Str("x"), KStr("value") := Num(5)])])]))
         == Some((Obj(map[KStr("a") := Num(1), KStr(REVENUE) := Obj(map[KStr("x") := Num(5)])]), true))
  {
    var pair := Obj(map[KStr("key") := Str("x"), KStr("value") := Num(5)]);
    var input := map[KStr("a") := Num(1), KStr(REVENUE) := Arr([pair])];
    var output := map[KStr("a") := Num(1), KStr(REVENUE) := Obj(map[KStr("x") := Num(5)])];
    assert AsPair(pair) == Some((KStr("x"), Num(5)));
    assert [pair][..0] == [];
    assert Normalized([pair]) == Some(map[KStr("x") := Num(5)]);
    assert input[KStr(REVENUE) := Obj(map[KStr("x") := Num(5)])] == output;
    assert NormalizeField(Obj(input), REVENUE) == Some((Obj(output), true));
    assert KStr(REQUEST_DETAILS) !in output;
  }

  /** `"".join`: the texts concatenated in order, with no separator. */
  function Join(parts: seq<Bytes>): (r: Bytes)
    ensures parts == [] ==> r == []
    ensures |parts| == 1 ==> r == parts[0]
    ensures forall i | 0 <= i < |parts| :: |parts[i]| <= |r|
  {
    if parts == [] then [] else parts[0] + Join(parts[1..])
  }

  lemma {:induction false} JoinAppend(a: seq<Bytes>, b: seq<Bytes>)
    ensures Join(a + b) == Join(a) + Join(b)
  {
    if a == [] {
      assert a + b == b;
    } else {
      assert (a + b)[0] == a[0];
      assert (a + b)[1..] == a[1..] + b;
      JoinAppend(a[1..], b);
    }
  }

  /** Ordered concatenation: every part sits, unaltered, between the join
      of the parts before it and the join of the parts after it. */
  lemma {:induction false} JoinSplitsAt(parts: seq<Bytes>, i: int)
    requires 0 <= i < |parts|
    ensures Join(parts) == Join(parts[..i]) + parts[i] + Join(parts[i + 1..])
  {
    assert parts == parts[..i] + ([parts[i]] + parts[i + 1..]);
    JoinAppend(parts[..i], [parts[i]] + parts[i + 1..]);
    assert ([parts[i]] + parts[i + 1..])[1..] == parts[i + 1..];
  }

  /** One output text per sub-record, in order. */
  function SubRecordOutputs(lib: Lib, texts: seq<Bytes>): (r: seq<Bytes>)
    ensures |r| == |texts|
    ensures forall i | 0 <= i < |texts| :: r[i] == NormalizedText(lib, texts[i])
  {
    seq(|texts|, i requires 0 <= i < |texts| => NormalizedText(lib, texts[i]))
  }

  /** What `process_kpl_record` returns, or `None` when the base64 decoding,
      which runs before the `try`, raises and the exception escapes. */
  function ProcessRecord(lib: Lib, rec: InputRecord): (r: Option<Response>)
    ensures r.Some? <==> lib.b64decode(rec.data).Some?
    ensures r.Some? ==> r.value.recordId == rec.recordId
    ensures r.Some? ==>
      (r.value.result == OK <==> lib.deaggregate(lib.b64decode(rec.data).value).Some?)
    ensures r.Some? ==> r.value.result == OK || r.value.result == PROCESSING_FAILED
  {
    match lib.b64decode(rec.data)
    case None => None
    case Some(raw) =>
      match lib.deaggregate(raw)
      case None => Some(ConstructResponseRecord(lib, rec.recordId, raw, false))
      case Some(texts) => Some(ConstructResponseRecord(lib, rec.recordId, Join(SubRecordOutputs(lib, texts)), true))
  }

  /** Whole-record failure: when de-aggregation raises, the response is
      `ProcessingFailed` and carries the re-encoded decoded bytes. */
  lemma WholeRecordFailure(lib: Lib, rec: InputRecord)
    requires lib.b64decode(rec.data).Some?
    requires lib.deaggregate(lib.b64decode(rec.data).value).None?
    ensures ProcessRecord(lib, rec) == Some(Response(rec.recordId, PROCESSING_FAILED,
                                                     lib.b64encode(lib.b64decode(rec.data).value)))
  {
  }

  /** Ordered concatenation: on success the payload encodes the
      separator-free join of exactly one text per sub-record, in order, each
      the normalised text of its sub-record or the original where that one
      could not be normalised. With no sub-records the payload encodes the
      empty text. */
  lemma OrderedConcatenation(lib: Lib, rec: InputRecord)
    requires lib.b64decode(rec.data).Some?
    requires lib.deaggregate(lib.b64decode(rec.data).value).Some?
    ensures var texts := lib.deaggregate(lib.b64decode(rec.data).value).value;
      var outs := SubRecordOutputs(lib, texts);
      && ProcessRecord(lib, rec) == Some(Response(rec.recordId, OK, lib.b64encode(Join(outs))))
      && (texts == [] ==> Join(outs) == [])
      && forall i | 0 <= i < |texts| ::
           Join(outs) == Join(outs[..i]) + NormalizedText(lib, texts[i]) + Join(outs[i + 1..])
  {
    var texts := lib.deaggregate(lib.b64decode(rec.data).value).value;
    var outs := SubRecordOutputs(lib, texts);
    forall i | 0 <= i < |texts|
      ensures Join(outs) == Join(outs[..i]) + NormalizedText(lib, texts[i]) + Join(outs[i + 1..])
    {
      JoinSplitsAt(outs, i);
    }
  }

  /** One `if name in record:` block run on a local dict: it fills a
      fresh dict with the pairs, then deletes the field and stores the dict
      in its place. */
  method NormalizeFieldBlock(record: Json, name: string) returns (r: Option<(Json, bool)>)
    ensures r == NormalizeField(record, name)
  {
    var present := Contains(record, name);
    if present.None? { return None; }
    if !present.value { return Some((record, false)); }
    var field := Subscript(record, name);
    if field.None? { return None; }
    var items := PairItems(field.value);
    if items.None? { return None; }
    var d := FillPairs(items.value);
    if d.None? { return None; }
    var fields := record.fields - {KStr(name)};
    fields := fields[KStr(name) := Obj(d.value)];
    assert fields == record.fields[KStr(name) := Obj(d.value)];
    return Some((Obj(fields), true));
  }

  /** The body of the inner `try` for one sub-record, with the dict
      mutated in place by `del` and reassignment. */
  method NormalizeSubRecord(lib: Lib, text: Bytes) returns (recordStr: Bytes)
    ensures recordStr == NormalizedText(lib, text)
  {
    recordStr := text;
    var changed := false;
    var parsed := lib.loads(text);
    if parsed.None? { return; }
    var record := parsed.value;
    var revenue := NormalizeFieldBlock(record, REVENUE);
    if revenue.None? { return; }
    record, changed := revenue.value.0, changed || revenue.value.1;
    var requestDetails := NormalizeFieldBlock(record, REQUEST_DETAILS);
    if requestDetails.None? { return; }
    record, changed := requestDetails.value.0, changed || requestDetails.value.1;
    if changed {
      recordStr := lib.dumps(record);
    }
  }

  /** `process_kpl_record`: decode, de-aggregate, normalise each
      sub-record in turn and concatenate. */
  method ProcessKplRecord(lib: Lib, kplRecord: InputRecord) returns (r: Option<Response>)
    ensures r == ProcessRecord(lib, kplRecord)
  {
    var raw := lib.b64decode(kplRecord.data);
    if raw.None? { return None; }
    var records := lib.deaggregate(raw.value);
    if records.None? {
      return Some(ConstructResponseRecord(lib, kplRecord.recordId, raw.value, false));
    }
    var texts := records.value;
    var newRecords: seq<Bytes> := [];
    var i := 0;
    while i < |texts|
      invariant 0 <= i <= |texts|
      invariant |newRecords| == i
      invariant forall j | 0 <= j < i :: newRecords[j] == NormalizedText(lib, texts[j])
    {
      var recordStr := NormalizeSubRecord(lib, texts[i]);
      newRecords := newRecords + [recordStr];
      i := i + 1;
    }
    assert newRecords == SubRecordOutputs(lib, texts);
    var outputData := Join(newRecords);
    r := Some(ConstructResponseRecord(lib, kplRecord.recordId, outputData, true));
  }
}
