/** The values `json.loads` produces and the few Python operations the
    preprocessor applies to them: `in`, subscripting with a string and
    iterating in a `for` loop. Each operation returns `None` where Python
    raises (TypeError or KeyError). */
module PyJson {
  import opened Wrappers

  /** A byte of a Python 2 `str`. */
  newtype byte = x: int | 0 <= x < 256

  /** A Python 2 `str`: the texts that de-aggregation yields, that
      `json.loads` reads and that `json.dumps` writes. */
  type Bytes = seq<byte>

  /** The hashable values a JSON document can hold, and so the values that
      can be keys of a Python dict built from one. */
  datatype Key = KNull | KBool(b: bool) | KNum(n: int) | KStr(s: string)

  /** A decoded JSON value. An object is a Python dict: keys without order. */
  datatype Json =
    | Null
    | Bool(b: bool)
    | Num(n: int)
    | Str(s: string)
    | Arr(items: seq<Json>)
    | Obj(fields: map<Key, Json>)

  /** Using `v` as a dict key: lists and dicts are unhashable (TypeError). */
  function AsKey(v: Json): (r: Option<Key>)
    ensures r.Some? <==> !(v.Arr? || v.Obj?)
    ensures r.Some? ==> KeyValue(r.value) == v
  {
    match v
    case Null => Some(KNull)
    case Bool(b) => Some(KBool(b))
    case Num(n) => Some(KNum(n))
    case Str(s) => Some(KStr(s))
    case Arr(_) => None
    case Obj(_) => None
  }

  /** The JSON value a dict key stands for. */
  function KeyValue(k: Key): (v: Json)
    ensures !(v.Arr? || v.Obj?)
  {
    match k
    case KNull => Null
    case KBool(b) => Bool(b)
    case KNum(n) => Num(n)
    case KStr(s) => Str(s)
  }

  /** `name` occurs in `s` as a contiguous run of characters. */
  predicate IsSubstring(name: string, s: string)
  {
    name <= s || (s != [] && IsSubstring(name, s[1..]))
  }

  /** `name` occurs in `s` starting at position `i`. */
  predicate OccursAt(name: string, s: string, i: int)
  {
    0 <= i <= |s| - |name| && s[i..i + |name|] == name
  }

  /** `IsSubstring` agrees with the positional definition of a substring. */
  lemma {:induction false} IsSubstringIff(name: string, s: string)
    ensures IsSubstring(name, s) <==> exists i :: OccursAt(name, s, i)
  {
    if name <= s {
      assert s[0..|name|] == name;
      assert OccursAt(name, s, 0);
    } else if s == [] {
      assert forall i :: !OccursAt(name, s, i);
    } else {
      IsSubstringIff(name, s[1..]);
      if exists i :: OccursAt(name, s[1..], i) {
        var i :| OccursAt(name, s[1..], i);
        assert s[i + 1..i + 1 + |name|] == s[1..][i..i + |name|];
        assert OccursAt(name, s, i + 1);
      }
      if exists i :: OccursAt(name, s, i) {
        var i :| OccursAt(name, s, i);
        assert s[1..][i - 1..i - 1 + |name|] == s[i..i + |name|];
        assert OccursAt(name, s[1..], i - 1);
      }
    }
  }

  /** Python's `name in v` for a string `name`: key membership for a dict,
      element equality for a list, substring for a string; numbers, booleans
      and None are not containers (TypeError). */
  function Contains(v: Json, name: string): (r: Option<bool>)
    ensures r.Some? <==> v.Obj? || v.Arr? || v.Str?
    ensures v.Obj? ==> r == Some(KStr(name) in v.fields)
    ensures v.Arr? ==> r == Some(Str(name) in v.items)
    ensures v.Str? ==> r == Some(IsSubstring(name, v.s))
  {
    match v
    case Obj(m) => Some(KStr(name) in m)
    case Arr(items) => Some(Str(name) in items)
    case Str(s) => Some(IsSubstring(name, s))
    case _ => None
  }

  /** Python's `v[name]` for a string `name`: a dict lookup (KeyError when
      absent); lists and strings take only integer indices and the scalars
      none at all (TypeError). */
  function Subscript(v: Json, name: string): (r: Option<Json>)
    ensures r.Some? <==> v.Obj? && KStr(name) in v.fields
    ensures r.Some? ==> r.value == v.fields[KStr(name)]
  {
    match v
    case Obj(m) => if KStr(name) in m then Some(m[KStr(name)]) else None
    case _ => None
  }

  /** The items that `for item in v` visits, or `None` when the loop raises
      before its body could succeed once. A list yields its elements and a
      string its one-character strings. A dict yields its keys, in an order
      Python 2 leaves unspecified; every key is a scalar and `item['key']` on
      a scalar raises, so a non-empty dict is reported as `None` here and an
      empty one as no items. Numbers, booleans and None are not iterable. */
  function PairItems(v: Json): (r: Option<seq<Json>>)
    ensures v.Arr? ==> r == Some(v.items)
    ensures v.Str? ==> r.Some? && |r.value| == |v.s| && forall i | 0 <= i < |v.s| :: r.value[i] == Str([v.s[i]])
    ensures v.Obj? ==> (r.Some? <==> v.fields == map[])
    ensures v.Obj? && v.fields == map[] ==> r == Some([])
    ensures r.Some? ==> v.Arr? || v.Str? || v.Obj?
  {
    match v
    case Arr(items) => Some(items)
    case Str(s) => Some(seq(|s|, i requires 0 <= i < |s| => Str([s[i]])))
    case Obj(m) => if m == map[] then Some([]) else None
    case _ => None
  }
}
