/** Pair-list normalisation: the loop that turns a list of `{key, value}`
    objects into a dict, `d[item['key']] = item['value']` once per item, so
    that a later pair overwrites an earlier one with the same key. */
module Pairs {
  import opened Wrappers
  import opened PyJson

  /** One loop step on `item`: the key it stores under and the value it
      stores, or `None` if `item['value']` or `item['key']` raises (item not
      a dict, or the field missing) or the key is unhashable. */
  function AsPair(item: Json): (r: Option<(Key, Json)>)
    ensures r.Some? <==>
      && item.Obj?
      && KStr("key") in item.fields
      && KStr("value") in item.fields
      && !(item.fields[KStr("key")].Arr? || item.fields[KStr("key")].Obj?)
    ensures r.Some? ==>
      && KeyValue(r.value.0) == item.fields[KStr("key")]
      && r.value.1 == item.fields[KStr("value")]
  {
    match Subscript(item, "value")
    case None => None
    case Some(v) =>
      match Subscript(item, "key")
      case None => None
      case Some(k) =>
        match AsKey(k)
        case None => None
        case Some(key) => Some((key, v))
  }

  /** Every item is a well-formed pair. */
  predicate WellFormed(items: seq<Json>)
  {
    forall i | 0 <= i < |items| :: AsPair(items[i]).Some?
  }

  function PairKey(item: Json): (k: Key)
    requires AsPair(item).Some?
  {
    AsPair(item).value.0
  }

  function PairValue(item: Json): (v: Json)
    requires AsPair(item).Some?
  {
    AsPair(item).value.1
  }

  /** No pair after position `j` has the key of the pair at `j`. */
  predicate IsLastOfItsKey(items: seq<Json>, j: int)
    requires WellFormed(items)
  {
    && 0 <= j < |items|
    && forall j' | j < j' < |items| :: PairKey(items[j']) != PairKey(items[j])
  }

  /** The dict the loop holds after visiting `items` in order, or `None` if a
      step raised. Defined on the last item, as the loop adds it last. The
      loop completes exactly when every item is a well-formed pair. */
  function Normalized(items: seq<Json>): (r: Option<map<Key, Json>>)
    ensures r.Some? <==> WellFormed(items)
    decreases |items|
  {
    if items == [] then Some(map[])
    else
      assert forall i | 0 <= i < |items| - 1 :: items[..|items| - 1][i] == items[i];
      match Normalized(items[..|items| - 1])
      case None => None
      case Some(d) =>
        match AsPair(items[|items| - 1])
        case None => None
        case Some(p) => Some(d[p.0 := p.1])
  }

  /** The keys the pairs of `items` carry. */
  function PairKeys(items: seq<Json>): (keys: set<Key>)
    requires WellFormed(items)
  {
    set i | 0 <= i < |items| :: PairKey(items[i])
  }

  /** Dropping the last item keeps the rest well formed. */
  lemma FrontWellFormed(items: seq<Json>)
    requires WellFormed(items) && items != []
    ensures WellFormed(items[..|items| - 1])
  {
    var front := items[..|items| - 1];
    forall i | 0 <= i < |front| ensures AsPair(front[i]).Some? { assert front[i] == items[i]; }
  }

  /** The keys of all items are those of the front plus the last one. */
  lemma FrontKeys(items: seq<Json>)
    requires WellFormed(items) && items != []
    ensures WellFormed(items[..|items| - 1])
    ensures PairKeys(items) == PairKeys(items[..|items| - 1]) + {PairKey(items[|items| - 1])}
  {
    FrontWellFormed(items);
    var n := |items| - 1;
    var front := items[..n];
    var k := PairKey(items[n]);
    forall x | x in PairKeys(items) ensures x in PairKeys(front) + {k} {
      var i :| 0 <= i < |items| && PairKey(items[i]) == x;
      if i < n { assert front[i] == items[i]; }
    }
    forall x | x in PairKeys(front) ensures x in PairKeys(items) {
      var i :| 0 <= i < |front| && PairKey(front[i]) == x;
      assert front[i] == items[i];
    }
  }

  /** The dict for all items is the dict for the front updated with the
      last pair. */
  lemma FrontNormalized(items: seq<Json>)
    requires items != [] && AsPair(items[|items| - 1]).Some?
    requires Normalized(items[..|items| - 1]).Some?
    ensures Normalized(items) == Some(Normalized(items[..|items| - 1]).value[PairKey(items[|items| - 1]) := PairValue(items[|items| - 1])])
  {
  }

  /** Last key wins, keys: the dict holds exactly the keys of the pairs. */
  lemma {:induction false} NormalizedKeys(items: seq<Json>)
    requires WellFormed(items)
    ensures Normalized(items).Some?
    ensures Normalized(items).value.Keys == PairKeys(items)
  {
    if items != [] {
      FrontKeys(items);
      NormalizedKeys(items[..|items| - 1]);
      FrontNormalized(items);
    }
  }

  /** Last key wins, values: a key maps to the value of the last pair that
      carries it. */
  lemma {:induction false} LastKeyWins(items: seq<Json>, j: int)
    requires WellFormed(items) && IsLastOfItsKey(items, j)
    ensures Normalized(items).Some?
    ensures PairKey(items[j]) in Normalized(items).value
    ensures Normalized(items).value[PairKey(items[j])] == PairValue(items[j])
  {
    var n := |items| - 1;
    var front := items[..n];
    FrontWellFormed(items);
    FrontNormalized(items);
    if j < n {
      assert front[j] == items[j];
      assert IsLastOfItsKey(front, j) by {
        forall j' | j < j' < |front| ensures PairKey(front[j']) != PairKey(front[j]) {
          assert front[j'] == items[j'];
        }
      }
      LastKeyWins(front, j);
    }
  }

  /** The loop at lines 29-30 (and 36-37) of `process_kpl_record`: it fills
      a fresh dict item by item and stops at the first step that raises.
      `item['value']` is read first, as Python evaluates the right-hand side
      of the assignment before the subscript target. */
  method FillPairs(items: seq<Json>) returns (r: Option<map<Key, Json>>)
    ensures r == Normalized(items)
  {
    var d: map<Key, Json> := map[];
    var i := 0;
    while i < |items|
      invariant 0 <= i <= |items|
      invariant Normalized(items[..i]) == Some(d)
    {
      var item := items[i];
      var value := Subscript(item, "value");
      var key := Subscript(item, "key");
      if value.None? || key.None? || AsKey(key.value).None? {
        return None;
      }
      assert items[..i + 1][..i] == items[..i];
      d := d[AsKey(key.value).value := value.value];
      i := i + 1;
    }
    assert items[..i] == items;
    r := Some(d);
  }
}
