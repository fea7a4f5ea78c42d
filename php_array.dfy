/**
 * PHP arrays as ordered maps: a sequence of (key, value) entries in
 * insertion order. `Put` is the assignment `$a[$k] = $v`, `ArrayMerge`
 * is PHP's `array_merge($a, $b)`, `MapValues` and `FilterTruthy` are
 * `array_map` and `array_filter`.
 */
module PhpArray {
  import opened Wrappers
  import opened PhpValue

  type Entries = seq<(Key, Value)>

  function Keys(a: Entries): (ks: seq<Key>)
    ensures |ks| == |a|
    ensures forall i | 0 <= i < |a| :: ks[i] == a[i].0
  {
    seq(|a|, i requires 0 <= i < |a| => a[i].0)
  }

  /** The values of a keyed list, in order: `array_values`. */
  function Values<V>(a: seq<(Key, V)>): (vs: seq<V>)
    ensures |vs| == |a|
    ensures forall i | 0 <= i < |a| :: vs[i] == a[i].1
  {
    seq(|a|, i requires 0 <= i < |a| => a[i].1)
  }

  /** Every PHP array has pairwise distinct keys. */
  predicate UniqueKeys(a: Entries) {
    forall i, j | 0 <= i < j < |a| :: a[i].0 != a[j].0
  }

  predicate StringKeyed(a: Entries) {
    forall i | 0 <= i < |a| :: a[i].0.StrKey?
  }

  /** The value stored under `k` (its first entry), or `None` when `k` is not a key. */
  function Get(a: Entries, k: Key): (r: Option<Value>)
    ensures r.Some? <==> k in Keys(a)
    ensures r.Some? ==> (k, r.value) in a
  {
    if a == [] then None
    else if a[0].0 == k then Some(a[0].1)
    else
      assert Keys(a) == [a[0].0] + Keys(a[1..]);
      Get(a[1..], k)
  }

  /** The position of the entry with key `k`, or `None` when `k` is not a key. */
  function KeyIndex(a: Entries, k: Key): (r: Option<nat>)
    ensures r.None? <==> k !in Keys(a)
    ensures r.Some? ==> r.value < |a| && a[r.value].0 == k
    ensures r.Some? ==> forall j | 0 <= j < r.value :: a[j].0 != k
  {
    if a == [] then None
    else if a[0].0 == k then Some(0)
    else
      assert Keys(a) == [a[0].0] + Keys(a[1..]);
      match KeyIndex(a[1..], k)
      case Some(i) => Some(i + 1)
      case None => None
  }

  lemma {:induction false} KeyIndexAppend(a: Entries, e: (Key, Value), k: Key)
    ensures KeyIndex(a + [e], k) ==
      if k in Keys(a) then KeyIndex(a, k) else if e.0 == k then Some(|a|) else None
  {
    if a != [] {
      assert (a + [e])[1..] == a[1..] + [e];
      assert Keys(a) == [a[0].0] + Keys(a[1..]);
      KeyIndexAppend(a[1..], e, k);
    }
  }

  lemma KeysConcat(a: Entries, b: Entries)
    ensures Keys(a + b) == Keys(a) + Keys(b)
  {
  }

  lemma {:induction false} GetAppend(a: Entries, e: (Key, Value), k: Key)
    ensures Get(a + [e], k) == if k in Keys(a) then Get(a, k) else if e.0 == k then Some(e.1) else None
  {
    if a != [] {
      assert (a + [e])[1..] == a[1..] + [e];
      assert Keys(a) == [a[0].0] + Keys(a[1..]);
      GetAppend(a[1..], e, k);
    }
  }

  function GetOr(a: Entries, k: Key, default: Value): Value {
    Get(a, k).GetOr(default)
  }

  lemma {:induction false} GetUnique(a: Entries, i: nat)
    requires UniqueKeys(a) && i < |a|
    ensures Get(a, a[i].0) == Some(a[i].1)
  {
    if i > 0 {
      GetUnique(a[1..], i - 1);
    }
  }

  /**
   * `$a[$k] = $v`: an existing key has its value replaced where it stands;
   * a new key is appended at the end.
   */
  function Put(a: Entries, k: Key, v: Value): (r: Entries)
    ensures |r| == if k in Keys(a) then |a| else |a| + 1
    ensures k !in Keys(a) ==> r == a + [(k, v)]
  {
    if a == [] then [(k, v)]
    else if a[0].0 == k then [(k, v)] + a[1..]
    else
      assert Keys(a) == [a[0].0] + Keys(a[1..]);
      [a[0]] + Put(a[1..], k, v)
  }

  /** Assigning a key no entry has appends it. */
  lemma PutFreshKey(a: Entries, k: Key, v: Value)
    requires forall i | 0 <= i < |a| :: a[i].0 != k
    ensures Put(a, k, v) == a + [(k, v)]
  {
    assert k !in Keys(a);
  }

  /** Assignment keeps every existing key where it was, and every other entry unchanged. */
  lemma {:induction false} PutInPlace(a: Entries, k: Key, v: Value)
    ensures |Put(a, k, v)| >= |a|
    ensures forall i | 0 <= i < |a| :: Put(a, k, v)[i].0 == a[i].0
    ensures forall i | 0 <= i < |a| && a[i].0 != k :: Put(a, k, v)[i] == a[i]
    ensures Keys(Put(a, k, v))[..|a|] == Keys(a)
  {
    var r := Put(a, k, v);
    if a != [] {
      var t := a[1..];
      if a[0].0 == k {
        assert r == [(k, v)] + t;
        forall i | 1 <= i < |a| ensures r[i] == a[i] {
          assert r[i] == t[i - 1];
        }
      } else {
        PutInPlace(t, k, v);
        var rt := Put(t, k, v);
        assert r == [a[0]] + rt;
        forall i | 1 <= i < |a| ensures r[i].0 == a[i].0 && (a[i].0 != k ==> r[i] == a[i]) {
          assert r[i] == rt[i - 1] && a[i] == t[i - 1];
        }
      }
    }
    var ks := Keys(r)[..|a|];
    assert |ks| == |a|;
    forall i | 0 <= i < |a| ensures ks[i] == Keys(a)[i] {
      assert ks[i] == r[i].0;
    }
  }

  /** After `$a[$k] = $v`, `$a[$k]` is `$v` and every other key reads as before. */
  lemma {:induction false} PutGet(a: Entries, k: Key, v: Value, k': Key)
    ensures Get(Put(a, k, v), k') == if k' == k then Some(v) else Get(a, k')
  {
    if a != [] && a[0].0 != k {
      PutGet(a[1..], k, v, k');
    }
  }

  lemma PutUnique(a: Entries, k: Key, v: Value)
    requires UniqueKeys(a)
    ensures UniqueKeys(Put(a, k, v))
  {
    var r := Put(a, k, v);
    if k in Keys(a) {
      PutInPlace(a, k, v);
      assert Keys(r) == Keys(r)[..|a|];
      forall i, j | 0 <= i < j < |r| ensures r[i].0 != r[j].0 {
        assert r[i].0 == Keys(a)[i] && r[j].0 == Keys(a)[j];
      }
    }
  }

  /** `a` with the entries `ins` placed right after the entry with key `k`, or `a` itself when `k` is not a key. */
  function InsertAfter(a: Entries, k: Key, ins: Entries): Entries {
    match KeyIndex(a, k)
    case Some(i) => a[..i + 1] + ins + a[i + 1..]
    case None => a
  }

  /** Appending an entry with another key commutes with the insertion. */
  lemma InsertAfterSnoc(a: Entries, k: Key, ins: Entries, e: (Key, Value))
    requires e.0 != k
    ensures InsertAfter(a + [e], k, ins) == InsertAfter(a, k, ins) + [e]
  {
    KeyIndexAppend(a, e, k);
    match KeyIndex(a, k)
    case Some(i) => InsertAfterSnocAt(a, k, ins, e, i);
    case None =>
  }

  lemma InsertAfterSnocAt(a: Entries, k: Key, ins: Entries, e: (Key, Value), i: nat)
    requires KeyIndex(a, k) == Some(i) && KeyIndex(a + [e], k) == Some(i)
    ensures InsertAfter(a + [e], k, ins) == InsertAfter(a, k, ins) + [e]
  {
    var b := a + [e];
    var front, back := a[..i + 1], a[i + 1..];
    assert b[..i + 1] == front;
    assert b[i + 1..] == back + [e];
    assert front + ins + (back + [e]) == (front + ins + back) + [e];
  }

  /** How many integer keys a key sequence holds: the next index `array_merge` assigns. */
  function CountIntKeys(ks: seq<Key>): nat {
    if ks == [] then 0 else CountIntKeys(ks[..|ks| - 1]) + (if ks[|ks| - 1].IntKey? then 1 else 0)
  }

  /** One entry of `array_merge`: integer keys are renumbered and appended, string keys are assigned. */
  function MergeStep(acc: Entries, e: (Key, Value)): Entries {
    if e.0.IntKey? then acc + [(IntKey(CountIntKeys(Keys(acc))), e.1)] else Put(acc, e.0, e.1)
  }

  function MergeInto(acc: Entries, es: Entries): Entries
    decreases |es|
  {
    if es == [] then acc else MergeInto(MergeStep(acc, es[0]), es[1..])
  }

  /** PHP `array_merge($a, $b)`. */
  function ArrayMerge(a: Entries, b: Entries): Entries {
    MergeInto(MergeInto([], a), b)
  }

  lemma {:induction false} MergeIntoStringKey(acc: Entries, es: Entries, k: Key)
    requires k.StrKey? && UniqueKeys(es)
    ensures Get(MergeInto(acc, es), k) == if k in Keys(es) then Get(es, k) else Get(acc, k)
    decreases |es|
  {
    if es != [] {
      var e := es[0];
      var next := MergeStep(acc, e);
      assert Keys(es) == [e.0] + Keys(es[1..]);
      assert UniqueKeys(es[1..]);
      MergeIntoStringKey(next, es[1..], k);
      if e.0.IntKey? {
        GetAppend(acc, (IntKey(CountIntKeys(Keys(acc))), e.1), k);
      } else {
        PutGet(acc, e.0, e.1, k);
        assert e.0 == k ==> k !in Keys(es[1..]);
      }
    }
  }

  /**
   * `array_merge` on a string key: the later array's value when it has the
   * key, otherwise the earlier array's, otherwise absent.
   */
  lemma ArrayMergeStringKey(a: Entries, b: Entries, k: Key)
    requires k.StrKey? && UniqueKeys(a) && UniqueKeys(b)
    ensures Get(ArrayMerge(a, b), k) == if k in Keys(b) then Get(b, k) else Get(a, k)
  {
    MergeIntoStringKey([], a, k);
    MergeIntoStringKey(MergeInto([], a), b, k);
  }

  lemma {:induction false} MergeIntoKeepsPrefix(acc: Entries, es: Entries)
    ensures |MergeInto(acc, es)| >= |acc|
    ensures Keys(MergeInto(acc, es))[..|acc|] == Keys(acc)
    decreases |es|
  {
    if es != [] {
      var next := MergeStep(acc, es[0]);
      if !es[0].0.IntKey? {
        PutInPlace(acc, es[0].0, es[0].1);
      }
      assert |next| >= |acc| && Keys(next)[..|acc|] == Keys(acc);
      MergeIntoKeepsPrefix(next, es[1..]);
    }
  }

  /** Merging a string-keyed array into nothing reproduces it. */
  lemma {:induction false} MergeIntoEmptyStringKeyed(acc: Entries, es: Entries)
    requires StringKeyed(es) && UniqueKeys(acc + es)
    ensures MergeInto(acc, es) == acc + es
    decreases |es|
  {
    if es != [] {
      assert es[0].0 !in Keys(acc) by {
        forall i | 0 <= i < |acc| ensures acc[i].0 != es[0].0 {
          assert (acc + es)[i] == acc[i] && (acc + es)[|acc|] == es[0];
        }
      }
      assert acc + [es[0]] + es[1..] == acc + es;
      MergeIntoEmptyStringKeyed(acc + [es[0]], es[1..]);
    }
  }

  /**
   * The defaults of a string-keyed `array_merge` keep their positions at the
   * front of the result.
   */
  lemma ArrayMergeKeepsDefaultOrder(a: Entries, b: Entries)
    requires StringKeyed(a) && UniqueKeys(a)
    ensures |ArrayMerge(a, b)| >= |a|
    ensures Keys(ArrayMerge(a, b))[..|a|] == Keys(a)
  {
    assert [] + a == a;
    MergeIntoEmptyStringKeyed([], a);
    MergeIntoKeepsPrefix(a, b);
  }

  /** Merging nothing over a string-keyed array leaves it as it is. */
  lemma ArrayMergeNothing(a: Entries)
    requires StringKeyed(a) && UniqueKeys(a)
    ensures ArrayMerge(a, []) == a
  {
    assert [] + a == a;
    MergeIntoEmptyStringKeyed([], a);
  }

  /** Integer keys of an accumulated merge are exactly numbered below their count. */
  predicate Numbered(acc: Entries) {
    && UniqueKeys(acc)
    && forall i | 0 <= i < |acc| && acc[i].0.IntKey? :: acc[i].0.n < CountIntKeys(Keys(acc))
  }

  lemma CountIntKeysAppend(ks: seq<Key>, k: Key)
    ensures CountIntKeys(ks + [k]) == CountIntKeys(ks) + (if k.IntKey? then 1 else 0)
  {
    assert (ks + [k])[..|ks|] == ks;
  }

  lemma MergeStepNumbered(acc: Entries, e: (Key, Value))
    requires Numbered(acc)
    ensures Numbered(MergeStep(acc, e))
  {
    var r := MergeStep(acc, e);
    var c := CountIntKeys(Keys(acc));
    if e.0.IntKey? {
      assert Keys(r) == Keys(acc) + [IntKey(c)];
      CountIntKeysAppend(Keys(acc), IntKey(c));
    } else {
      PutUnique(acc, e.0, e.1);
      if e.0 !in Keys(acc) {
        assert Keys(r) == Keys(acc) + [e.0];
        CountIntKeysAppend(Keys(acc), e.0);
      } else {
        PutInPlace(acc, e.0, e.1);
        assert Keys(r) == Keys(r)[..|acc|];
      }
    }
  }

  lemma {:induction false} MergeIntoNumbered(acc: Entries, es: Entries)
    requires Numbered(acc)
    ensures Numbered(MergeInto(acc, es))
    decreases |es|
  {
    if es != [] {
      MergeStepNumbered(acc, es[0]);
      MergeIntoNumbered(MergeStep(acc, es[0]), es[1..]);
    }
  }

  /** Each integer key is the number of integer keys before it: the keys run 0, 1, 2, ... in order. */
  predicate Renumbered(ks: seq<Key>) {
    forall i | 0 <= i < |ks| && ks[i].IntKey? :: ks[i].n == CountIntKeys(ks[..i])
  }

  lemma RenumberedSnoc(ks: seq<Key>, k: Key)
    requires Renumbered(ks)
    requires k.IntKey? ==> k.n == CountIntKeys(ks)
    ensures Renumbered(ks + [k])
  {
    var r := ks + [k];
    forall i | 0 <= i < |r| && r[i].IntKey? ensures r[i].n == CountIntKeys(r[..i]) {
      if i < |ks| {
        assert r[..i] == ks[..i] && r[i] == ks[i];
      } else {
        assert r[..i] == ks;
      }
    }
  }

  lemma MergeStepRenumbered(acc: Entries, e: (Key, Value))
    requires Renumbered(Keys(acc))
    ensures Renumbered(Keys(MergeStep(acc, e)))
  {
    var r := MergeStep(acc, e);
    if e.0.IntKey? {
      assert Keys(r) == Keys(acc) + [IntKey(CountIntKeys(Keys(acc)))];
      RenumberedSnoc(Keys(acc), IntKey(CountIntKeys(Keys(acc))));
    } else if e.0 !in Keys(acc) {
      assert Keys(r) == Keys(acc) + [e.0];
      RenumberedSnoc(Keys(acc), e.0);
    } else {
      PutInPlace(acc, e.0, e.1);
      assert Keys(r) == Keys(r)[..|acc|];
    }
  }

  lemma {:induction false} MergeIntoRenumbered(acc: Entries, es: Entries)
    requires Renumbered(Keys(acc))
    ensures Renumbered(Keys(MergeInto(acc, es)))
    decreases |es|
  {
    if es != [] {
      MergeStepRenumbered(acc, es[0]);
      MergeIntoRenumbered(MergeStep(acc, es[0]), es[1..]);
    }
  }

  /**
   * `array_merge` always yields a proper PHP array: its keys are distinct,
   * and its integer keys are renumbered 0, 1, 2, ... in order.
   */
  lemma ArrayMergeUniqueKeys(a: Entries, b: Entries)
    ensures UniqueKeys(ArrayMerge(a, b))
    ensures Renumbered(Keys(ArrayMerge(a, b)))
  {
    MergeIntoNumbered([], a);
    MergeIntoNumbered(MergeInto([], a), b);
    MergeIntoRenumbered([], a);
    MergeIntoRenumbered(MergeInto([], a), b);
  }

  // `array_map` and `array_filter` on a single array.

  /** `array_map($f, $a)` on a single array: the same keys in the same order, every value mapped. */
  function MapValues<U>(a: Entries, f: Value -> U): (r: seq<(Key, U)>)
    ensures |r| == |a|
    ensures forall i | 0 <= i < |a| :: r[i] == (a[i].0, f(a[i].1))
  {
    if a == [] then [] else [(a[0].0, f(a[0].1))] + MapValues(a[1..], f)
  }

  /** Mapping a concatenation maps each part in turn: the order is kept. */
  lemma {:induction false} MapValuesConcat<U>(a: Entries, b: Entries, f: Value -> U)
    ensures MapValues(a + b, f) == MapValues(a, f) + MapValues(b, f)
  {
    if a == [] {
      assert a + b == b;
    } else {
      assert (a + b)[0] == a[0];
      assert (a + b)[1..] == a[1..] + b;
      MapValuesConcat(a[1..], b, f);
      assert MapValues(a + b, f) == [(a[0].0, f(a[0].1))] + MapValues(a[1..] + b, f);
    }
  }

  lemma {:induction false} MapValuesGet(a: Entries, f: Value -> Value, k: Key)
    ensures Get(MapValues(a, f), k) == if k in Keys(a) then Some(f(Get(a, k).value)) else None
  {
    if a != [] {
      assert Keys(a) == [a[0].0] + Keys(a[1..]);
      MapValuesGet(a[1..], f, k);
    }
  }

  /** `array_filter($a)` without a callback: the entries whose values are truthy, keys and order kept. */
  function FilterTruthy(a: Entries): (r: Entries)
    ensures |r| <= |a|
    ensures forall i | 0 <= i < |r| :: Truthy(r[i].1)
    ensures forall e | e in r :: e in a
  {
    if a == [] then []
    else (if Truthy(a[0].1) then [a[0]] else []) + FilterTruthy(a[1..])
  }

  /** Filtering a concatenation filters each part in turn: the kept entries stay in input order. */
  lemma {:induction false} FilterTruthyConcat(a: Entries, b: Entries)
    ensures FilterTruthy(a + b) == FilterTruthy(a) + FilterTruthy(b)
  {
    if a == [] {
      assert a + b == b;
    } else {
      assert (a + b)[0] == a[0];
      assert (a + b)[1..] == a[1..] + b;
      FilterTruthyConcat(a[1..], b);
    }
  }

  /** Filtering drops nothing when every value is truthy. */
  lemma {:induction false} FilterTruthyKeepsTruthy(a: Entries)
    requires forall i | 0 <= i < |a| :: Truthy(a[i].1)
    ensures FilterTruthy(a) == a
  {
    if a != [] {
      FilterTruthyKeepsTruthy(a[1..]);
    }
  }

  /** Filtering a proper PHP array yields a proper PHP array. */
  lemma {:induction false} FilterUnique(a: Entries)
    requires UniqueKeys(a)
    ensures UniqueKeys(FilterTruthy(a))
  {
    if a != [] {
      var head, tail := a[0], a[1..];
      var rest := FilterTruthy(tail);
      assert UniqueKeys(tail);
      FilterUnique(tail);
      if Truthy(head.1) {
        var r := [head] + rest;
        forall j | 0 <= j < |rest| ensures rest[j].0 != head.0 {
          assert rest[j] in rest;
          var m :| 0 <= m < |tail| && tail[m] == rest[j];
          assert a[m + 1] == tail[m];
        }
        forall i, j | 0 <= i < j < |r| ensures r[i].0 != r[j].0 {
          assert r[j] == rest[j - 1];
          if i > 0 {
            assert r[i] == rest[i - 1];
          }
        }
      }
    }
  }

  /** In a proper PHP array, a key survives the filter exactly when its value is truthy, and keeps that value. */
  lemma {:induction false} FilterTruthyGet(a: Entries, k: Key)
    requires UniqueKeys(a)
    ensures Get(FilterTruthy(a), k) ==
      if k in Keys(a) && Truthy(Get(a, k).value) then Get(a, k) else None
  {
    if a != [] {
      var head, tail := a[0], a[1..];
      var rest := FilterTruthy(tail);
      assert Keys(a) == [head.0] + Keys(tail);
      assert UniqueKeys(tail);
      FilterTruthyGet(tail, k);
      if head.0 == k {
        assert k !in Keys(tail) by {
          forall i | 0 <= i < |tail| ensures tail[i].0 != k {
            assert a[i + 1] == tail[i];
          }
        }
        assert Get(a, k) == Some(head.1);
        assert Get(rest, k) == None;
      } else {
        assert Get(a, k) == Get(tail, k);
      }
      if Truthy(head.1) {
        assert FilterTruthy(a) == [head] + rest;
        assert ([head] + rest)[1..] == rest;
      } else {
        assert FilterTruthy(a) == rest;
      }
    }
  }
}
