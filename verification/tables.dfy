/**
 * A database table as a sequence of rows with a lookup key, and Django's
 * `update_or_create(key..., defaults=...)` on it: `get()` the row for the key,
 * create one when there is none, overwrite its fields when there is exactly
 * one, and raise `MultipleObjectsReturned` when there are several.
 */
module Tables {
  import opened Results

  datatype Row<K, V> = Row(key: K, value: V)

  /** The number of rows stored under `k`. */
  function CountKey<K(==), V>(t: seq<Row<K, V>>, k: K): nat
  {
    if |t| == 0 then 0
    else (if t[0].key == k then 1 else 0) + CountKey(t[1..], k)
  }

  /** No two rows share a key: the state `update_or_create` maintains. */
  ghost predicate UniqueKeys<K, V>(t: seq<Row<K, V>>) {
    forall i, j :: 0 <= i < j < |t| ==> t[i].key != t[j].key
  }

  /** The value of the first row stored under `k`, if any. */
  function Lookup<K(==), V>(t: seq<Row<K, V>>, k: K): (r: Option<V>)
    ensures r.None? <==> CountKey(t, k) == 0
    ensures r.Some? ==> Row(k, r.value) in t
  {
    if |t| == 0 then None
    else if t[0].key == k then Some(t[0].value)
    else Lookup(t[1..], k)
  }

  /** Every row stored under `k` gets value `v`; no other row changes. */
  function Replace<K(==), V>(t: seq<Row<K, V>>, k: K, v: V): (r: seq<Row<K, V>>)
    ensures |r| == |t|
    ensures forall i :: 0 <= i < |t| ==> r[i].key == t[i].key
    ensures forall i :: 0 <= i < |t| && t[i].key != k ==> r[i] == t[i]
    ensures forall i :: 0 <= i < |t| && t[i].key == k ==> r[i].value == v
  {
    if |t| == 0 then []
    else [if t[0].key == k then Row(k, v) else t[0]] + Replace(t[1..], k, v)
  }

  lemma {:induction false} ReplaceFacts<K, V>(t: seq<Row<K, V>>, k: K, v: V, k': K)
    ensures CountKey(Replace(t, k, v), k') == CountKey(t, k')
    ensures k' != k ==> Lookup(Replace(t, k, v), k') == Lookup(t, k')
    ensures CountKey(t, k) > 0 ==> Lookup(Replace(t, k, v), k) == Some(v)
  {
    if |t| > 0 {
      var r := Replace(t, k, v);
      assert r[1..] == Replace(t[1..], k, v);
      ReplaceFacts(t[1..], k, v, k');
    }
  }

  lemma {:induction false} AppendFacts<K, V>(t: seq<Row<K, V>>, k: K, v: V, k': K)
    ensures CountKey(t + [Row(k, v)], k') == CountKey(t, k') + (if k' == k then 1 else 0)
    ensures Lookup(t + [Row(k, v)], k') ==
              (if CountKey(t, k') > 0 then Lookup(t, k') else if k' == k then Some(v) else None)
  {
    if |t| == 0 {
      assert (t + [Row(k, v)])[1..] == [];
    } else {
      assert (t + [Row(k, v)])[1..] == t[1..] + [Row(k, v)];
      AppendFacts(t[1..], k, v, k');
    }
  }

  lemma {:induction false} UniqueCount<K, V>(t: seq<Row<K, V>>, k: K)
    requires UniqueKeys(t)
    ensures CountKey(t, k) <= 1
  {
    if |t| > 0 {
      UniqueCount(t[1..], k);
      if t[0].key == k {
        forall i | 0 <= i < |t[1..]|
          ensures t[1..][i].key != k
        {
          assert t[1..][i] == t[i + 1];
        }
        AbsentCount(t[1..], k);
      }
    }
  }

  lemma {:induction false} AbsentCount<K, V>(t: seq<Row<K, V>>, k: K)
    requires forall i :: 0 <= i < |t| ==> t[i].key != k
    ensures CountKey(t, k) == 0
  {
    if |t| > 0 {
      AbsentCount(t[1..], k);
    }
  }

  /**
   * `update_or_create`: afterwards exactly one row is stored under `k` and it
   * holds `v`; every other key looks up as before; a row is added only when
   * the key was absent.
   */
  function Upsert<K(==,!new), V>(t: seq<Row<K, V>>, k: K, v: V): (r: Result<seq<Row<K, V>>>)
    ensures r.Err? <==> CountKey(t, k) >= 2
    ensures r.Err? ==> r.error == MultipleObjectsReturned
    ensures r.Ok? ==> Lookup(r.value, k) == Some(v) && CountKey(r.value, k) == 1
    ensures r.Ok? ==> forall k' :: k' != k ==> Lookup(r.value, k') == Lookup(t, k')
    ensures r.Ok? ==> forall k' :: k' != k ==> CountKey(r.value, k') == CountKey(t, k')
    ensures r.Ok? ==> |r.value| == |t| + (if CountKey(t, k) == 0 then 1 else 0)
    ensures r.Ok? ==> forall x :: x in r.value ==> x in t || x == Row(k, v)
  {
    var c := CountKey(t, k);
    if c >= 2 then Err(MultipleObjectsReturned)
    else if c == 0 then
      var r := t + [Row(k, v)];
      assert forall k' :: (Lookup(r, k') == (if CountKey(t, k') > 0 then Lookup(t, k') else if k' == k then Some(v) else None)
             && CountKey(r, k') == CountKey(t, k') + (if k' == k then 1 else 0)) by {
        forall k' { AppendFacts(t, k, v, k'); }
      }
      Ok(r)
    else
      var r := Replace(t, k, v);
      assert forall k' :: (CountKey(r, k') == CountKey(t, k')
             && (k' != k ==> Lookup(r, k') == Lookup(t, k'))) by {
        forall k' { ReplaceFacts(t, k, v, k'); }
      }
      ReplaceFacts(t, k, v, k);
      Ok(r)
  }

  /** Upserting a key already holding the value changes nothing. */
  lemma {:induction false} UpsertUnchanged<K(!new), V>(t: seq<Row<K, V>>, k: K, v: V)
    requires CountKey(t, k) == 1 && Lookup(t, k) == Some(v)
    ensures Upsert(t, k, v) == Ok(t)
  {
    ReplaceSame(t, k, v);
  }

  lemma {:induction false} ReplaceSame<K, V>(t: seq<Row<K, V>>, k: K, v: V)
    requires CountKey(t, k) <= 1 && (CountKey(t, k) == 1 ==> Lookup(t, k) == Some(v))
    ensures Replace(t, k, v) == t
  {
    if |t| > 0 {
      if t[0].key == k {
        assert CountKey(t[1..], k) == 0;
      }
      ReplaceSame(t[1..], k, v);
    }
  }

  /** Rerunning the same `update_or_create` overwrites instead of adding. */
  lemma UpsertIdempotent<K(!new), V>(t: seq<Row<K, V>>, k: K, v: V)
    requires Upsert(t, k, v).Ok?
    ensures Upsert(Upsert(t, k, v).value, k, v) == Upsert(t, k, v)
  {
    UpsertUnchanged(Upsert(t, k, v).value, k, v);
  }

  /** `update_or_create` keeps every key unique. */
  lemma {:induction false} UpsertKeepsUnique<K(!new), V>(t: seq<Row<K, V>>, k: K, v: V)
    requires UniqueKeys(t)
    ensures Upsert(t, k, v).Ok?
    ensures UniqueKeys(Upsert(t, k, v).value)
  {
    UniqueCount(t, k);
    var r := Upsert(t, k, v).value;
    if CountKey(t, k) == 0 {
      forall i | 0 <= i < |t|
        ensures t[i].key != k
      {
        if t[i].key == k {
          CountPositive(t, i);
        }
      }
    }
  }

  lemma {:induction false} CountPositive<K, V>(t: seq<Row<K, V>>, i: int)
    requires 0 <= i < |t|
    ensures CountKey(t, t[i].key) > 0
  {
    if i > 0 {
      CountPositive(t[1..], i - 1);
    }
  }

  /** Rows whose equal keys carry equal values. */
  ghost predicate Consistent<K, V>(rows: seq<Row<K, V>>) {
    forall i, j :: 0 <= i < |rows| && 0 <= j < |rows| && rows[i].key == rows[j].key ==>
      rows[i].value == rows[j].value
  }

  /**
   * One `update_or_create` per row, in order, stopping at the first one that
   * raises; it raises exactly when some row's key is already stored twice.
   */
  function UpsertAll<K(==,!new), V>(t: seq<Row<K, V>>, rows: seq<Row<K, V>>): (r: Result<seq<Row<K, V>>>)
    ensures r.Err? <==> exists i :: 0 <= i < |rows| && CountKey(t, rows[i].key) >= 2
    ensures r.Err? ==> r.error == MultipleObjectsReturned
    decreases |rows|
  {
    if |rows| == 0 then Ok(t)
    else
      var t1 :- Upsert(t, rows[0].key, rows[0].value);
      assert forall i :: 0 < i < |rows| ==> rows[1..][i - 1] == rows[i];
      UpsertAll(t1, rows[1..])
  }

  /** A key no row mentions keeps its rows. */
  lemma {:induction false} UpsertAllUntouched<K(!new), V>(t: seq<Row<K, V>>, rows: seq<Row<K, V>>, k: K)
    requires UpsertAll(t, rows).Ok?
    requires forall i :: 0 <= i < |rows| ==> rows[i].key != k
    ensures Lookup(UpsertAll(t, rows).value, k) == Lookup(t, k)
    ensures CountKey(UpsertAll(t, rows).value, k) == CountKey(t, k)
    decreases |rows|
  {
    if |rows| > 0 {
      var t1 := Upsert(t, rows[0].key, rows[0].value).value;
      assert forall i :: 0 <= i < |rows[1..]| ==> rows[1..][i] == rows[i + 1];
      UpsertAllUntouched(t1, rows[1..], k);
    }
  }

  /**
   * Every upserted key ends up stored exactly once, holding its row's value
   * when the rows agree on the values of equal keys.
   */
  lemma {:induction false} UpsertAllStored<K(!new), V>(t: seq<Row<K, V>>, rows: seq<Row<K, V>>, i: int)
    requires UpsertAll(t, rows).Ok?
    requires 0 <= i < |rows|
    ensures CountKey(UpsertAll(t, rows).value, rows[i].key) == 1
    ensures Consistent(rows) ==> Lookup(UpsertAll(t, rows).value, rows[i].key) == Some(rows[i].value)
    decreases |rows|
  {
    var t1 := Upsert(t, rows[0].key, rows[0].value).value;
    var tail := rows[1..];
    assert forall j :: 0 <= j < |tail| ==> tail[j] == rows[j + 1];
    assert Consistent(rows) ==> Consistent(tail);
    if i > 0 {
      UpsertAllStored(t1, tail, i - 1);
    } else if j :| 0 <= j < |tail| && tail[j].key == rows[0].key {
      UpsertAllStored(t1, tail, j);
    } else {
      UpsertAllUntouched(t1, tail, rows[0].key);
    }
  }

  lemma {:induction false} UpsertAllUnchanged<K(!new), V>(t: seq<Row<K, V>>, rows: seq<Row<K, V>>)
    requires forall i :: 0 <= i < |rows| ==>
               CountKey(t, rows[i].key) == 1 && Lookup(t, rows[i].key) == Some(rows[i].value)
    ensures UpsertAll(t, rows) == Ok(t)
    decreases |rows|
  {
    if |rows| > 0 {
      UpsertUnchanged(t, rows[0].key, rows[0].value);
      assert forall i :: 0 <= i < |rows[1..]| ==> rows[1..][i] == rows[i + 1];
      UpsertAllUnchanged(t, rows[1..]);
    }
  }

  /** Running the same batch of upserts twice leaves what running it once left. */
  lemma UpsertAllIdempotent<K(!new), V>(t: seq<Row<K, V>>, rows: seq<Row<K, V>>)
    requires Consistent(rows) && UpsertAll(t, rows).Ok?
    ensures UpsertAll(UpsertAll(t, rows).value, rows) == UpsertAll(t, rows)
  {
    forall i | 0 <= i < |rows|
      ensures CountKey(UpsertAll(t, rows).value, rows[i].key) == 1
      ensures Lookup(UpsertAll(t, rows).value, rows[i].key) == Some(rows[i].value)
    {
      UpsertAllStored(t, rows, i);
    }
    UpsertAllUnchanged(UpsertAll(t, rows).value, rows);
  }

  /** A table with unique keys never makes a batch of upserts fail, and stays unique. */
  lemma {:induction false} UpsertAllKeepsUnique<K(!new), V>(t: seq<Row<K, V>>, rows: seq<Row<K, V>>)
    requires UniqueKeys(t)
    ensures UpsertAll(t, rows).Ok?
    ensures UniqueKeys(UpsertAll(t, rows).value)
    decreases |rows|
  {
    if |rows| > 0 {
      UpsertKeepsUnique(t, rows[0].key, rows[0].value);
      UpsertAllKeepsUnique(Upsert(t, rows[0].key, rows[0].value).value, rows[1..]);
    }
  }

  /** Every row a batch of upserts leaves was stored before or is one of the batch. */
  lemma {:induction false} UpsertAllFrom<K(!new), V>(t: seq<Row<K, V>>, rows: seq<Row<K, V>>, x: Row<K, V>)
    requires UpsertAll(t, rows).Ok? && x in UpsertAll(t, rows).value
    ensures x in t || x in rows
    decreases |rows|
  {
    if |rows| > 0 {
      var t1 := Upsert(t, rows[0].key, rows[0].value).value;
      UpsertAllFrom(t1, rows[1..], x);
      assert x in rows[1..] ==> x in rows;
    }
  }

  /** A row of a consistent batch ends up stored, alone under its key. */
  lemma UpsertAllStoredRow<K(!new), V>(t: seq<Row<K, V>>, rows: seq<Row<K, V>>, x: Row<K, V>)
    requires UpsertAll(t, rows).Ok? && Consistent(rows) && x in rows
    ensures CountKey(UpsertAll(t, rows).value, x.key) == 1
    ensures Lookup(UpsertAll(t, rows).value, x.key) == Some(x.value)
  {
    var i :| 0 <= i < |rows| && rows[i] == x;
    UpsertAllStored(t, rows, i);
  }
}
