/**
 * SQLite tables with a UNIQUE key, seen as maps from key to row, and the
 * two batch statements the scripts run on them: `executemany('DELETE ...
 * WHERE id = ?')` and `executemany('INSERT OR REPLACE ...')`. The batch
 * applies its rows in list order, so a later row with the same key
 * replaces an earlier one. Every key in these scripts is a text id.
 */
module Tables {
  import opened Optional

  /** The row stored under `k`, or `None`. */
  function Lookup<V>(m: map<string, V>, k: string): Option<V>
  {
    if k in m then Some(m[k]) else None
  }

  /** `DELETE FROM t WHERE id = ?` for every key of the batch. */
  function Delete<V>(m: map<string, V>, keys: seq<string>): (r: map<string, V>)
    ensures forall k :: Lookup(r, k) == if k in keys then None else Lookup(m, k)
  {
    m - (set k | k in keys)
  }

  /** `INSERT OR REPLACE INTO t VALUES (?, ...)` for every row of the batch, in order. */
  function Upsert<V>(m: map<string, V>, rows: seq<(string, V)>): map<string, V>
    decreases |rows|
  {
    if rows == [] then m
    else
      var last := rows[|rows| - 1];
      Upsert(m, rows[..|rows| - 1])[last.0 := last.1]
  }

  /** The value of the last row of the batch whose key is `k`, if any. */
  function LastValue<V>(rows: seq<(string, V)>, k: string): Option<V>
    decreases |rows|
  {
    if rows == [] then None
    else if rows[|rows| - 1].0 == k then Some(rows[|rows| - 1].1)
    else LastValue(rows[..|rows| - 1], k)
  }

  /** One more row: it is the last value of its own key and changes no other. */
  lemma LastValueSnoc<V>(rows: seq<(string, V)>, more: seq<(string, V)>, k: string)
    requires |more| <= 1
    ensures LastValue(rows + more, k) ==
      if more != [] && more[0].0 == k then Some(more[0].1) else LastValue(rows, k)
  {
    if more == [] {
      assert rows + more == rows;
    } else {
      assert (rows + more)[..|rows + more| - 1] == rows;
    }
  }

  /** `LastValue` is the value of a row with key `k` that no later row shares the key with. */
  lemma {:induction false} LastValueIsLast<V>(rows: seq<(string, V)>, k: string)
    ensures LastValue(rows, k).None? <==> forall i :: 0 <= i < |rows| ==> rows[i].0 != k
    ensures LastValue(rows, k).Some? ==>
      exists i :: 0 <= i < |rows| && rows[i] == (k, LastValue(rows, k).value) &&
        forall j :: i < j < |rows| ==> rows[j].0 != k
    decreases |rows|
  {
    if rows != [] {
      var init := rows[..|rows| - 1];
      LastValueIsLast(init, k);
      if rows[|rows| - 1].0 != k {
        assert forall i :: 0 <= i < |init| ==> init[i] == rows[i];
        if LastValue(init, k).Some? {
          var i :| 0 <= i < |init| && init[i] == (k, LastValue(init, k).value) &&
            forall j :: i < j < |init| ==> init[j].0 != k;
          assert rows[i] == (k, LastValue(rows, k).value);
        }
      }
    }
  }

  /** After an upsert batch, a key holds the last batch row for it, or else what it held before. */
  lemma {:induction false} UpsertLookup<V>(m: map<string, V>, rows: seq<(string, V)>, k: string)
    ensures Lookup(Upsert(m, rows), k) ==
      if LastValue(rows, k).Some? then LastValue(rows, k) else Lookup(m, k)
    decreases |rows|
  {
    if rows != [] {
      UpsertLookup(m, rows[..|rows| - 1], k);
    }
  }

  /** An upsert batch never removes a key. */
  lemma UpsertKeeps<V>(m: map<string, V>, rows: seq<(string, V)>)
    ensures m.Keys <= Upsert(m, rows).Keys
  {
    forall k | k in m
      ensures k in Upsert(m, rows)
    {
      UpsertLookup(m, rows, k);
    }
  }

  /** The keys after an upsert batch: the old keys and the keys of the batch. */
  lemma UpsertKeys<V>(m: map<string, V>, rows: seq<(string, V)>)
    ensures Upsert(m, rows).Keys == m.Keys + set p | p in rows :: p.0
  {
    forall k
      ensures k in Upsert(m, rows) <==> k in m || exists i :: 0 <= i < |rows| && rows[i].0 == k
    {
      UpsertLookup(m, rows, k);
      LastValueIsLast(rows, k);
    }
  }
}
