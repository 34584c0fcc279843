/**
 * A database table as a sequence of rows with a key accessor: the key set,
 * key uniqueness (the primary key), and the row-level effect of an INSERT,
 * an UPDATE by key and a DELETE by key.
 */
module Tables {
  import opened Common
  import opened Queries

  function Keys<R(==)>(rows: seq<R>, key: R -> Guid): (ks: set<Guid>)
    ensures forall r :: r in rows ==> key(r) in ks
    ensures forall k :: k in ks ==> exists r :: r in rows && key(r) == k
  {
    set r | r in rows :: key(r)
  }

  /** The primary-key constraint: no two rows share a key. */
  predicate UniqueKeys<R(==)>(rows: seq<R>, key: R -> Guid)
  {
    forall i, j :: 0 <= i < j < |rows| ==> key(rows[i]) != key(rows[j])
  }

  /** The row with key `k`, if there is one (`FirstOrDefault(r => r.Id == k)`). */
  function Find<R(==)>(rows: seq<R>, key: R -> Guid, k: Guid): (r: Option<R>)
    ensures r.None? <==> k !in Keys(rows, key)
    ensures r.Some? ==> r.value in rows && key(r.value) == k
  {
    if |rows| == 0 then None
    else if key(rows[0]) == k then Some(rows[0])
    else
      assert rows == [rows[0]] + rows[1..];
      Find(rows[1..], key, k)
  }

  /** Under unique keys, the row found for a key is the only row with that key. */
  lemma FindIsUnique<R>(rows: seq<R>, key: R -> Guid, r: R)
    requires UniqueKeys(rows, key) && r in rows
    ensures Find(rows, key, key(r)) == Some(r)
  {
    var f := Find(rows, key, key(r)).value;
    var i :| 0 <= i < |rows| && rows[i] == r;
    var j :| 0 <= j < |rows| && rows[j] == f;
    if i < j {
      assert key(rows[i]) != key(rows[j]);
    } else if j < i {
      assert key(rows[j]) != key(rows[i]);
    }
  }

  /** UPDATE ... WHERE key = key(row): the row with that key is overwritten, the rest stay. */
  function Replace<R>(rows: seq<R>, key: R -> Guid, row: R): (r: seq<R>)
    ensures |r| == |rows|
    ensures forall i :: 0 <= i < |rows| ==> r[i] == if key(rows[i]) == key(row) then row else rows[i]
  {
    seq(|rows|, i requires 0 <= i < |rows| => if key(rows[i]) == key(row) then row else rows[i])
  }

  /** DELETE ... WHERE key = k: the other rows, in their order. */
  function Remove<R(!new)>(rows: seq<R>, key: R -> Guid, k: Guid): (r: seq<R>)
    ensures forall x :: x in r <==> x in rows && key(x) != k
    ensures |r| <= |rows|
  {
    if |rows| == 0 then []
    else
      var rest := Remove(rows[1..], key, k);
      assert rows == [rows[0]] + rows[1..];
      if key(rows[0]) != k then [rows[0]] + rest else rest
  }

  /** Inserting a row with a fresh key keeps keys unique and adds exactly that key. */
  lemma InsertFresh<R>(rows: seq<R>, key: R -> Guid, row: R)
    requires UniqueKeys(rows, key) && key(row) !in Keys(rows, key)
    ensures UniqueKeys(rows + [row], key)
    ensures Keys(rows + [row], key) == Keys(rows, key) + {key(row)}
  {
    var s := rows + [row];
    forall i, j | 0 <= i < j < |s| ensures key(s[i]) != key(s[j]) {
      if j == |rows| {
        assert s[i] in rows;
      } else {
        assert s[i] == rows[i] && s[j] == rows[j];
      }
    }
  }

  /** Overwriting the row of an existing key keeps keys unique and the key set unchanged. */
  lemma ReplaceExisting<R>(rows: seq<R>, key: R -> Guid, row: R)
    requires UniqueKeys(rows, key) && key(row) in Keys(rows, key)
    ensures UniqueKeys(Replace(rows, key, row), key)
    ensures Keys(Replace(rows, key, row), key) == Keys(rows, key)
    ensures row in Replace(rows, key, row)
    ensures forall x :: x in Replace(rows, key, row) <==> x == row || (x in rows && key(x) != key(row))
  {
    var s := Replace(rows, key, row);
    forall i, j | 0 <= i < j < |s| ensures key(s[i]) != key(s[j]) {
      assert key(s[i]) == key(rows[i]) && key(s[j]) == key(rows[j]);
    }
    var i :| 0 <= i < |rows| && key(rows[i]) == key(row);
    assert s[i] == row;
    forall k | k in Keys(rows, key) ensures k in Keys(s, key) {
      var x :| x in rows && key(x) == k;
      var j :| 0 <= j < |rows| && rows[j] == x;
      assert key(s[j]) == k;
    }
    forall x | x in rows && key(x) != key(row) ensures x in s {
      var j :| 0 <= j < |rows| && rows[j] == x;
      assert s[j] == x;
    }
    forall x | x in s ensures x == row || (x in rows && key(x) != key(row)) {
      var j :| 0 <= j < |s| && s[j] == x;
      assert x == if key(rows[j]) == key(row) then row else rows[j];
    }
  }

  /** Deleting a key keeps keys unique and removes exactly that key, one row with it. */
  lemma RemoveExisting<R(!new)>(rows: seq<R>, key: R -> Guid, k: Guid)
    requires UniqueKeys(rows, key)
    ensures UniqueKeys(Remove(rows, key, k), key)
    ensures Keys(Remove(rows, key, k), key) == Keys(rows, key) - {k}
    ensures k in Keys(rows, key) ==> |Remove(rows, key, k)| == |rows| - 1
    ensures k !in Keys(rows, key) ==> Remove(rows, key, k) == rows
  {
    RemoveKeepsUnique(rows, key, k);
    RemoveCount(rows, key, k);
    var r := Remove(rows, key, k);
    forall kk | kk in Keys(rows, key) - {k} ensures kk in Keys(r, key) {
      var x :| x in rows && key(x) == kk;
      assert x in r;
    }
  }

  lemma {:induction false} RemoveKeepsUnique<R(!new)>(rows: seq<R>, key: R -> Guid, k: Guid)
    requires UniqueKeys(rows, key)
    ensures UniqueKeys(Remove(rows, key, k), key)
    decreases |rows|
  {
    if |rows| > 0 {
      var tail := rows[1..];
      assert rows == [rows[0]] + tail;
      UniqueTail(rows, key);
      RemoveKeepsUnique(tail, key, k);
      if key(rows[0]) != k {
        var rest := Remove(tail, key, k);
        HeadKeyNotInTail(rows, key);
        assert key(rows[0]) !in Keys(rest, key);
        InsertFreshFront(rows[0], rest, key);
      }
    }
  }

  lemma {:induction false} RemoveCount<R(!new)>(rows: seq<R>, key: R -> Guid, k: Guid)
    requires UniqueKeys(rows, key)
    ensures k in Keys(rows, key) ==> |Remove(rows, key, k)| == |rows| - 1
    ensures k !in Keys(rows, key) ==> Remove(rows, key, k) == rows
    decreases |rows|
  {
    if |rows| > 0 {
      var tail := rows[1..];
      assert rows == [rows[0]] + tail;
      UniqueTail(rows, key);
      RemoveCount(tail, key, k);
      if key(rows[0]) == k {
        HeadKeyNotInTail(rows, key);
      } else {
        assert k in Keys(rows, key) ==> k in Keys(tail, key);
      }
    }
  }

  /** Under unique keys, the first row's key occurs nowhere after it. */
  lemma HeadKeyNotInTail<R>(rows: seq<R>, key: R -> Guid)
    requires UniqueKeys(rows, key) && |rows| > 0
    ensures forall x :: x in rows[1..] ==> key(x) != key(rows[0])
    ensures key(rows[0]) !in Keys(rows[1..], key)
  {
    forall x | x in rows[1..] ensures key(x) != key(rows[0]) {
      var j :| 0 <= j < |rows[1..]| && rows[1..][j] == x;
      assert rows[j + 1] == x;
    }
  }

  lemma UniqueTail<R>(rows: seq<R>, key: R -> Guid)
    requires UniqueKeys(rows, key) && |rows| > 0
    ensures UniqueKeys(rows[1..], key)
  {
    var tail := rows[1..];
    forall i, j | 0 <= i < j < |tail| ensures key(tail[i]) != key(tail[j]) {
      assert tail[i] == rows[i + 1] && tail[j] == rows[j + 1];
    }
  }

  /** Putting a row with a key not yet present in front keeps keys unique. */
  lemma InsertFreshFront<R>(row: R, rows: seq<R>, key: R -> Guid)
    requires UniqueKeys(rows, key) && key(row) !in Keys(rows, key)
    ensures UniqueKeys([row] + rows, key)
    ensures Keys([row] + rows, key) == Keys(rows, key) + {key(row)}
  {
    var s := [row] + rows;
    forall i, j | 0 <= i < j < |s| ensures key(s[i]) != key(s[j]) {
      assert s[j] == rows[j - 1];
      if i > 0 {
        assert s[i] == rows[i - 1];
      }
    }
  }
}
