/** A table with a primary key, and the meaning of INSERT ... ON CONFLICT (key) DO NOTHING. */
module KeyedTable {

  predicate HasKey<R(==), K(==)>(key: R -> K, rows: seq<R>, k: K) {
    exists r | r in rows :: key(r) == k
  }

  /** The primary key constraint. */
  ghost predicate UniqueKeys<R, K>(key: R -> K, rows: seq<R>) {
    forall i, j | 0 <= i < j < |rows| :: key(rows[i]) != key(rows[j])
  }

  /** The key determines the row, throughout a collection of rows. */
  ghost predicate Keyed<R, K>(key: R -> K, rows: seq<R>) {
    forall r, s | r in rows && s in rows && key(r) == key(s) :: r == s
  }

  function Insert<R(==), K(==)>(key: R -> K, rows: seq<R>, r: R): seq<R> {
    if HasKey(key, rows, key(r)) then rows else rows + [r]
  }

  /** One INSERT per row of `added`, in order. */
  function InsertAll<R(==), K(==)>(key: R -> K, rows: seq<R>, added: seq<R>): seq<R> {
    if added == [] then rows
    else Insert(key, InsertAll(key, rows, added[..|added| - 1]), added[|added| - 1])
  }

  /** Inserting never rewrites, reorders or removes a stored row. */
  lemma {:induction false} InsertAllKeepsStoredRows<R, K>(key: R -> K, rows: seq<R>, added: seq<R>)
    ensures rows <= InsertAll(key, rows, added)
  {
    if added != [] {
      InsertAllKeepsStoredRows(key, rows, added[..|added| - 1]);
    }
  }

  /** And what it adds comes from the rows inserted. */
  lemma {:induction false} NewRowsComeFromTheBatch<R, K>(key: R -> K, rows: seq<R>, added: seq<R>)
    ensures rows <= InsertAll(key, rows, added)
    ensures forall i | |rows| <= i < |InsertAll(key, rows, added)| :: InsertAll(key, rows, added)[i] in added
  {
    if added != [] {
      NewRowsComeFromTheBatch(key, rows, added[..|added| - 1]);
    }
  }

  lemma {:induction false} InsertAllKeepsKeysUnique<R, K>(key: R -> K, rows: seq<R>, added: seq<R>)
    requires UniqueKeys(key, rows)
    ensures UniqueKeys(key, InsertAll(key, rows, added))
  {
    if added != [] {
      InsertAllKeepsKeysUnique(key, rows, added[..|added| - 1]);
    }
  }

  /** The stored keys are the old ones and the new ones, and every row came from somewhere. */
  lemma {:induction false} InsertAllKeys<R, K>(key: R -> K, rows: seq<R>, added: seq<R>)
    ensures forall k :: HasKey(key, InsertAll(key, rows, added), k)
                        <==> HasKey(key, rows, k) || HasKey(key, added, k)
    ensures forall r | r in InsertAll(key, rows, added) :: r in rows || r in added
  {
    if added != [] {
      var init, last := added[..|added| - 1], added[|added| - 1];
      InsertAllKeys(key, rows, init);
      assert added == init + [last];
      var before := InsertAll(key, rows, init);
      forall k
        ensures HasKey(key, Insert(key, before, last), k) <==> HasKey(key, rows, k) || HasKey(key, added, k)
      {
        assert HasKey(key, added, k) <==> HasKey(key, init, k) || key(last) == k;
        assert HasKey(key, before + [last], k) <==> HasKey(key, before, k) || key(last) == k;
      }
    }
  }

  /** Where the key determines the row, the table becomes exactly the union of old and new. */
  lemma InsertAllIsUnion<R(!new), K>(key: R -> K, rows: seq<R>, added: seq<R>)
    requires Keyed(key, rows + added)
    ensures forall r :: r in InsertAll(key, rows, added) <==> r in rows || r in added
  {
    InsertAllKeys(key, rows, added);
    var after := InsertAll(key, rows, added);
    forall r | r in rows || r in added
      ensures r in after
    {
      assert HasKey(key, rows, key(r)) || HasKey(key, added, key(r));
      assert HasKey(key, after, key(r));
    }
  }

  /** Rows whose keys are all stored change nothing. */
  lemma {:induction false} InsertKnownIsNoOp<R, K>(key: R -> K, rows: seq<R>, added: seq<R>)
    requires forall r | r in added :: HasKey(key, rows, key(r))
    ensures InsertAll(key, rows, added) == rows
  {
    if added != [] {
      InsertKnownIsNoOp(key, rows, added[..|added| - 1]);
    }
  }

  /** Replaying an insert is a no-op, for any rows at all. */
  lemma InsertAllIsIdempotent<R, K>(key: R -> K, rows: seq<R>, added: seq<R>)
    ensures var once := InsertAll(key, rows, added); InsertAll(key, once, added) == once
  {
    InsertAllKeys(key, rows, added);
    var once := InsertAll(key, rows, added);
    forall r | r in added
      ensures HasKey(key, once, key(r))
    {
      assert HasKey(key, added, key(r));
    }
    InsertKnownIsNoOp(key, once, added);
  }

  /** An empty table takes a batch whole exactly when the batch has no key twice. */
  lemma InsertIntoEmpty<R, K>(key: R -> K, added: seq<R>)
    ensures InsertAll(key, [], added) == added <==> UniqueKeys(key, added)
  {
    if UniqueKeys(key, added) {
      InsertUnique(key, added);
    } else {
      InsertAllKeepsKeysUnique(key, [], added);
    }
  }

  lemma {:induction false} InsertUnique<R, K>(key: R -> K, added: seq<R>)
    requires UniqueKeys(key, added)
    ensures InsertAll(key, [], added) == added
  {
    if added != [] {
      var init := added[..|added| - 1];
      InsertUnique(key, init);
      assert added == init + [added[|added| - 1]];
    }
  }
}
