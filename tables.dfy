/**
 * Keyed tables as Dexie keeps them: a map from primary key to record. `bulkPut` writes a
 * sequence of records in order, each under its own key, a later record replacing an
 * earlier one with the same key.
 */
module Tables {

  /** `bulkPut(rows)` on a table whose primary key of a record is `key`. */
  function PutAll<T>(table: map<string, T>, rows: seq<T>, key: T -> string): map<string, T>
    decreases |rows|
  {
    if rows == [] then table
    else
      var last := rows[|rows| - 1];
      PutAll(table, rows[..|rows| - 1], key)[key(last) := last]
  }

  ghost predicate HasKey<T>(rows: seq<T>, key: T -> string, id: string) {
    exists k :: 0 <= k < |rows| && key(rows[k]) == id
  }

  /** The last record with key `id`. */
  function LastWithKey<T>(rows: seq<T>, key: T -> string, id: string): (r: T)
    requires HasKey(rows, key, id)
    ensures r in rows && key(r) == id
    decreases |rows|
  {
    var last := rows[|rows| - 1];
    if key(last) == id then last
    else
      assert HasKey(rows[..|rows| - 1], key, id) by {
        var k :| 0 <= k < |rows| && key(rows[k]) == id;
        assert rows[..|rows| - 1][k] == rows[k];
      }
      LastWithKey(rows[..|rows| - 1], key, id)
  }

  /**
   * After `bulkPut`, a key is present exactly when it was present before or one of the records
   * has it; it then holds the last record with that key, and otherwise what it held before.
   */
  lemma {:induction false} PutAllLookup<T>(table: map<string, T>, rows: seq<T>, key: T -> string, id: string)
    ensures id in PutAll(table, rows, key) <==> id in table || HasKey(rows, key, id)
    ensures HasKey(rows, key, id) ==> PutAll(table, rows, key)[id] == LastWithKey(rows, key, id)
    ensures !HasKey(rows, key, id) && id in table ==> PutAll(table, rows, key)[id] == table[id]
    decreases |rows|
  {
    if rows != [] {
      var init := rows[..|rows| - 1];
      PutAllLookup(table, init, key, id);
      assert forall k :: 0 <= k < |init| ==> init[k] == rows[k];
      assert HasKey(rows, key, id) <==> HasKey(init, key, id) || key(rows[|rows| - 1]) == id;
    }
  }

  lemma {:induction false} PutAllAppend<T>(table: map<string, T>, a: seq<T>, b: seq<T>, key: T -> string)
    ensures PutAll(table, a + b, key) == PutAll(PutAll(table, a, key), b, key)
    decreases |b|
  {
    if b == [] {
      assert a + b == a;
    } else {
      assert (a + b)[..|a + b| - 1] == a + b[..|b| - 1];
      PutAllAppend(table, a, b[..|b| - 1], key);
    }
  }

  /** Every record is filed under its own key. */
  ghost predicate KeyedBy<T>(table: map<string, T>, key: T -> string) {
    forall id :: id in table ==> key(table[id]) == id
  }

  lemma {:induction false} PutAllKeyedBy<T>(table: map<string, T>, rows: seq<T>, key: T -> string)
    requires KeyedBy(table, key)
    ensures KeyedBy(PutAll(table, rows, key), key)
    decreases |rows|
  {
    if rows != [] {
      PutAllKeyedBy(table, rows[..|rows| - 1], key);
    }
  }

  /** `f` applied to each element, in order. */
  function Map<A, B>(f: A -> B, s: seq<A>): (r: seq<B>)
    ensures |r| == |s|
    decreases |s|
  {
    if s == [] then [] else Map(f, s[..|s| - 1]) + [f(s[|s| - 1])]
  }

  lemma {:induction false} MapAppend<A, B>(f: A -> B, a: seq<A>, b: seq<A>)
    ensures Map(f, a + b) == Map(f, a) + Map(f, b)
    decreases |b|
  {
    if b == [] {
      assert a + b == a;
    } else {
      assert (a + b)[..|a + b| - 1] == a + b[..|b| - 1];
      MapAppend(f, a, b[..|b| - 1]);
    }
  }

  /** Element `k` of a mapped sequence is the image of an element of the original. */
  lemma {:induction false} MapMember<A, B>(f: A -> B, s: seq<A>, k: nat) returns (x: A)
    requires k < |Map(f, s)|
    ensures x in s && Map(f, s)[k] == f(x)
    decreases |s|
  {
    if k == |s| - 1 {
      x := s[k];
    } else {
      x := MapMember(f, s[..|s| - 1], k);
    }
  }

  /** The elements satisfying `p`, in order (`Array.prototype.filter`). */
  function Filter<T>(p: T -> bool, s: seq<T>): (r: seq<T>)
    ensures |r| <= |s|
    ensures forall k :: 0 <= k < |r| ==> r[k] in s && p(r[k])
    ensures forall k :: 0 <= k < |s| && p(s[k]) ==> s[k] in r
    decreases |s|
  {
    if s == [] then []
    else
      var init := Filter(p, s[..|s| - 1]);
      assert s == s[..|s| - 1] + [s[|s| - 1]];
      if p(s[|s| - 1]) then init + [s[|s| - 1]] else init
  }
}
