/** An in-memory stand-in for one MySQL table with an AUTO_INCREMENT primary key.
    A table is the sequence of its rows in primary-key order; every operation the
    routes perform on it (look up, UPDATE ... WHERE id, DELETE ... WHERE id, INSERT)
    is a function here, and the facts the routes rely on are lemmas. */
module Table {
  import opened Wrappers

  /** One row: its primary key and the rest of its columns. */
  datatype Row<T> = Row(id: nat, data: T)

  /** Keys strictly increase along the table, so in particular they are distinct. */
  predicate Ordered<T>(rows: seq<Row<T>>)
  {
    forall i, j :: 0 <= i < j < |rows| ==> rows[i].id < rows[j].id
  }

  /** Every key was handed out by an auto-increment counter that starts at 1 and now stands at `next`. */
  predicate KeysBelow<T>(rows: seq<Row<T>>, next: nat)
  {
    forall i :: 0 <= i < |rows| ==> 1 <= rows[i].id < next
  }

  /** The table invariant: keys ordered and all issued by the counter. */
  predicate WellKeyed<T>(rows: seq<Row<T>>, next: nat)
  {
    Ordered(rows) && KeysBelow(rows, next)
  }

  predicate HasKey<T>(rows: seq<Row<T>>, id: nat)
  {
    exists i :: 0 <= i < |rows| && rows[i].id == id
  }

  /** `a` is `b` with some rows left out and the rest in their original order. */
  predicate SubsequenceOf<T(==)>(a: seq<T>, b: seq<T>)
    decreases |b|
  {
    if a == [] then true
    else if b == [] then false
    else if a[0] == b[0] then SubsequenceOf(a[1..], b[1..])
    else SubsequenceOf(a, b[1..])
  }

  /** SELECT ... WHERE id = %s, fetchone(). */
  function Find<T(==)>(rows: seq<Row<T>>, id: nat): (r: Option<Row<T>>)
    ensures r.Some? <==> HasKey(rows, id)
    ensures r.Some? ==> r.value in rows && r.value.id == id
  {
    if rows == [] then None
    else if rows[0].id == id then Some(rows[0])
    else
      var r := Find(rows[1..], id);
      assert HasKey(rows, id) ==> rows[0].id == id || HasKey(rows[1..], id) by {
        if HasKey(rows, id) {
          var i :| 0 <= i < |rows| && rows[i].id == id;
          if i > 0 { assert rows[1..][i - 1].id == id; }
        }
      }
      assert HasKey(rows[1..], id) ==> HasKey(rows, id) by {
        if HasKey(rows[1..], id) {
          var i :| 0 <= i < |rows[1..]| && rows[1..][i].id == id;
          assert rows[i + 1].id == id;
        }
      }
      r
  }

  /** In a table with distinct keys, the row found for a key is the one row holding it. */
  lemma FindUnique<T>(rows: seq<Row<T>>, i: nat)
    requires Ordered(rows) && i < |rows|
    ensures Find(rows, rows[i].id) == Some(rows[i])
  {
    if i > 0 {
      assert rows[0].id < rows[i].id;
      assert Ordered(rows[1..]) by {
        forall a, b | 0 <= a < b < |rows[1..]| ensures rows[1..][a].id < rows[1..][b].id {
          assert rows[1..][a] == rows[a + 1] && rows[1..][b] == rows[b + 1];
        }
      }
      FindUnique(rows[1..], i - 1);
    }
  }

  /** UPDATE ... SET <columns> WHERE id = %s: the row with that key gets `data`, every other row stays. */
  function Replace<T(==)>(rows: seq<Row<T>>, id: nat, data: T): (r: seq<Row<T>>)
    ensures |r| == |rows|
    ensures forall i :: 0 <= i < |rows| ==> r[i] == if rows[i].id == id then Row(id, data) else rows[i]
  {
    if rows == [] then []
    else [if rows[0].id == id then Row(id, data) else rows[0]] + Replace(rows[1..], id, data)
  }

  /** After an UPDATE of a present key, reading that key back gives the new columns, under the same key. */
  lemma ReplaceThenFind<T>(rows: seq<Row<T>>, id: nat, data: T)
    requires Ordered(rows) && HasKey(rows, id)
    ensures Find(Replace(rows, id, data), id) == Some(Row(id, data))
  {
    var r := Replace(rows, id, data);
    var i :| 0 <= i < |rows| && rows[i].id == id;
    assert forall k :: 0 <= k < |r| ==> r[k].id == rows[k].id;
    FindUnique(r, i);
  }

  /** The rows of `xs` that satisfy `p`, in their order: a WHERE clause, or a Python list
      comprehension with an `if`. */
  function Keep<T(==)>(xs: seq<T>, p: T -> bool): (r: seq<T>)
    ensures forall i :: 0 <= i < |r| ==> r[i] in xs && p(r[i])
    ensures forall i :: 0 <= i < |xs| && p(xs[i]) ==> xs[i] in r
    ensures SubsequenceOf(r, xs)
  {
    if xs == [] then []
    else
      var rest := Keep(xs[1..], p);
      if p(xs[0]) then
        assert ([xs[0]] + rest)[1..] == rest;
        [xs[0]] + rest
      else
        SubsequenceSkip(rest, xs);
        rest
  }

  /** How many elements of `xs` satisfy `p`: SQL's COUNT over the rows a join matched. */
  function CountWhere<T>(xs: seq<T>, p: T -> bool): nat
  {
    if xs == [] then 0 else (if p(xs[0]) then 1 else 0) + CountWhere(xs[1..], p)
  }

  /** COUNT of the matching rows is the number of rows the same WHERE clause returns. */
  lemma {:induction false} CountIsKeepSize<T>(xs: seq<T>, p: T -> bool)
    ensures CountWhere(xs, p) == |Keep(xs, p)|
  {
    if xs != [] { CountIsKeepSize(xs[1..], p); }
  }

  /** A filter that every element passes returns its input unchanged. */
  lemma {:induction false} KeepAll<T>(xs: seq<T>, p: T -> bool)
    requires forall i :: 0 <= i < |xs| ==> p(xs[i])
    ensures Keep(xs, p) == xs
  {
    if xs != [] {
      KeepAll(xs[1..], p);
      assert xs == [xs[0]] + xs[1..];
    }
  }

  /** Filtering twice with the same condition is filtering once. */
  lemma KeepTwice<T>(xs: seq<T>, p: T -> bool)
    ensures Keep(Keep(xs, p), p) == Keep(xs, p)
  {
    var r := Keep(xs, p);
    KeepAll(r, p);
  }

  /** DELETE ... WHERE id = %s: exactly the rows without that key remain, in their order. */
  function Remove<T(==)>(rows: seq<Row<T>>, id: nat): (r: seq<Row<T>>)
    ensures forall i :: 0 <= i < |r| ==> r[i] in rows && r[i].id != id
    ensures forall i :: 0 <= i < |rows| && rows[i].id != id ==> rows[i] in r
    ensures SubsequenceOf(r, rows)
    ensures !HasKey(rows, id) ==> r == rows
  {
    var keep := (x: Row<T>) => x.id != id;
    if !HasKey(rows, id) then KeepAll(rows, keep); Keep(rows, keep)
    else Keep(rows, keep)
  }

  lemma {:induction false} SubsequenceOfSelf<T>(a: seq<T>)
    ensures SubsequenceOf(a, a)
  {
    if a != [] { SubsequenceOfSelf(a[1..]); }
  }

  /** Dropping the head of the longer sequence keeps a subsequence a subsequence. */
  lemma {:induction false} SubsequenceSkip<T>(a: seq<T>, b: seq<T>)
    requires b != [] && SubsequenceOf(a, b[1..])
    ensures SubsequenceOf(a, b)
    decreases |b|, |a|
  {
    if a != [] && a[0] == b[0] {
      // SubsequenceOf(a, b) reduces to SubsequenceOf(a[1..], b[1..])
      SubsequenceTail(a, b[1..]);
    }
  }

  /** Dropping the head of a non-empty subsequence keeps it a subsequence. */
  lemma {:induction false} SubsequenceTail<T>(a: seq<T>, b: seq<T>)
    requires a != [] && SubsequenceOf(a, b)
    ensures SubsequenceOf(a[1..], b)
    decreases |b|, |a|
  {
    if a[0] == b[0] {
      SubsequenceSkip(a[1..], b);
    } else {
      SubsequenceTail(a, b[1..]);
      SubsequenceSkip(a[1..], b);
    }
  }

  /** Every element of a subsequence comes from the sequence it was taken from. */
  lemma {:induction false} SubsequenceMembers<T>(a: seq<T>, b: seq<T>, x: T)
    requires SubsequenceOf(a, b) && x in a
    ensures x in b
    decreases |b|
  {
    if a[0] == b[0] {
      if x != a[0] { SubsequenceMembers(a[1..], b[1..], x); }
    } else {
      SubsequenceMembers(a, b[1..], x);
    }
  }

  /** Leaving rows out of an ordered table leaves it ordered. */
  lemma {:induction false} SubsequenceOrdered<T>(a: seq<Row<T>>, b: seq<Row<T>>)
    requires SubsequenceOf(a, b) && Ordered(b)
    ensures Ordered(a)
    decreases |b|
  {
    if a != [] {
      assert Ordered(b[1..]) by {
        forall i, j | 0 <= i < j < |b[1..]| ensures b[1..][i].id < b[1..][j].id {
          assert b[1..][i] == b[i + 1] && b[1..][j] == b[j + 1];
        }
      }
      if a[0] == b[0] {
        SubsequenceOrdered(a[1..], b[1..]);
        forall j | 0 < j < |a| ensures a[0].id < a[j].id {
          assert a[1..][j - 1] == a[j];
          SubsequenceMembers(a[1..], b[1..], a[j]);
          var k :| 0 <= k < |b[1..]| && b[1..][k] == a[j];
          assert b[k + 1] == a[j];
        }
        forall i, j | 0 <= i < j < |a| ensures a[i].id < a[j].id {
          if i > 0 { assert a[1..][i - 1] == a[i] && a[1..][j - 1] == a[j]; }
        }
      } else {
        SubsequenceOrdered(a, b[1..]);
      }
    }
  }

  /** In a table with distinct keys, a DELETE of a present key removes exactly one row. */
  lemma RemoveOne<T>(rows: seq<Row<T>>, id: nat)
    requires Ordered(rows) && HasKey(rows, id)
    ensures |Remove(rows, id)| == |rows| - 1
  {
    var keep := (x: Row<T>) => x.id != id;
    CountIsKeepSize(rows, keep);
    var i :| 0 <= i < |rows| && rows[i].id == id;
    CountAllButOne(rows, keep, i);
  }

  /** If exactly the element at `i` fails `p`, COUNT is one less than the length. */
  lemma {:induction false} CountAllButOne<T>(xs: seq<T>, p: T -> bool, i: nat)
    requires i < |xs| && !p(xs[i])
    requires forall j :: 0 <= j < |xs| && j != i ==> p(xs[j])
    ensures CountWhere(xs, p) == |xs| - 1
  {
    if i == 0 {
      CountAll(xs[1..], p);
    } else {
      CountAllButOne(xs[1..], p, i - 1);
    }
  }

  lemma {:induction false} CountAll<T>(xs: seq<T>, p: T -> bool)
    requires forall j :: 0 <= j < |xs| ==> p(xs[j])
    ensures CountWhere(xs, p) == |xs|
  {
    if xs != [] { CountAll(xs[1..], p); }
  }

  /** DELETE keeps the table invariant. */
  lemma RemoveWellKeyed<T>(rows: seq<Row<T>>, id: nat, next: nat)
    requires WellKeyed(rows, next)
    ensures WellKeyed(Remove(rows, id), next)
  {
    var r := Remove(rows, id);
    SubsequenceOrdered(r, rows);
    forall i | 0 <= i < |r| ensures 1 <= r[i].id < next {
      assert r[i] in rows;
    }
  }

  /** UPDATE keeps every key where it was, so it keeps the table invariant. */
  lemma ReplaceWellKeyed<T>(rows: seq<Row<T>>, id: nat, data: T, next: nat)
    requires WellKeyed(rows, next)
    ensures WellKeyed(Replace(rows, id, data), next)
  {
    var r := Replace(rows, id, data);
    assert forall i :: 0 <= i < |r| ==> r[i].id == rows[i].id;
  }

  /** INSERT with the counter's key appends a row after all others and keeps the invariant once the counter moves on. */
  lemma AppendWellKeyed<T>(rows: seq<Row<T>>, next: nat, data: T)
    requires 1 <= next && WellKeyed(rows, next)
    ensures WellKeyed(rows + [Row(next, data)], next + 1)
  {
    var r := rows + [Row(next, data)];
    assert forall i :: 0 <= i < |rows| ==> r[i] == rows[i];
  }
}
