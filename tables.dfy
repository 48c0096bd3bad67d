/** Queries over an in-memory table, standing in for the document store's
    `find(...)`, `.count()`, `find(...).delete()` and `.sort("-created_at")`.
    A table is a sequence in store order; the position of a record is its id
    for the tables the router never deletes from. */
module Tables {

  /** A record together with its position in the table. */
  datatype Entry<R> = Entry(id: nat, rec: R)

  /** `find(filter)`: every record that passes, with its position, in store order. */
  function Select<R>(t: seq<R>, keep: R -> bool): (r: seq<Entry<R>>)
    ensures forall k :: 0 <= k < |r| ==> r[k].id < |t| && r[k].rec == t[r[k].id] && keep(r[k].rec)
    ensures forall a, b :: 0 <= a < b < |r| ==> r[a].id < r[b].id
    ensures forall i :: 0 <= i < |t| && keep(t[i]) ==> Entry(i, t[i]) in r
    decreases |t|
  {
    if |t| == 0 then []
    else
      var prev := Select(t[..|t| - 1], keep);
      if keep(t[|t| - 1]) then prev + [Entry(|t| - 1, t[|t| - 1])] else prev
  }

  /** `find(filter).count()`: how many records pass. */
  function Count<R>(t: seq<R>, keep: R -> bool): (n: nat)
    ensures n == |Select(t, keep)|
    ensures n <= |t|
    decreases |t|
  {
    if |t| == 0 then 0
    else Count(t[..|t| - 1], keep) + (if keep(t[|t| - 1]) then 1 else 0)
  }

  /** The complement of a filter. */
  function Not<R>(p: R -> bool): R -> bool
  {
    x => !p(x)
  }

  /** Every record passes exactly one of a filter and its complement. */
  lemma {:induction false} CountSplit<R>(t: seq<R>, p: R -> bool)
    ensures Count(t, p) + Count(t, Not(p)) == |t|
    decreases |t|
  {
    if |t| > 0 {
      CountSplit(t[..|t| - 1], p);
    }
  }

  /** `find(filter).delete()`: the records that survive, in store order.
      The k-th survivor is the record at the k-th position that does not
      pass, and those positions increase (see Select). */
  function Without<R>(t: seq<R>, drop: R -> bool): (r: seq<R>)
    ensures |r| == |Select(t, Not(drop))|
    ensures forall k :: 0 <= k < |r| ==> r[k] == t[Select(t, Not(drop))[k].id]
    ensures forall k :: 0 <= k < |r| ==> r[k] in t && !drop(r[k])
    ensures forall i :: 0 <= i < |t| && !drop(t[i]) ==> t[i] in r
    ensures |r| + Count(t, drop) == |t|
  {
    var kept := Select(t, Not(drop));
    var r := seq(|kept|, k requires 0 <= k < |kept| => kept[k].rec);
    CountSplit(t, drop);
    assert forall i :: 0 <= i < |t| && !drop(t[i]) ==> t[i] in r by {
      forall i | 0 <= i < |t| && !drop(t[i])
        ensures t[i] in r
      {
        assert Not(drop)(t[i]);
        var k :| 0 <= k < |kept| && kept[k] == Entry(i, t[i]);
        assert r[k] == t[i];
      }
    }
    r
  }

  /** Overwriting one record changes the count by what that record
      contributed before and after. */
  lemma {:induction false} CountUpdate<R>(t: seq<R>, keep: R -> bool, i: nat, x: R)
    requires i < |t|
    ensures Count(t[i := x], keep)
         == Count(t, keep) - (if keep(t[i]) then 1 else 0) + (if keep(x) then 1 else 0)
    decreases |t|
  {
    var u := t[i := x];
    if i < |t| - 1 {
      assert u[..|u| - 1] == t[..|t| - 1][i := x];
      CountUpdate(t[..|t| - 1], keep, i, x);
    } else {
      assert u[..|u| - 1] == t[..|t| - 1];
    }
  }

  /** Two tables whose records pass the filter at the same positions have
      the same count. */
  lemma {:induction false} CountAgrees<R>(t: seq<R>, u: seq<R>, keep: R -> bool)
    requires |t| == |u|
    requires forall i :: 0 <= i < |t| ==> keep(t[i]) == keep(u[i])
    ensures Count(t, keep) == Count(u, keep)
    decreases |t|
  {
    if |t| > 0 {
      CountAgrees(t[..|t| - 1], u[..|u| - 1], keep);
    }
  }

  /** No record passes: the count is zero. */
  lemma {:induction false} CountNone<R>(t: seq<R>, keep: R -> bool)
    requires forall i :: 0 <= i < |t| ==> !keep(t[i])
    ensures Count(t, keep) == 0
    decreases |t|
  {
    if |t| > 0 {
      CountNone(t[..|t| - 1], keep);
    }
  }

  /** Newest first: no element is followed by one with a larger key. */
  predicate NonIncreasing<T>(s: seq<T>, key: T -> nat)
  {
    forall a, b :: 0 <= a < b < |s| ==> key(s[a]) >= key(s[b])
  }

  /** No element occurs twice. */
  predicate Distinct<T(==)>(s: seq<T>)
  {
    forall a, b :: 0 <= a < b < |s| ==> s[a] != s[b]
  }

  /** Places `x` before the first element whose key it is not above. */
  function Insert<T(==)>(x: T, s: seq<T>, key: T -> nat): (r: seq<T>)
    ensures |r| == |s| + 1
    ensures multiset(r) == multiset(s) + multiset{x}
  {
    if s == [] || key(x) >= key(s[0]) then [x] + s
    else
      assert s == [s[0]] + s[1..];
      [s[0]] + Insert(x, s[1..], key)
  }

  /** `.sort("-created_at")`: an insertion sort on a descending key. Which of
      several elements with equal keys comes first is left unspecified. */
  function NewestFirst<T(==)>(s: seq<T>, key: T -> nat): (r: seq<T>)
    ensures multiset(r) == multiset(s)
  {
    if s == [] then []
    else
      assert s == [s[0]] + s[1..];
      Insert(s[0], NewestFirst(s[1..], key), key)
  }

  /** Every element of an insertion result is the inserted one or an old one. */
  lemma InsertFrom<T>(x: T, s: seq<T>, key: T -> nat, k: nat)
    requires k < |Insert(x, s, key)|
    ensures Insert(x, s, key)[k] == x || Insert(x, s, key)[k] in s
  {
    var r := Insert(x, s, key);
    assert r[k] in multiset(r);
  }

  lemma {:induction false} InsertSorted<T>(x: T, s: seq<T>, key: T -> nat)
    requires NonIncreasing(s, key)
    ensures NonIncreasing(Insert(x, s, key), key)
  {
    if s != [] && key(x) < key(s[0]) {
      var rest := Insert(x, s[1..], key);
      InsertSorted(x, s[1..], key);
      forall k | 0 <= k < |rest|
        ensures key(s[0]) >= key(rest[k])
      {
        InsertFrom(x, s[1..], key, k);
      }
    }
  }

  lemma {:induction false} InsertDistinct<T>(x: T, s: seq<T>, key: T -> nat)
    requires Distinct(s) && x !in s
    ensures Distinct(Insert(x, s, key))
  {
    if s != [] && key(x) < key(s[0]) {
      var rest := Insert(x, s[1..], key);
      InsertDistinct(x, s[1..], key);
      forall k | 0 <= k < |rest|
        ensures rest[k] != s[0]
      {
        InsertFrom(x, s[1..], key, k);
      }
    }
  }

  /** The sort leaves its result newest first. */
  lemma {:induction false} NewestFirstSorted<T>(s: seq<T>, key: T -> nat)
    ensures NonIncreasing(NewestFirst(s, key), key)
  {
    if s != [] {
      NewestFirstSorted(s[1..], key);
      InsertSorted(s[0], NewestFirst(s[1..], key), key);
    }
  }

  /** The sort neither duplicates nor merges elements. */
  lemma {:induction false} NewestFirstDistinct<T>(s: seq<T>, key: T -> nat)
    requires Distinct(s)
    ensures Distinct(NewestFirst(s, key))
  {
    if s != [] {
      var rest := NewestFirst(s[1..], key);
      NewestFirstDistinct(s[1..], key);
      assert s[0] !in multiset(s[1..]);
      assert s[0] !in multiset(rest);
      InsertDistinct(s[0], rest, key);
    }
  }

  /** A filtered listing sorted newest first: exactly the records that pass,
      each once, with its position, in non-increasing `time`. */
  function Listing<R(==)>(t: seq<R>, keep: R -> bool, time: R -> nat): (r: seq<Entry<R>>)
    ensures forall k :: 0 <= k < |r| ==> r[k].id < |t| && r[k].rec == t[r[k].id] && keep(r[k].rec)
    ensures forall i :: 0 <= i < |t| && keep(t[i]) ==> Entry(i, t[i]) in r
    ensures forall a, b :: 0 <= a < b < |r| ==> r[a].id != r[b].id
    ensures forall a, b :: 0 <= a < b < |r| ==> time(r[a].rec) >= time(r[b].rec)
    ensures |r| == Count(t, keep)
  {
    var selected := Select(t, keep);
    var key := (e: Entry<R>) => time(e.rec);
    var r := NewestFirst(selected, key);
    NewestFirstSorted(selected, key);
    NewestFirstDistinct(selected, key);
    assert forall k :: 0 <= k < |r| ==> r[k] in multiset(selected);
    assert forall e :: e in selected ==> e in multiset(r);
    assert |r| == |multiset(r)| == |multiset(selected)| == |selected|;
    r
  }
}
