/**
 * Ordered lists of optional entries: a fixed table of (condition, entry)
 * pairs, in a fixed order, of which only the entries whose condition holds
 * are kept. Every run of conditional `push` calls in the pass-data code
 * builds such a list.
 */
module Ordered {

  /** The entries of the table whose condition holds, in table order. */
  function Keep<T>(table: seq<(bool, T)>): seq<T> {
    if table == [] then []
    else
      var last := table[|table| - 1];
      Keep(table[..|table| - 1]) + (if last.0 then [last.1] else [])
  }

  /** Adding one entry at the end of the table adds its element at the end, if it is kept. */
  lemma KeepSnoc<T>(table: seq<(bool, T)>, e: (bool, T))
    ensures Keep(table + [e]) == Keep(table) + (if e.0 then [e.1] else [])
  {
    var t := table + [e];
    assert t[..|t| - 1] == table && t[|t| - 1] == e;
  }

  /** How many entries before position i are kept: the position entry i takes in Keep. */
  function Rank<T>(table: seq<(bool, T)>, i: nat): (r: nat)
    requires i <= |table|
    ensures r <= i
  {
    if i == 0 then 0 else Rank(table, i - 1) + (if table[i - 1].0 then 1 else 0)
  }

  /** The kept list is the prefix's kept list, then the last entry if it is kept. */
  lemma {:induction false} KeepPrefix<T>(table: seq<(bool, T)>, i: nat)
    requires i < |table|
    ensures Keep(table[..i + 1]) == Keep(table[..i]) + (if table[i].0 then [table[i].1] else [])
  {
    assert table[..i + 1][..i] == table[..i];
  }

  /** Keep has exactly one element per entry whose condition holds. */
  lemma {:induction false} KeepLength<T>(table: seq<(bool, T)>, i: nat)
    requires i <= |table|
    ensures |Keep(table[..i])| == Rank(table, i)
  {
    if i > 0 {
      KeepLength(table, i - 1);
      KeepPrefix(table, i - 1);
    }
  }

  /** Every kept entry sits at its rank: kept entries appear in table order, and nothing else appears. */
  lemma {:induction false} KeepAt<T>(table: seq<(bool, T)>, i: nat)
    requires i < |table| && table[i].0
    ensures Rank(table, i) < |Keep(table)|
    ensures Keep(table)[Rank(table, i)] == table[i].1
  {
    KeepAtPrefix(table, i, |table|);
    assert table[..|table|] == table;
  }

  lemma {:induction false} KeepAtPrefix<T>(table: seq<(bool, T)>, i: nat, n: nat)
    requires i < n <= |table| && table[i].0
    ensures Rank(table, i) < |Keep(table[..n])|
    ensures Keep(table[..n])[Rank(table, i)] == table[i].1
  {
    KeepPrefix(table, n - 1);
    if n == i + 1 {
      KeepLength(table, i);
    } else {
      KeepAtPrefix(table, i, n - 1);
    }
  }

  /** A later kept entry has a strictly larger rank. */
  lemma {:induction false} RankIncreasing<T>(table: seq<(bool, T)>, i: nat, j: nat)
    requires i < j <= |table| && table[i].0
    ensures Rank(table, i) < Rank(table, j)
  {
    if j > i + 1 {
      RankIncreasing(table, i, j - 1);
    }
  }

  /** An element is kept if and only if some entry holding it has its condition true. */
  lemma {:induction false} KeepMember<T>(table: seq<(bool, T)>, x: T)
    ensures x in Keep(table) <==> exists i :: 0 <= i < |table| && table[i].0 && table[i].1 == x
  {
    if table != [] {
      var n := |table| - 1;
      KeepMember(table[..n], x);
      assert forall i :: 0 <= i < n ==> table[..n][i] == table[i];
      if x in Keep(table) && x !in Keep(table[..n]) {
        assert table[n].0 && table[n].1 == x;
      }
    }
  }

  /** Nothing is kept exactly when no condition holds. */
  lemma KeepEmpty<T>(table: seq<(bool, T)>)
    ensures Keep(table) == [] <==> forall i :: 0 <= i < |table| ==> !table[i].0
  {
    if Keep(table) == [] {
      forall i | 0 <= i < |table| ensures !table[i].0 {
        if table[i].0 {
          KeepAt(table, i);
        }
      }
    } else {
      var x := Keep(table)[0];
      KeepMember(table, x);
    }
  }

  /** What one entry contributes: its element when its condition holds. */
  function Pick<T>(e: (bool, T)): (r: seq<T>)
    ensures |r| == if e.0 then 1 else 0
  {
    if e.0 then [e.1] else []
  }

  /** A table of two entries, entry by entry. */
  lemma KeepTwo<T>(a: (bool, T), b: (bool, T))
    ensures Keep([a, b]) == [] + Pick(a) + Pick(b)
  {
    KeepSnoc([], a);
    assert [a] == [] + [a];
    KeepSnoc([a], b);
    assert [a, b] == [a] + [b];
  }

  /** A table of three entries, entry by entry. */
  lemma KeepThree<T>(a: (bool, T), b: (bool, T), c: (bool, T))
    ensures Keep([a, b, c]) == [] + Pick(a) + Pick(b) + Pick(c)
  {
    KeepTwo(a, b);
    KeepSnoc([a, b], c);
    assert [a, b, c] == [a, b] + [c];
  }

  /** A table of four entries, entry by entry. */
  lemma KeepFour<T>(a: (bool, T), b: (bool, T), c: (bool, T), d: (bool, T))
    ensures Keep([a, b, c, d])
         == [] + Pick(a) + Pick(b) + Pick(c) + Pick(d)
  {
    KeepThree(a, b, c);
    KeepSnoc([a, b, c], d);
    assert [a, b, c, d] == [a, b, c] + [d];
  }
}
