/**
 An attribute dictionary (`obj.__dict__`) and `sorted(d.items())`.
 A Python dict keeps its items in insertion order and never holds a key
 twice; the model is that sequence of items, with keys and values
 already turned into text.
 */
module PyDict {
  import opened PyStr

  /** One `(key, item)` pair of `d.items()`, the item as `str(item)`. */
  datatype Entry = Entry(key: string, value: string)

  predicate UniqueKeys(d: seq<Entry>)
  {
    forall i, j :: 0 <= i < j < |d| ==> d[i].key != d[j].key
  }

  /** The items of a dict, in insertion order. */
  type Dict = d: seq<Entry> | UniqueKeys(d) witness []

  /** Every key is smaller, as a Python `str`, than every later key. */
  predicate StrictlyAscending(s: seq<Entry>)
  {
    forall i, j :: 0 <= i < j < |s| ==> Less(s[i].key, s[j].key)
  }

  lemma AscendingHasUniqueKeys(s: seq<Entry>)
    requires StrictlyAscending(s)
    ensures UniqueKeys(s)
  {
    forall i, j | 0 <= i < j < |s| ensures s[i].key != s[j].key {
      LessIrreflexive(s[i].key);
    }
  }

  /** Insert `e` into an ascending sequence whose keys all differ from `e`'s. */
  function Insert(e: Entry, s: seq<Entry>): (r: seq<Entry>)
    requires StrictlyAscending(s)
    requires forall x :: x in s ==> x.key != e.key
    ensures StrictlyAscending(r)
    ensures multiset(r) == multiset(s) + multiset{e}
    decreases |s|
  {
    if |s| == 0 || Less(e.key, s[0].key) then
      LessTransitiveAll(e, s);
      [e] + s
    else
      LessTotal(e.key, s[0].key);
      AscendingSplit(s);
      var t := Insert(e, s[1..]);
      InsertedAbove(s[0], e, s[1..], t);
      AscendingCons(s[0], t);
      assert s == [s[0]] + s[1..];
      [s[0]] + t
  }

  /** The tail of an ascending sequence is ascending and above its head. */
  lemma AscendingSplit(s: seq<Entry>)
    requires StrictlyAscending(s) && |s| > 0
    ensures StrictlyAscending(s[1..])
    ensures forall x :: x in s[1..] ==> Less(s[0].key, x.key)
  {
  }

  /** A head below everything in an ascending tail keeps it ascending. */
  lemma AscendingCons(h: Entry, t: seq<Entry>)
    requires StrictlyAscending(t)
    requires forall x :: x in t ==> Less(h.key, x.key)
    ensures StrictlyAscending([h] + t)
  {
  }

  /** Whatever `t` holds besides `e` comes from `s`, so a lower bound of
      both `e` and `s` bounds `t`. */
  lemma InsertedAbove(h: Entry, e: Entry, s: seq<Entry>, t: seq<Entry>)
    requires multiset(t) == multiset(s) + multiset{e}
    requires Less(h.key, e.key)
    requires forall x :: x in s ==> Less(h.key, x.key)
    ensures forall x :: x in t ==> Less(h.key, x.key)
  {
    forall x | x in t ensures Less(h.key, x.key) {
      assert x in multiset(t);
      if x != e {
        assert x in multiset(s);
      }
    }
  }

  /** When `e` goes in front, it is smaller than the whole of `s`. */
  lemma LessTransitiveAll(e: Entry, s: seq<Entry>)
    requires StrictlyAscending(s)
    requires |s| == 0 || Less(e.key, s[0].key)
    ensures StrictlyAscending([e] + s)
  {
    forall j | 0 < j < |s| ensures Less(e.key, s[j].key) {
      LessTransitive(e.key, s[0].key, s[j].key);
    }
  }

  /** `sorted(d.items())`. Because keys are unique, tuple comparison is
      decided by the keys alone and the values are never compared. */
  function SortByKey(d: seq<Entry>): (r: seq<Entry>)
    requires UniqueKeys(d)
    ensures StrictlyAscending(r)
    ensures multiset(r) == multiset(d)
    ensures |r| == |d|
    decreases |d|
  {
    if |d| == 0 then []
    else
      var t := SortByKey(d[1..]);
      assert d == [d[0]] + d[1..];
      assert forall x :: x in t ==> x.key != d[0].key by {
        forall x | x in t ensures x.key != d[0].key {
          assert x in multiset(d[1..]);
          var k :| 0 <= k < |d[1..]| && d[1..][k] == x;
          assert d[k + 1] == x;
        }
      }
      var r := Insert(d[0], t);
      assert |multiset(r)| == |r|;
      r
  }

  /** A strictly ascending arrangement of a collection of entries is
      unique, so the insertion sort above yields exactly what Python's
      `sorted` yields, whatever algorithm `sorted` uses. */
  lemma {:induction false} AscendingPermutationUnique(a: seq<Entry>, b: seq<Entry>)
    requires StrictlyAscending(a) && StrictlyAscending(b)
    requires multiset(a) == multiset(b)
    ensures a == b
    decreases |a|
  {
    assert |a| == |multiset(a)| == |multiset(b)| == |b|;
    if |a| > 0 {
      AscendingSplit(a);
      AscendingSplit(b);
      assert a == [a[0]] + a[1..] && b == [b[0]] + b[1..];
      assert a[0] in multiset(b) && b[0] in multiset(a);
      if a[0] != b[0] {
        assert a[0] in b[1..] && b[0] in a[1..];
        LessAsymmetric(a[0].key, b[0].key);
        assert false;
      }
      MultisetTail(a, b);
      AscendingPermutationUnique(a[1..], b[1..]);
    }
  }

  /** Removing the same first element from two permutations of each other
      leaves permutations of each other. */
  lemma MultisetTail(a: seq<Entry>, b: seq<Entry>)
    requires |a| > 0 && |b| > 0 && a[0] == b[0]
    requires multiset(a) == multiset(b)
    ensures multiset(a[1..]) == multiset(b[1..])
  {
    assert a == [a[0]] + a[1..] && b == [b[0]] + b[1..];
    assert multiset(a) == multiset{a[0]} + multiset(a[1..]);
    assert multiset(b) == multiset{a[0]} + multiset(b[1..]);
    assert forall y :: multiset(a[1..])[y] == multiset(b[1..])[y] by {
      forall y ensures multiset(a[1..])[y] == multiset(b[1..])[y] {
        assert multiset(a)[y] == multiset(b)[y];
      }
    }
  }

  /** Sorting forgets insertion order: two dicts holding the same items
      sort to the same sequence. */
  lemma SortIgnoresInsertionOrder(d1: Dict, d2: Dict)
    requires multiset(d1) == multiset(d2)
    ensures SortByKey(d1) == SortByKey(d2)
  {
    AscendingPermutationUnique(SortByKey(d1), SortByKey(d2));
  }
}
