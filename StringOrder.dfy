/**
 * Go's `<` on strings and `sort.Strings`. Go compares the UTF-8 bytes of two
 * strings; for Unicode scalar values, UTF-8 byte order is code-point order, so
 * comparing characters lexicographically gives the same answer.
 */
module StringOrder {

  /** Go's `a < b` on strings. */
  predicate Less(a: string, b: string)
  {
    if a == [] then b != []
    else b != [] && (a[0] < b[0] || (a[0] == b[0] && Less(a[1..], b[1..])))
  }

  lemma {:induction false} LessIrreflexive(a: string)
    ensures !Less(a, a)
  {
    if a != [] {
      LessIrreflexive(a[1..]);
    }
  }

  lemma {:induction false} LessTransitive(a: string, b: string, c: string)
    requires Less(a, b) && Less(b, c)
    ensures Less(a, c)
  {
    if a != [] && a[0] == b[0] && b[0] == c[0] {
      LessTransitive(a[1..], b[1..], c[1..]);
    }
  }

  /** Any two strings are equal or one of them is smaller: `<` is a strict total order. */
  lemma {:induction false} LessTotal(a: string, b: string)
    ensures a == b || Less(a, b) || Less(b, a)
  {
    if a != [] && b != [] && a[0] == b[0] {
      LessTotal(a[1..], b[1..]);
      if a[1..] == b[1..] {
        assert a == [a[0]] + a[1..] && b == [b[0]] + b[1..];
      }
    }
  }

  lemma LessAsymmetric(a: string, b: string)
    requires Less(a, b)
    ensures !Less(b, a)
  {
    if Less(b, a) {
      LessTransitive(a, b, a);
      LessIrreflexive(a);
    }
  }

  /** Non-decreasing: what `sort.Strings` leaves behind. */
  predicate Ascending(s: seq<string>)
  {
    forall i, j :: 0 <= i < j < |s| ==> !Less(s[j], s[i])
  }

  /** Increasing: every key appears once, in order. */
  predicate StrictlyAscending(s: seq<string>)
  {
    forall i, j :: 0 <= i < j < |s| ==> Less(s[i], s[j])
  }

  predicate IsLeast(k: string, keys: set<string>)
  {
    k in keys && forall j :: j in keys ==> !Less(j, k)
  }

  lemma {:induction false} LeastExists(keys: set<string>)
    requires keys != {}
    ensures exists k :: IsLeast(k, keys)
    decreases |keys|
  {
    var x :| x in keys;
    var rest := keys - {x};
    if rest == {} {
      assert keys == {x};
      LessIrreflexive(x);
      assert IsLeast(x, keys);
    } else {
      LeastExists(rest);
      var y :| IsLeast(y, rest);
      LessTotal(x, y);
      if Less(x, y) {
        forall j | j in keys ensures !Less(j, x) {
          if j == x {
            LessIrreflexive(x);
          } else if Less(j, x) {
            LessTransitive(j, x, y);
          }
        }
        assert IsLeast(x, keys);
      } else {
        forall j | j in keys ensures !Less(j, y) {
          if j == x && Less(j, y) {
            LessAsymmetric(x, y);
          }
        }
        assert IsLeast(y, keys);
      }
    }
  }

  lemma LeastUnique(keys: set<string>)
    ensures forall k1, k2 :: IsLeast(k1, keys) && IsLeast(k2, keys) ==> k1 == k2
  {
    forall k1, k2 | IsLeast(k1, keys) && IsLeast(k2, keys) ensures k1 == k2 {
      LessTotal(k1, k2);
    }
  }

  /**
   * The keys of a map in the order the serialiser writes them: each key once,
   * in increasing order. This is the unique such sequence (AscendingUnique).
   */
  function SortedKeys(keys: set<string>): (r: seq<string>)
    ensures StrictlyAscending(r)
    ensures |r| == |keys|
    ensures forall k :: k in r <==> k in keys
    decreases |keys|
  {
    if keys == {} then []
    else
      LeastExists(keys);
      LeastUnique(keys);
      var k :| IsLeast(k, keys);
      var rest := SortedKeys(keys - {k});
      LeastBeforeRest(k, keys, rest);
      [k] + rest
  }

  lemma LeastBeforeRest(k: string, keys: set<string>, rest: seq<string>)
    requires IsLeast(k, keys) && StrictlyAscending(rest)
    requires forall j :: j in rest <==> j in keys - {k}
    ensures StrictlyAscending([k] + rest)
  {
    forall j | j in rest ensures Less(k, j) {
      LessTotal(k, j);
    }
  }

  /** Two increasing sequences with the same elements are the same sequence. */
  lemma {:induction false} AscendingUnique(a: seq<string>, b: seq<string>)
    requires StrictlyAscending(a) && StrictlyAscending(b)
    requires forall k :: k in a <==> k in b
    ensures a == b
  {
    SameElementsBothEmpty(a, b);
    if a != [] {
      if a[0] != b[0] {
        assert b[0] in a;
        assert a[0] in b;
        var i :| 0 < i < |a| && a[i] == b[0];
        var j :| 0 < j < |b| && b[j] == a[0];
        LessAsymmetric(a[0], b[0]);
      }
      forall k ensures k in a[1..] <==> k in b[1..] {
        if k in a[1..] {
          var i :| 1 <= i < |a| && a[i] == k;
          LessIrreflexive(a[0]);
          assert k in b;
          var j :| 0 <= j < |b| && b[j] == k;
          assert j != 0;
          assert b[1..][j - 1] == k;
        }
        if k in b[1..] {
          var j :| 1 <= j < |b| && b[j] == k;
          LessIrreflexive(b[0]);
          assert k in a;
          var i :| 0 <= i < |a| && a[i] == k;
          assert i != 0;
          assert a[1..][i - 1] == k;
        }
      }
      AscendingUnique(a[1..], b[1..]);
    }
  }

  lemma SameElementsBothEmpty(a: seq<string>, b: seq<string>)
    requires forall k :: k in a <==> k in b
    ensures a == [] <==> b == []
  {
    if a != [] {
      assert a[0] in b;
    }
    if b != [] {
      assert b[0] in a;
    }
  }

  /**
   * `sort.Strings`: sorts the slice in place into non-decreasing order. Go's
   * library uses pattern-defeating quicksort; this is insertion sort, which
   * leaves the same result whenever the strings are distinct.
   */
  method Sort(a: array<string>)
    modifies a
    ensures Ascending(a[..])
    ensures multiset(a[..]) == multiset(old(a[..]))
  {
    var i := 0;
    while i < a.Length
      invariant 0 <= i <= a.Length
      invariant Ascending(a[..i])
      invariant multiset(a[..]) == multiset(old(a[..]))
    {
      InsertLast(a, i);
      i := i + 1;
    }
    assert a[..a.Length] == a[..];
  }

  /** Moves a[i] left past every larger string, so that a[..i + 1] is sorted. */
  method InsertLast(a: array<string>, i: nat)
    requires i < a.Length && Ascending(a[..i])
    modifies a
    ensures Ascending(a[..i + 1])
    ensures a[i + 1..] == old(a[i + 1..])
    ensures multiset(a[..]) == multiset(old(a[..]))
  {
    var j := i;
    while 0 < j && Less(a[j], a[j - 1])
      invariant 0 <= j <= i
      invariant Settled(a[..], i, j)
      invariant a[i + 1..] == old(a[i + 1..])
      invariant multiset(a[..]) == multiset(old(a[..]))
    {
      ghost var s := a[..];
      SettledSwap(s, i, j);
      a[j - 1], a[j] := a[j], a[j - 1];
      assert a[..] == s[j - 1 := s[j]][j := s[j - 1]];
      j := j - 1;
    }
    SettledDone(a[..], i, j);
  }

  /**
   * Insertion in progress: `s[..i + 1]` is in order apart from the element
   * being moved, at `j`, which is below everything after it.
   */
  predicate Settled(s: seq<string>, i: nat, j: nat)
    requires j <= i < |s|
  {
    && (forall x, y :: 0 <= x < y <= i && x != j && y != j ==> !Less(s[y], s[x]))
    && (forall y :: j < y <= i ==> Less(s[j], s[y]))
  }

  lemma SettledSwap(s: seq<string>, i: nat, j: nat)
    requires 0 < j <= i < |s| && Settled(s, i, j) && Less(s[j], s[j - 1])
    ensures Settled(s[j - 1 := s[j]][j := s[j - 1]], i, j - 1)
  {
  }

  lemma SettledDone(s: seq<string>, i: nat, j: nat)
    requires j <= i < |s| && Settled(s, i, j)
    requires j == 0 || !Less(s[j], s[j - 1])
    ensures Ascending(s[..i + 1])
  {
    forall x, y | 0 <= x < y <= i ensures !Less(s[y], s[x]) {
      if x == j {
        LessAsymmetric(s[x], s[y]);
      } else if y == j && x < j - 1 && Less(s[j], s[x]) {
        LessTotal(s[x], s[j - 1]);
        if Less(s[x], s[j - 1]) {
          LessTransitive(s[j], s[x], s[j - 1]);
        }
      }
    }
  }

  /**
   * Sorting the keys of a map, whatever order they were collected in, gives
   * exactly SortedKeys: each key once, increasing.
   */
  lemma SortedIsSortedKeys(s: seq<string>, keys: set<string>)
    requires Ascending(s) && multiset(s) == multiset(keys)
    ensures s == SortedKeys(keys)
  {
    forall i, j | 0 <= i < j < |s| ensures Less(s[i], s[j]) {
      DistinctFromSet(s, keys, i, j);
      LessTotal(s[i], s[j]);
    }
    forall k ensures k in s <==> k in keys {
      assert k in s <==> k in multiset(s);
    }
    AscendingUnique(s, SortedKeys(keys));
  }

  lemma DistinctFromSet(s: seq<string>, keys: set<string>, i: nat, j: nat)
    requires multiset(s) == multiset(keys) && i < j < |s|
    ensures s[i] != s[j]
  {
    var k := s[i];
    assert s == s[..j] + s[j..];
    assert multiset(s)[k] == multiset(s[..j])[k] + multiset(s[j..])[k];
    assert s[..j][i] == k;
    assert multiset(keys)[k] <= 1;
    assert multiset(s[j..])[k] == 0;
    assert s[j..][0] == s[j];
  }
}
