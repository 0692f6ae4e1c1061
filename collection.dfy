/** The ordered collection behind the handlers, as a sequence of JSON values,
    and the two list operations the DELETE handler uses: membership (`in`) and
    removal of the first equal element (`list.remove`). Both compare with
    Python's `==`, that is `Json.Equal`. */
module Collection {
  import opened Json

  /** `x in s`: some element of s equals x. */
  predicate Occurs(s: seq<Value>, x: Value)
    ensures Occurs(s, x) ==> s != []
    ensures s != [] ==> (Occurs(s, x) <==> Equal(s[0], x) || Occurs(s[1..], x))
  {
    assert s != [] ==> forall j :: 0 <= j < |s| - 1 ==> s[1..][j] == s[j + 1];
    exists i :: 0 <= i < |s| && Equal(s[i], x)
  }

  /** i is the position `list.remove` would pick: the first element equal to x. */
  predicate IsFirstMatch(s: seq<Value>, x: Value, i: int) {
    0 <= i < |s| && Equal(s[i], x) &&
    forall j :: 0 <= j < i ==> !Equal(s[j], x)
  }

  /** `s.count(y)`: how many elements of s equal y. */
  function Count(s: seq<Value>, y: Value): (r: nat)
    ensures r <= |s|
  {
    if s == [] then 0
    else (if Equal(s[0], y) then 1 else 0) + Count(s[1..], y)
  }

  /** The list after `list.remove(x)`, as a reference definition element by
      element; on a miss the list is left as it is (the handler never gets
      there, as it asks `in` first). */
  function RemoveFirst(s: seq<Value>, x: Value): (r: seq<Value>)
    ensures |r| <= |s| <= |r| + 1
  {
    if s == [] then []
    else if Equal(s[0], x) then s[1..]
    else [s[0]] + RemoveFirst(s[1..], x)
  }

  /** The linear scan behind `in` and `list.remove`: found tells whether x
      occurs, and then i is the first position holding an element equal to x. */
  method Find(s: seq<Value>, x: Value) returns (found: bool, i: nat)
    ensures found <==> Occurs(s, x)
    ensures found ==> IsFirstMatch(s, x, i)
  {
    i := 0;
    while i < |s|
      invariant i <= |s|
      invariant forall j :: 0 <= j < i ==> !Equal(s[j], x)
    {
      if Equal(s[i], x) {
        return true, i;
      }
      i := i + 1;
    }
    found := false;
  }

  lemma {:induction false} FirstMatchExists(s: seq<Value>, x: Value) returns (i: nat)
    requires Occurs(s, x)
    ensures IsFirstMatch(s, x, i)
  {
    var k :| 0 <= k < |s| && Equal(s[k], x);
    if Equal(s[0], x) {
      i := 0;
    } else {
      assert Equal(s[1..][k - 1], x);
      var i' := FirstMatchExists(s[1..], x);
      i := i' + 1;
      forall j | 0 <= j < i ensures !Equal(s[j], x) {
        if j > 0 { assert s[j] == s[1..][j - 1]; }
      }
    }
  }

  /** Removing the first match is cutting out that one position. */
  lemma {:induction false} RemoveFirstAt(s: seq<Value>, x: Value, i: nat)
    requires IsFirstMatch(s, x, i)
    ensures RemoveFirst(s, x) == s[..i] + s[i + 1..]
  {
    if i > 0 {
      assert !Equal(s[0], x);
      assert IsFirstMatch(s[1..], x, i - 1) by {
        forall j | 0 <= j < i - 1 ensures !Equal(s[1..][j], x) {
          assert s[1..][j] == s[j + 1];
        }
      }
      RemoveFirstAt(s[1..], x, i - 1);
      assert s[..i] == [s[0]] + s[1..][..i - 1];
      assert s[i + 1..] == s[1..][i..];
    }
  }

  /** When nothing equals x, removal changes nothing. */
  lemma {:induction false} RemoveFirstMiss(s: seq<Value>, x: Value)
    requires !Occurs(s, x)
    ensures RemoveFirst(s, x) == s
  {
    if s != [] {
      assert !Equal(s[0], x);
      assert !Occurs(s[1..], x) by {
        forall j | 0 <= j < |s| - 1 ensures !Equal(s[1..][j], x) {
          assert s[1..][j] == s[j + 1];
        }
      }
      RemoveFirstMiss(s[1..], x);
    }
  }

  lemma {:induction false} CountAppend(a: seq<Value>, b: seq<Value>, y: Value)
    ensures Count(a + b, y) == Count(a, y) + Count(b, y)
  {
    if a != [] {
      assert (a + b)[1..] == a[1..] + b;
      CountAppend(a[1..], b, y);
    } else {
      assert a + b == b;
    }
  }

  /** `s.count(x) > 0` exactly when `x in s`. */
  lemma {:induction false} CountOccurs(s: seq<Value>, x: Value)
    ensures Count(s, x) > 0 <==> Occurs(s, x)
  {
    if s != [] {
      CountOccurs(s[1..], x);
      if Occurs(s[1..], x) {
        var j :| 0 <= j < |s| - 1 && Equal(s[1..][j], x);
        assert Equal(s[j + 1], x);
      }
      if Occurs(s, x) && !Equal(s[0], x) {
        var j :| 0 <= j < |s| && Equal(s[j], x);
        assert Equal(s[1..][j - 1], x);
      }
    }
  }

  /** Removing the element at position i leaves s without that one element,
      in the same order, under both views of counting: Dafny's multiset of
      values, and Python's `count`, which drops by one for every y that the
      removed element equals and stays for every other y. */
  lemma CountsAfterRemoveFirst(s: seq<Value>, x: Value, i: nat, y: Value)
    requires IsFirstMatch(s, x, i)
    ensures |RemoveFirst(s, x)| == |s| - 1
    ensures multiset(RemoveFirst(s, x)) == multiset(s) - multiset{s[i]}
    ensures Count(RemoveFirst(s, x), y) == Count(s, y) - (if Equal(s[i], y) then 1 else 0)
  {
    RemoveFirstAt(s, x, i);
    assert s == s[..i] + [s[i]] + s[i + 1..];
    CountAppend(s[..i] + [s[i]], s[i + 1..], y);
    CountAppend(s[..i], [s[i]], y);
    CountAppend(s[..i], s[i + 1..], y);
  }

  /** What DELETE of x does to every count: `count(y)` drops by one when y
      equals x and is unchanged otherwise. */
  lemma CountsAfterDelete(s: seq<Value>, x: Value, y: Value)
    requires Occurs(s, x)
    ensures Count(RemoveFirst(s, x), y) == Count(s, y) - (if Equal(x, y) then 1 else 0)
  {
    var i := FirstMatchExists(s, x);
    CountsAfterRemoveFirst(s, x, i, y);
    if Equal(s[i], y) {
      EqualSymmetric(s[i], x);
      EqualTransitive(x, s[i], y);
    }
    if Equal(x, y) {
      EqualTransitive(s[i], x, y);
    }
  }

  /** The count of x itself drops by exactly one. */
  lemma CountOfRemoved(s: seq<Value>, x: Value)
    requires Occurs(s, x)
    ensures Count(RemoveFirst(s, x), x) == Count(s, x) - 1
  {
    var i := FirstMatchExists(s, x);
    CountsAfterRemoveFirst(s, x, i, x);
  }

  /** If x occurs once, the first removal finds it and a second one does not. */
  lemma RemoveOnceThenMiss(s: seq<Value>, x: Value)
    requires Count(s, x) == 1
    ensures Occurs(s, x)
    ensures !Occurs(RemoveFirst(s, x), x)
  {
    CountOccurs(s, x);
    CountOfRemoved(s, x);
    CountOccurs(RemoveFirst(s, x), x);
  }

  /** Appending x to a collection that holds nothing equal to x and then
      removing x gives back the collection. */
  lemma AppendThenRemove(s: seq<Value>, x: Value)
    requires !Occurs(s, x)
    ensures Occurs(s + [x], x)
    ensures RemoveFirst(s + [x], x) == s
  {
    EqualReflexive(x);
    var t := s + [x];
    assert IsFirstMatch(t, x, |s|) by {
      forall j | 0 <= j < |s| ensures !Equal(t[j], x) {
        assert t[j] == s[j];
      }
    }
    RemoveFirstAt(t, x, |s|);
    assert t[..|s|] == s;
  }
}
