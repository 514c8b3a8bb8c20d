/** The stable sort that the ranking functions rely on, and what characterises it. */
module StableSort {
  import SeqFacts

  /** A strict order whose incomparable elements count as equal. */
  ghost predicate WeakOrder<T(!new)>(before: (T, T) -> bool)
  {
    && (forall a :: !before(a, a))
    && (forall a, b, c :: before(a, b) && before(b, c) ==> before(a, c))
    && (forall a, b, c :: !before(a, b) && !before(b, c) ==> !before(a, c))
  }

  /** Puts x in front of the first element that it comes before. */
  function Insert<T>(before: (T, T) -> bool, s: seq<T>, x: T): seq<T>
  {
    if s == [] then [x] else if before(x, s[0]) then [x] + s else [s[0]] + Insert(before, s[1..], x)
  }

  function Sort<T>(before: (T, T) -> bool, s: seq<T>): seq<T>
  {
    if s == [] then [] else Insert(before, Sort(before, s[..|s| - 1]), s[|s| - 1])
  }

  ghost predicate Sorted<T>(before: (T, T) -> bool, s: seq<T>)
  {
    forall i, j :: 0 <= i < j < |s| ==> !before(s[j], s[i])
  }

  predicate Equal<T>(before: (T, T) -> bool, a: T, b: T) { !before(a, b) && !before(b, a) }

  /** The elements that count as equal to y, in order. */
  function Class<T>(before: (T, T) -> bool, s: seq<T>, y: T): seq<T>
  {
    if s == [] then [] else (if Equal(before, s[0], y) then [s[0]] else []) + Class(before, s[1..], y)
  }

  lemma {:induction false} InsertMembers<T>(before: (T, T) -> bool, s: seq<T>, x: T)
    ensures multiset(Insert(before, s, x)) == multiset(s) + multiset{x}
  {
    if s != [] {
      assert s == [s[0]] + s[1..];
      if !before(x, s[0]) { InsertMembers(before, s[1..], x); }
    }
  }

  /** Sorting permutes. */
  lemma {:induction false} SortPermutes<T>(before: (T, T) -> bool, s: seq<T>)
    ensures multiset(Sort(before, s)) == multiset(s)
  {
    if s != [] {
      var n := |s| - 1;
      assert s == s[..n] + [s[n]];
      SortPermutes(before, s[..n]);
      InsertMembers(before, Sort(before, s[..n]), s[n]);
    }
  }

  lemma SortedTail<T>(before: (T, T) -> bool, s: seq<T>)
    requires s != [] && Sorted(before, s)
    ensures Sorted(before, s[1..])
  {
  }

  lemma SortedPush<T>(before: (T, T) -> bool, x: T, s: seq<T>)
    requires Sorted(before, s) && forall i :: 0 <= i < |s| ==> !before(s[i], x)
    ensures Sorted(before, [x] + s)
  {
  }

  lemma {:induction false} InsertBound<T>(before: (T, T) -> bool, s: seq<T>, x: T, y: T)
    requires !before(x, y) && forall i :: 0 <= i < |s| ==> !before(s[i], y)
    ensures forall i :: 0 <= i < |Insert(before, s, x)| ==> !before(Insert(before, s, x)[i], y)
  {
    if s != [] && !before(x, s[0]) { InsertBound(before, s[1..], x, y); }
  }

  lemma {:induction false} InsertSorts<T(!new)>(before: (T, T) -> bool, s: seq<T>, x: T)
    requires WeakOrder(before) && Sorted(before, s)
    ensures Sorted(before, Insert(before, s, x))
  {
    if s == [] {
    } else if before(x, s[0]) {
      forall i | 0 <= i < |s|
        ensures !before(s[i], x)
      {
        assert i > 0 ==> !before(s[i], s[0]);
      }
      SortedPush(before, x, s);
    } else {
      SortedTail(before, s);
      InsertSorts(before, s[1..], x);
      InsertBound(before, s[1..], x, s[0]);
      SortedPush(before, s[0], Insert(before, s[1..], x));
    }
  }

  lemma {:induction false} SortSorts<T(!new)>(before: (T, T) -> bool, s: seq<T>)
    requires WeakOrder(before)
    ensures Sorted(before, Sort(before, s))
  {
    if s != [] {
      SortSorts(before, s[..|s| - 1]);
      InsertSorts(before, Sort(before, s[..|s| - 1]), s[|s| - 1]);
    }
  }

  function OneClass<T>(before: (T, T) -> bool, x: T, y: T): seq<T> { if Equal(before, x, y) then [x] else [] }

  lemma ClassPush<T>(before: (T, T) -> bool, x: T, s: seq<T>, y: T)
    ensures Class(before, [x] + s, y) == OneClass(before, x, y) + Class(before, s, y)
  {
    assert ([x] + s)[1..] == s;
  }

  lemma ClassOne<T>(before: (T, T) -> bool, x: T, y: T)
    ensures Class(before, [x], y) == OneClass(before, x, y)
  {
    assert [x][1..] == [];
  }

  lemma {:induction false} ClassAppend<T>(before: (T, T) -> bool, a: seq<T>, x: T, y: T)
    ensures Class(before, a + [x], y) == Class(before, a, y) + OneClass(before, x, y)
  {
    if a == [] {
      assert a + [x] == [x];
      ClassOne(before, x, y);
    } else {
      SeqFacts.AppendTail(a, [x]);
      ClassAppend(before, a[1..], x, y);
      SeqFacts.AppendAssociative(OneClass(before, a[0], y), Class(before, a[1..], y), OneClass(before, x, y));
    }
  }

  lemma {:induction false} NoClass<T>(before: (T, T) -> bool, s: seq<T>, y: T)
    requires forall i :: 0 <= i < |s| ==> !Equal(before, s[i], y)
    ensures Class(before, s, y) == []
  {
    if s != [] { NoClass(before, s[1..], y); }
  }

  lemma InsertFirstClass<T(!new)>(before: (T, T) -> bool, s: seq<T>, x: T, y: T)
    requires WeakOrder(before) && Sorted(before, s) && s != [] && before(x, s[0])
    ensures Class(before, [x] + s, y) == Class(before, s, y) + OneClass(before, x, y)
  {
    ClassPush(before, x, s, y);
    if Equal(before, x, y) {
      forall i | 0 <= i < |s|
        ensures !Equal(before, s[i], y)
      {
        assert before(x, s[i]) by { assert i > 0 ==> !before(s[i], s[0]); }
      }
      NoClass(before, s, y);
    }
  }

  /** Inserting puts an element after its equals. */
  lemma {:induction false} InsertClass<T(!new)>(before: (T, T) -> bool, s: seq<T>, x: T, y: T)
    requires WeakOrder(before) && Sorted(before, s)
    ensures Class(before, Insert(before, s, x), y) == Class(before, s, y) + OneClass(before, x, y)
  {
    if s == [] {
      ClassOne(before, x, y);
    } else if before(x, s[0]) {
      InsertFirstClass(before, s, x, y);
    } else {
      SortedTail(before, s);
      InsertClass(before, s[1..], x, y);
      ClassPush(before, s[0], Insert(before, s[1..], x), y);
      SeqFacts.AppendAssociative(OneClass(before, s[0], y), Class(before, s[1..], y), OneClass(before, x, y));
    }
  }

  /** Sorting is stable: equals keep their order. */
  lemma {:induction false} SortStable<T(!new)>(before: (T, T) -> bool, s: seq<T>, y: T)
    requires WeakOrder(before)
    ensures Class(before, Sort(before, s), y) == Class(before, s, y)
  {
    if s != [] {
      var n := |s| - 1;
      SeqFacts.LastSplit(s);
      SortStable(before, s[..n], y);
      SortSorts(before, s[..n]);
      InsertClass(before, Sort(before, s[..n]), s[n], y);
      ClassAppend(before, s[..n], s[n], y);
    }
  }

  /** A sorted sequence is left alone. */
  lemma {:induction false} SortedFixed<T>(before: (T, T) -> bool, s: seq<T>)
    requires Sorted(before, s)
    ensures Sort(before, s) == s
  {
    if s != [] {
      var n := |s| - 1;
      SortedFixed(before, s[..n]);
      InsertLast(before, s[..n], s[n]);
      assert s == s[..n] + [s[n]];
    }
  }

  lemma {:induction false} InsertLast<T>(before: (T, T) -> bool, s: seq<T>, x: T)
    requires forall i :: 0 <= i < |s| ==> !before(x, s[i])
    ensures Insert(before, s, x) == s + [x]
  {
    if s != [] {
      InsertLast(before, s[1..], x);
      assert s == [s[0]] + s[1..];
    }
  }

  lemma ClassHead<T>(before: (T, T) -> bool, s: seq<T>, y: T)
    requires s != [] && Equal(before, s[0], y)
    ensures Class(before, s, y) != [] && Class(before, s, y)[0] == s[0]
  {
  }

  lemma {:induction false} ClassMember<T>(before: (T, T) -> bool, s: seq<T>, y: T) returns (i: nat)
    requires Class(before, s, y) != []
    ensures i < |s| && Equal(before, s[i], y)
  {
    if Equal(before, s[0], y) {
      i := 0;
    } else {
      i := ClassMember(before, s[1..], y);
      i := i + 1;
    }
  }

  lemma SameTail<T>(a: seq<T>, b: seq<T>, c: seq<T>)
    requires a + b == a + c
    ensures b == c
  {
    assert (a + b)[|a|..] == b && (a + c)[|a|..] == c;
  }

  ghost predicate SameClasses<T(!new)>(before: (T, T) -> bool, s: seq<T>, t: seq<T>)
  {
    forall y :: Class(before, s, y) == Class(before, t, y)
  }

  lemma SameHead<T(!new)>(before: (T, T) -> bool, s: seq<T>, t: seq<T>)
    requires WeakOrder(before) && Sorted(before, s) && Sorted(before, t) && SameClasses(before, s, t) && s != []
    ensures t != [] && t[0] == s[0]
  {
    ClassHead(before, s, s[0]);
    assert Class(before, t, s[0]) == Class(before, s, s[0]);
    var i := ClassMember(before, t, s[0]);
    ClassHead(before, t, t[0]);
    assert Class(before, s, t[0]) == Class(before, t, t[0]);
    var j := ClassMember(before, s, t[0]);
    assert i > 0 ==> !before(t[i], t[0]);
    assert j > 0 ==> !before(s[j], s[0]);
    ClassHead(before, t, s[0]);
  }

  lemma SameTails<T(!new)>(before: (T, T) -> bool, s: seq<T>, t: seq<T>)
    requires SameClasses(before, s, t) && s != [] && t != [] && s[0] == t[0]
    ensures SameClasses(before, s[1..], t[1..])
  {
    forall y
      ensures Class(before, s[1..], y) == Class(before, t[1..], y)
    {
      assert Class(before, s, y) == Class(before, t, y);
      SameTail(OneClass(before, s[0], y), Class(before, s[1..], y), Class(before, t[1..], y));
    }
  }

  /** Nothing else is sorted and keeps the order of equals. */
  lemma {:induction false} SortedUnique<T(!new)>(before: (T, T) -> bool, s: seq<T>, t: seq<T>)
    requires WeakOrder(before) && Sorted(before, s) && Sorted(before, t) && SameClasses(before, s, t)
    ensures s == t
  {
    if s != [] {
      SameHead(before, s, t);
      SameTails(before, s, t);
      SortedTail(before, s);
      SortedTail(before, t);
      SortedUnique(before, s[1..], t[1..]);
      assert s == [s[0]] + s[1..] && t == [t[0]] + t[1..];
    } else if t != [] {
      SameHead(before, t, s);
    }
  }
}
