/** Sorting by a comparison, as `sort.Slice` does it. */
module Sorting {

  /** A strict order in which elements that are not comparable count as equal. */
  ghost predicate Order<T(!new)>(less: (T, T) -> bool) {
    && (forall a, b :: less(a, b) ==> !less(b, a))
    && (forall a, b, c :: !less(b, a) && !less(c, b) ==> !less(c, a))
  }

  /** Different elements are always comparable. */
  ghost predicate Total<T(!new)>(less: (T, T) -> bool) {
    forall a, b :: less(a, b) || less(b, a) || a == b
  }

  ghost predicate Ordered<T>(less: (T, T) -> bool, s: seq<T>) {
    forall i, j | 0 <= i < j < |s| :: !less(s[j], s[i])
  }

  function Insert<T>(less: (T, T) -> bool, x: T, s: seq<T>): seq<T> {
    if s == [] || !less(s[0], x) then [x] + s else [s[0]] + Insert(less, x, s[1..])
  }

  function Sort<T>(less: (T, T) -> bool, s: seq<T>): seq<T> {
    if s == [] then [] else Insert(less, s[0], Sort(less, s[1..]))
  }

  lemma {:induction false} InsertOrdered<T(!new)>(less: (T, T) -> bool, x: T, s: seq<T>)
    requires Order(less) && Ordered(less, s)
    ensures Ordered(less, Insert(less, x, s)) && multiset(Insert(less, x, s)) == multiset(s) + multiset{x}
  {
    if s == [] {
    } else if !less(s[0], x) {
      forall j | 0 <= j < |s| ensures !less(s[j], x) {
        assert j == 0 || !less(s[j], s[0]);
      }
    } else {
      var rest := s[1..];
      InsertOrdered(less, x, rest);
      assert s == [s[0]] + rest;
      forall j | 0 <= j < |Insert(less, x, rest)| ensures !less(Insert(less, x, rest)[j], s[0]) {
        assert Insert(less, x, rest)[j] in multiset(Insert(less, x, rest));
        assert Insert(less, x, rest)[j] in rest || Insert(less, x, rest)[j] == x;
      }
    }
  }

  lemma {:induction false} SortArranges<T(!new)>(less: (T, T) -> bool, s: seq<T>)
    requires Order(less)
    ensures Ordered(less, Sort(less, s)) && multiset(Sort(less, s)) == multiset(s)
  {
    if s != [] {
      SortArranges(less, s[1..]);
      InsertOrdered(less, s[0], Sort(less, s[1..]));
      assert s == [s[0]] + s[1..];
    }
  }

  lemma SameMembers<T>(s: seq<T>, t: seq<T>)
    requires multiset(s) == multiset(t)
    ensures forall x :: x in s <==> x in t
  {
    assert forall x :: x in s <==> x in multiset(s);
    assert forall x :: x in t <==> x in multiset(t);
  }

  lemma {:induction false} SortOrdered<T(!new)>(less: (T, T) -> bool, s: seq<T>)
    requires Order(less)
    ensures Ordered(less, Sort(less, s)) && multiset(Sort(less, s)) == multiset(s)
    ensures forall x :: x in Sort(less, s) <==> x in s
  {
    SortArranges(less, s);
    SameMembers(Sort(less, s), s);
  }

  lemma {:induction false} SameFirst<T(!new)>(less: (T, T) -> bool, s: seq<T>, t: seq<T>)
    requires Total(less) && Ordered(less, s) && Ordered(less, t) && s != [] && multiset(s) == multiset(t)
    ensures t != [] && s[0] == t[0]
  {
    assert s[0] in multiset(t);
    var i :| 0 <= i < |t| && t[i] == s[0];
    assert t[0] in multiset(s);
    var j :| 0 <= j < |s| && s[j] == t[0];
  }

  /** Under a total order there is one sorted arrangement, whatever the order before. */
  lemma {:induction false} OrderedUnique<T(!new)>(less: (T, T) -> bool, s: seq<T>, t: seq<T>)
    requires Total(less) && Ordered(less, s) && Ordered(less, t) && multiset(s) == multiset(t)
    ensures s == t
  {
    if s == [] {
      assert |t| == |multiset(s)|;
    } else {
      SameFirst(less, s, t);
      assert s == [s[0]] + s[1..] && t == [t[0]] + t[1..];
      assert multiset(s[1..]) == multiset(s) - multiset{s[0]} && multiset(t[1..]) == multiset(t) - multiset{t[0]};
      OrderedUnique(less, s[1..], t[1..]);
    }
  }
}
