/** Appending values that are not there yet: `merge_unique` and the laws of ordered union. */
module OrderedUnion {
  import opened Prelude

  function PushNew<T(==)>(l: List<T>, x: T): List<T> {
    if Has(l, x) then l else Push(l, x)
  }

  /** The values of `a`, then those of `b` not seen before, in order of first appearance. */
  function Union<T(==)>(a: List<T>, b: List<T>): List<T>
    decreases b
  {
    if b.Nil? then a else Union(PushNew(a, b.head), b.tail)
  }

  lemma {:induction false} PushMembers<T>(l: List<T>, x: T, y: T)
    ensures Has(Push(l, x), y) <==> Has(l, y) || y == x
  {
    if l.Cons? {
      PushMembers(l.tail, x, y);
    }
  }

  lemma {:induction false} UnionMembers<T>(a: List<T>, b: List<T>, y: T)
    ensures Has(Union(a, b), y) <==> Has(a, y) || Has(b, y)
    decreases b
  {
    if b.Cons? {
      PushMembers(a, b.head, y);
      UnionMembers(PushNew(a, b.head), b.tail, y);
    }
  }

  lemma {:induction false} UnionOverPush<T>(a: List<T>, b: List<T>, x: T)
    ensures Union(a, Push(b, x)) == PushNew(Union(a, b), x)
    decreases b
  {
    if b.Cons? {
      UnionOverPush(PushNew(a, b.head), b.tail, x);
    }
  }

  lemma {:induction false} UnionOverPushNew<T>(a: List<T>, b: List<T>, x: T)
    ensures Union(a, PushNew(b, x)) == PushNew(Union(a, b), x)
  {
    UnionOverPush(a, b, x);
    UnionMembers(a, b, x);
  }

  /** Ordered union is associative on all lists, repetitions included. */
  lemma {:induction false} UnionAssociative<T>(a: List<T>, b: List<T>, c: List<T>)
    ensures Union(Union(a, b), c) == Union(a, Union(b, c))
    decreases c
  {
    if c.Cons? {
      UnionOverPushNew(a, b, c.head);
      UnionAssociative(a, PushNew(b, c.head), c.tail);
    }
  }

  lemma {:induction false} UnionOfAppend<T>(a: List<T>, b: List<T>, c: List<T>)
    ensures Union(a, Append(b, c)) == Union(Union(a, b), c)
    decreases b
  {
    if b.Cons? {
      UnionOfAppend(PushNew(a, b.head), b.tail, c);
    }
  }

  ghost predicate Subset<T>(b: List<T>, a: List<T>) {
    b.Cons? ==> Has(a, b.head) && Subset(b.tail, a)
  }

  lemma {:induction false} SubsetSelf<T>(b: List<T>, a: List<T>)
    requires forall x :: Has(b, x) ==> Has(a, x)
    ensures Subset(b, a)
  {
    if b.Cons? {
      assert Has(b, b.head);
      assert forall x :: Has(b.tail, x) ==> Has(b, x);
      SubsetSelf(b.tail, a);
    }
  }

  /** Adding values that are all there already changes nothing. */
  lemma {:induction false} UnionAbsorbs<T>(a: List<T>, b: List<T>)
    requires Subset(b, a)
    ensures Union(a, b) == a
  {
    if b.Cons? {
      UnionAbsorbs(a, b.tail);
    }
  }

  lemma {:induction false} UnionIdempotent<T>(a: List<T>)
    ensures Union(a, a) == a
  {
    SubsetSelf(a, a);
    UnionAbsorbs(a, a);
  }

  lemma {:induction false} PushKeepsDistinct<T>(l: List<T>, x: T)
    requires Distinct(l) && !Has(l, x)
    ensures Distinct(Push(l, x))
  {
    if l.Cons? {
      PushKeepsDistinct(l.tail, x);
      PushMembers(l.tail, x, l.head);
    }
  }

  lemma {:induction false} UnionKeepsDistinct<T>(a: List<T>, b: List<T>)
    requires Distinct(a)
    ensures Distinct(Union(a, b))
    decreases b
  {
    if b.Cons? {
      if !Has(a, b.head) {
        PushKeepsDistinct(a, b.head);
      }
      UnionKeepsDistinct(PushNew(a, b.head), b.tail);
    }
  }

  /** The loop of `merge_unique`. */
  method MergeUnique<T(==)>(existing: List<T>, incoming: List<T>) returns (r: List<T>)
    ensures r == Union(existing, incoming)
  {
    r := existing;
    var rest := incoming;
    while rest.Cons?
      invariant Union(r, rest) == Union(existing, incoming)
      decreases rest
    {
      if !Has(r, rest.head) {
        r := Push(r, rest.head);
      }
      rest := rest.tail;
    }
  }

  // ----- Order of first appearance -----

  /** The first position of a value, or the length of the list if it is not there. */
  function IndexOf<T(==)>(l: List<T>, x: T): nat {
    if l.Nil? || l.head == x then 0 else 1 + IndexOf(l.tail, x)
  }

  ghost predicate IsPrefix<T>(a: List<T>, l: List<T>) {
    a.Cons? ==> l.Cons? && l.head == a.head && IsPrefix(a.tail, l.tail)
  }

  lemma {:induction false} IndexFacts<T>(l: List<T>, x: T)
    ensures IndexOf(l, x) < Size(l) <==> Has(l, x)
    ensures IndexOf(l, x) <= Size(l)
  {
    if l.Cons? {
      IndexFacts(l.tail, x);
    }
  }

  lemma {:induction false} IndexAfterPush<T>(l: List<T>, y: T, x: T)
    ensures Has(l, x) ==> IndexOf(Push(l, y), x) == IndexOf(l, x)
    ensures !Has(l, x) ==> IndexOf(Push(l, y), x) == Size(l) + if x == y then 0 else 1
  {
    if l.Cons? {
      IndexAfterPush(l.tail, y, x);
    }
  }

  lemma {:induction false} PrefixOfPush<T>(l: List<T>, y: T)
    ensures IsPrefix(l, Push(l, y))
  {
    if l.Cons? {
      PrefixOfPush(l.tail, y);
    }
  }

  lemma {:induction false} PrefixTransitive<T>(a: List<T>, b: List<T>, c: List<T>)
    requires IsPrefix(a, b) && IsPrefix(b, c)
    ensures IsPrefix(a, c)
  {
    if a.Cons? {
      PrefixTransitive(a.tail, b.tail, c.tail);
    }
  }

  lemma {:induction false} PrefixSelf<T>(a: List<T>)
    ensures IsPrefix(a, a)
  {
    if a.Cons? {
      PrefixSelf(a.tail);
    }
  }

  lemma {:induction false} KnownKeepTheirPlace<T>(a: List<T>, b: List<T>, x: T)
    requires Has(a, x)
    ensures IndexOf(Union(a, b), x) == IndexOf(a, x)
    decreases b
  {
    if b.Cons? {
      IndexAfterPush(a, b.head, x);
      PushMembers(a, b.head, x);
      KnownKeepTheirPlace(PushNew(a, b.head), b.tail, x);
    }
  }

  lemma {:induction false} NewComeLater<T>(a: List<T>, b: List<T>, x: T)
    requires !Has(a, x)
    ensures IndexOf(Union(a, b), x) >= Size(a)
    decreases b
  {
    if b.Nil? {
      IndexFacts(a, x);
      NotThere(a, x);
    } else if b.head == x {
      PushMembers(a, x, x);
      IndexAfterPush(a, x, x);
      KnownKeepTheirPlace(Push(a, x), b.tail, x);
    } else {
      PushMembers(a, b.head, x);
      SizePush(a, b.head);
      NewComeLater(PushNew(a, b.head), b.tail, x);
    }
  }

  lemma {:induction false} NotThere<T>(l: List<T>, x: T)
    requires !Has(l, x)
    ensures IndexOf(l, x) == Size(l)
  {
    if l.Cons? {
      NotThere(l.tail, x);
    }
  }

  /** A union goes on from its first list, and adds the values of the second in the order they first appear there. */
  lemma {:induction false} UnionInOrder<T>(a: List<T>, b: List<T>, x: T, y: T)
    ensures IsPrefix(a, Union(a, b))
    ensures !Has(a, x) && !Has(a, y) && Has(b, x) && Has(b, y) ==>
              (IndexOf(Union(a, b), x) < IndexOf(Union(a, b), y) <==> IndexOf(b, x) < IndexOf(b, y))
    decreases b
  {
    if b.Nil? {
      PrefixSelf(a);
    } else {
      var next := PushNew(a, b.head);
      PrefixOfPush(a, b.head);
      PrefixSelf(a);
      UnionInOrder(next, b.tail, x, y);
      PrefixTransitive(a, next, Union(a, b));
      PushMembers(a, b.head, x);
      PushMembers(a, b.head, y);
      if !Has(a, x) && !Has(a, y) && Has(b, x) && Has(b, y) && x != y {
        if b.head == x {
          FirstOfNew(a, b, y);
        } else if b.head == y {
          FirstOfNew(a, b, x);
        }
      }
    }
  }

  lemma {:induction false} FirstOfNew<T>(a: List<T>, b: List<T>, y: T)
    requires b.Cons? && !Has(a, b.head) && !Has(a, y) && y != b.head
    ensures IndexOf(Union(a, b), b.head) < IndexOf(Union(a, b), y)
  {
    var next := Push(a, b.head);
    PushMembers(a, b.head, b.head);
    PushMembers(a, b.head, y);
    SizePush(a, b.head);
    IndexAfterPush(a, b.head, b.head);
    KnownKeepTheirPlace(next, b.tail, b.head);
    NewComeLater(next, b.tail, y);
  }
}
