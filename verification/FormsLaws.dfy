/**
 Absorption and associativity of merging form fields (src/angular_meta/reactive_forms_normalize.rs): merging is
 associative around every tree that merging with itself does not change. `FormsWitness` has the converse.
 */
module FormsLaws {
  import opened Prelude
  import opened OrderedUnion
  import opened FormsMerge

  // ----- Declarations a tree absorbs -----

  /** Inserting `h` changes nothing. */
  ghost predicate Absorbs(l: List<FieldDecl>, h: FieldDecl) {
    InsertField(l, h) == l
  }

  ghost predicate AbsorbsAll(l: List<FieldDecl>, hs: List<FieldDecl>) {
    hs.Cons? ==> Absorbs(l, hs.head) && AbsorbsAll(l, hs.tail)
  }

  lemma {:induction false} AbsorbedMerge(l: List<FieldDecl>, hs: List<FieldDecl>)
    requires AbsorbsAll(l, hs)
    ensures MergeFields(l, hs) == l
    decreases hs
  {
    if hs.Cons? {
      AbsorbedMerge(l, hs.tail);
    }
  }

  // A merge never shrinks a tree, and only changes it by making it larger.

  function Weight(l: List<FieldDecl>): nat {
    if l.Nil? then 0 else FieldWeight(l.head) + Weight(l.tail)
  }

  function FieldWeight(f: FieldDecl): nat {
    1 + Size(f.validators) + if f.kind.Control? then 0 else Weight(f.kind.fields)
  }

  lemma {:induction false} UnionGrows<T>(a: List<T>, b: List<T>)
    ensures Size(Union(a, b)) >= Size(a)
    ensures Size(Union(a, b)) == Size(a) ==> Union(a, b) == a
    decreases b
  {
    if b.Cons? {
      SizePush(a, b.head);
      UnionGrows(PushNew(a, b.head), b.tail);
    }
  }

  lemma {:induction false} MergeFieldGrows(f: FieldDecl, g: FieldDecl)
    requires Compatible(f, g)
    ensures FieldWeight(MergeField(f, g)) >= FieldWeight(f)
    ensures FieldWeight(MergeField(f, g)) == FieldWeight(f) ==> MergeField(f, g) == f
    decreases g, 0
  {
    UnionGrows(f.validators, g.validators);
    if !g.kind.Control? {
      MergeGrows(f.kind.fields, g.kind.fields);
    }
  }

  lemma {:induction false} InsertGrows(l: List<FieldDecl>, g: FieldDecl)
    ensures Weight(InsertField(l, g)) >= Weight(l)
    ensures Weight(InsertField(l, g)) == Weight(l) ==> InsertField(l, g) == l
    decreases g, 1, l
  {
    if l.Cons? {
      if Compatible(l.head, g) {
        MergeFieldGrows(l.head, g);
      } else {
        InsertGrows(l.tail, g);
      }
    }
  }

  lemma {:induction false} MergeGrows(l: List<FieldDecl>, gs: List<FieldDecl>)
    ensures Weight(MergeFields(l, gs)) >= Weight(l)
    ensures Weight(MergeFields(l, gs)) == Weight(l) ==> MergeFields(l, gs) == l
    decreases gs, 2
  {
    if gs.Cons? {
      InsertGrows(l, gs.head);
      MergeGrows(InsertField(l, gs.head), gs.tail);
    }
  }

  lemma {:induction false} MergedAreAbsorbed(l: List<FieldDecl>, hs: List<FieldDecl>)
    requires MergeFields(l, hs) == l
    ensures AbsorbsAll(l, hs)
    decreases hs
  {
    if hs.Cons? {
      InsertGrows(l, hs.head);
      MergeGrows(InsertField(l, hs.head), hs.tail);
      MergedAreAbsorbed(l, hs.tail);
    }
  }

  lemma {:induction false} FieldAbsorbsIff(f: FieldDecl, h: FieldDecl)
    requires Compatible(f, h)
    ensures MergeField(f, h) == f
       <==> Union(f.validators, h.validators) == f.validators && AbsorbsAll(Children(f), Children(h))
  {
    if !f.kind.Control? {
      if AbsorbsAll(f.kind.fields, h.kind.fields) {
        AbsorbedMerge(f.kind.fields, h.kind.fields);
      }
      if MergeFields(f.kind.fields, h.kind.fields) == f.kind.fields {
        MergedAreAbsorbed(f.kind.fields, h.kind.fields);
      }
    }
  }

  /** The first declaration with the key decides. */
  lemma {:induction false} AbsorbsIff(l: List<FieldDecl>, h: FieldDecl)
    ensures At(l, KeyOf(h)).Some? ==> Compatible(At(l, KeyOf(h)).value, h)
    ensures Absorbs(l, h) <==> At(l, KeyOf(h)).Some? && MergeField(At(l, KeyOf(h)).value, h) == At(l, KeyOf(h)).value
  {
    if l.Cons? {
      AbsorbsIff(l.tail, h);
    }
  }

  lemma {:induction false} UnionMembersOnly<T>(a: List<T>, b: List<T>)
    ensures Union(a, b) == a <==> Subset(b, a)
    decreases b
  {
    if Subset(b, a) {
      UnionAbsorbs(a, b);
    }
    if b.Cons? && Union(a, b) == a {
      UnionMembers(a, b, b.head);
      UnionMembersOnly(a, b.tail);
    }
  }

  lemma {:induction false} SubsetOfLarger<T>(b: List<T>, a: List<T>, c: List<T>)
    requires Subset(b, a) && forall x :: Has(a, x) ==> Has(c, x)
    ensures Subset(b, c)
  {
    if b.Cons? {
      SubsetOfLarger(b.tail, a, c);
    }
  }

  /** What a list absorbs, a larger one does. */
  lemma {:induction false} UnionKeepsAbsorbing<T>(x: List<T>, a: List<T>, y: List<T>, b: List<T>)
    requires Union(a, b) == a
    ensures Union(Union(a, y), b) == Union(a, y)
    ensures Union(Union(x, a), b) == Union(x, a)
  {
    UnionMembersOnly(a, b);
    forall z | Has(a, z) ensures Has(Union(a, y), z) && Has(Union(x, a), z) {
      UnionMembers(a, y, z);
      UnionMembers(x, a, z);
    }
    SubsetOfLarger(b, a, Union(a, y));
    SubsetOfLarger(b, a, Union(x, a));
    UnionAbsorbs(Union(a, y), b);
    UnionAbsorbs(Union(x, a), b);
  }

  // Later insertions leave a declaration absorbed.

  lemma {:induction false} FieldStaysAbsorbed(f: FieldDecl, x: FieldDecl, h: FieldDecl)
    requires Compatible(f, x) && Compatible(f, h) && MergeField(f, h) == f
    ensures MergeField(MergeField(f, x), h) == MergeField(f, x)
    decreases x, 0
  {
    FieldAbsorbsIff(f, h);
    UnionKeepsAbsorbing(Nil, f.validators, x.validators, h.validators);
    if !x.kind.Control? {
      AllStayAbsorbed(f.kind.fields, x.kind.fields, h.kind.fields);
    }
    FieldAbsorbsIff(MergeField(f, x), h);
  }

  lemma {:induction false} StaysAbsorbed(l: List<FieldDecl>, x: FieldDecl, h: FieldDecl)
    requires Absorbs(l, h)
    ensures Absorbs(InsertField(l, x), h)
    decreases x, 1
  {
    var k := KeyOf(h);
    AbsorbsIff(l, h);
    AbsorbsIff(InsertField(l, x), h);
    AtInsert(l, x, k);
    if KeyOf(x) == k {
      FieldStaysAbsorbed(At(l, k).value, x, h);
    }
  }

  lemma {:induction false} AllStayAbsorbedOnce(l: List<FieldDecl>, x: FieldDecl, hs: List<FieldDecl>)
    requires AbsorbsAll(l, hs)
    ensures AbsorbsAll(InsertField(l, x), hs)
    decreases x, 2, hs
  {
    if hs.Cons? {
      StaysAbsorbed(l, x, hs.head);
      AllStayAbsorbedOnce(l, x, hs.tail);
    }
  }

  lemma {:induction false} AllStayAbsorbed(l: List<FieldDecl>, xs: List<FieldDecl>, hs: List<FieldDecl>)
    requires AbsorbsAll(l, hs)
    ensures AbsorbsAll(MergeFields(l, xs), hs)
    decreases xs, 3
  {
    if xs.Cons? {
      AllStayAbsorbedOnce(l, xs.head, hs);
      AllStayAbsorbed(InsertField(l, xs.head), xs.tail, hs);
    }
  }

  lemma {:induction false} MergeKeepsAbsorbed(l: List<FieldDecl>, xs: List<FieldDecl>, h: FieldDecl)
    requires Absorbs(l, h)
    ensures Absorbs(MergeFields(l, xs), h)
    decreases xs
  {
    if xs.Cons? {
      StaysAbsorbed(l, xs.head, h);
      MergeKeepsAbsorbed(InsertField(l, xs.head), xs.tail, h);
    }
  }

  // And so does merging the absorbing tree into another.

  lemma {:induction false} FieldAbsorbedBehind(x: FieldDecl, g: FieldDecl, h: FieldDecl)
    requires Compatible(x, g) && Compatible(g, h) && MergeField(g, h) == g
    ensures MergeField(MergeField(x, g), h) == MergeField(x, g)
    decreases g, 0
  {
    FieldAbsorbsIff(g, h);
    UnionKeepsAbsorbing(x.validators, g.validators, Nil, h.validators);
    if !g.kind.Control? {
      AllAbsorbedBehind(x.kind.fields, g.kind.fields, h.kind.fields);
    }
    FieldAbsorbsIff(MergeField(x, g), h);
  }

  lemma {:induction false} AbsorbedBehindOne(x: List<FieldDecl>, g: FieldDecl, h: FieldDecl)
    requires Compatible(g, h) && MergeField(g, h) == g
    ensures Absorbs(InsertField(x, g), h)
    decreases g, 1
  {
    AbsorbsIff(InsertField(x, g), h);
    AtInsert(x, g, KeyOf(h));
    if At(x, KeyOf(h)).Some? {
      FieldAbsorbedBehind(At(x, KeyOf(h)).value, g, h);
    }
  }

  lemma {:induction false} AbsorbedBehind(x: List<FieldDecl>, l: List<FieldDecl>, h: FieldDecl)
    requires Absorbs(l, h)
    ensures Absorbs(MergeFields(x, l), h)
    decreases l, 2
  {
    if l.Cons? {
      if Compatible(l.head, h) {
        AbsorbedBehindOne(x, l.head, h);
        MergeKeepsAbsorbed(InsertField(x, l.head), l.tail, h);
      } else {
        AbsorbedBehind(InsertField(x, l.head), l.tail, h);
      }
    }
  }

  lemma {:induction false} AllAbsorbedBehind(x: List<FieldDecl>, l: List<FieldDecl>, hs: List<FieldDecl>)
    requires AbsorbsAll(l, hs)
    ensures AbsorbsAll(MergeFields(x, l), hs)
    decreases l, 3, hs
  {
    if hs.Cons? {
      AbsorbedBehind(x, l, hs.head);
      AllAbsorbedBehind(x, l, hs.tail);
    }
  }

  // ----- Associativity around a stable tree -----

  /** Merging the tree with itself changes nothing. */
  ghost predicate Stable(l: List<FieldDecl>) {
    MergeFields(l, l) == l
  }

  ghost predicate StableField(f: FieldDecl) {
    Stable(Children(f))
  }

  /** All of the listed declarations with key `k` are absorbed. */
  ghost predicate AbsorbsKey(l: List<FieldDecl>, hs: List<FieldDecl>, k: Key) {
    hs.Cons? ==> (KeyOf(hs.head) == k ==> Absorbs(l, hs.head)) && AbsorbsKey(l, hs.tail, k)
  }

  lemma {:induction false} AbsorbsEachKey(l: List<FieldDecl>, hs: List<FieldDecl>, k: Key)
    requires AbsorbsAll(l, hs)
    ensures AbsorbsKey(l, hs, k)
  {
    if hs.Cons? {
      AbsorbsEachKey(l, hs.tail, k);
    }
  }

  lemma {:induction false} KeyStaysAbsorbed(l: List<FieldDecl>, x: FieldDecl, hs: List<FieldDecl>, k: Key)
    requires AbsorbsKey(l, hs, k)
    ensures AbsorbsKey(InsertField(l, x), hs, k)
  {
    if hs.Cons? {
      KeyStaysAbsorbed(l, x, hs.tail, k);
      if KeyOf(hs.head) == k {
        StaysAbsorbed(l, x, hs.head);
      }
    }
  }

  lemma {:induction false} TailAbsorbsKey(l: List<FieldDecl>, hs: List<FieldDecl>, k: Key)
    requires l.Cons? && KeyOf(l.head) != k && AbsorbsKey(l, hs, k)
    ensures AbsorbsKey(l.tail, hs, k)
  {
    if hs.Cons? {
      TailAbsorbsKey(l, hs.tail, k);
    }
  }

  lemma {:induction false} KeyAbsorbedBehindHead(x: List<FieldDecl>, l: List<FieldDecl>, hs: List<FieldDecl>)
    requires l.Cons? && AbsorbsKey(l, hs, KeyOf(l.head))
    ensures AbsorbsKey(InsertField(x, l.head), hs, KeyOf(l.head))
    decreases hs
  {
    if hs.Cons? {
      KeyAbsorbedBehindHead(x, l, hs.tail);
      if KeyOf(hs.head) == KeyOf(l.head) {
        AbsorbedBehindOne(x, l.head, hs.head);
      }
    }
  }

  lemma {:induction false} InsertsCommute(x: List<FieldDecl>, c: FieldDecl, b: FieldDecl)
    requires Has(Keys(x), KeyOf(c)) && KeyOf(b) != KeyOf(c)
    ensures InsertField(InsertField(x, b), c) == InsertField(InsertField(x, c), b)
  {
    if !Compatible(x.head, c) && !Compatible(x.head, b) {
      InsertsCommute(x.tail, c, b);
    }
  }

  /** A declaration whose key is there may be merged before or after `b`, if `b` adds nothing at that key. */
  lemma {:induction false} InsertPastMerge(x: List<FieldDecl>, b: List<FieldDecl>, c: FieldDecl)
    requires Has(Keys(x), KeyOf(c)) && AbsorbsKey(x, b, KeyOf(c))
    ensures InsertField(MergeFields(x, b), c) == MergeFields(InsertField(x, c), b)
    decreases b
  {
    if b.Cons? {
      InsertKeys(x, b.head);
      PushMembers(Keys(x), KeyOf(b.head), KeyOf(c));
      KeyStaysAbsorbed(x, b.head, b.tail, KeyOf(c));
      InsertPastMerge(InsertField(x, b.head), b.tail, c);
      if KeyOf(b.head) == KeyOf(c) {
        StaysAbsorbed(x, c, b.head);
      } else {
        InsertsCommute(x, c, b.head);
      }
    }
  }

  lemma {:induction false} FieldAssociative(a: FieldDecl, b: FieldDecl, c: FieldDecl)
    requires Compatible(a, b) && Compatible(b, c) && StableField(b) && CleanField(c)
    ensures MergeField(MergeField(a, b), c) == MergeField(a, MergeField(b, c))
    decreases c, 0
  {
    UnionAssociative(a.validators, b.validators, c.validators);
    if !c.kind.Control? {
      CleanIsEachClean(c.kind.fields);
      MergeAssociative(a.kind.fields, b.kind.fields, c.kind.fields);
    }
  }

  lemma {:induction false} InsertTwice(a: List<FieldDecl>, b: FieldDecl, c: FieldDecl)
    requires Compatible(b, c) && StableField(b) && CleanField(c)
    ensures InsertField(InsertField(a, b), c) == InsertField(a, MergeField(b, c))
    decreases c, 1, a
  {
    if a.Cons? {
      if Compatible(a.head, b) {
        FieldAssociative(a.head, b, c);
      } else {
        InsertTwice(a.tail, b, c);
      }
    }
  }

  lemma {:induction false} InsertAssociative(a: List<FieldDecl>, b: List<FieldDecl>, c: FieldDecl)
    requires AbsorbsKey(b, b, KeyOf(c)) && CleanField(c)
    ensures InsertField(MergeFields(a, b), c) == MergeFields(a, InsertField(b, c))
    decreases c, 2, b
  {
    if b.Cons? {
      if Compatible(b.head, c) {
        FieldAbsorbsIff(b.head, b.head);
        AbsorbedMerge(Children(b.head), Children(b.head));
        InsertKeys(a, b.head);
        PushMembers(Keys(a), KeyOf(b.head), KeyOf(c));
        KeyAbsorbedBehindHead(a, b, b.tail);
        InsertPastMerge(InsertField(a, b.head), b.tail, c);
        InsertTwice(a, b.head, c);
      } else {
        TailAbsorbsKey(b, b.tail, KeyOf(c));
        InsertAssociative(InsertField(a, b.head), b.tail, c);
      }
    }
  }

  // A clean declaration leaves a stable tree stable.

  lemma {:induction false} ElementsAbsorbed(whole: List<FieldDecl>, l: List<FieldDecl>, c: FieldDecl)
    requires AbsorbsAll(whole, l)
    requires Absorbs(whole, if At(l, KeyOf(c)).Some? && Compatible(At(l, KeyOf(c)).value, c)
                            then MergeField(At(l, KeyOf(c)).value, c) else c)
    ensures AbsorbsAll(whole, InsertField(l, c))
  {
    AtFacts(l, KeyOf(c));
    if l.Cons? && !Compatible(l.head, c) {
      ElementsAbsorbed(whole, l.tail, c);
    }
  }

  lemma {:induction false} FirstIsStable(l: List<FieldDecl>, hs: List<FieldDecl>, k: Key)
    requires AbsorbsAll(l, hs) && At(hs, k).Some?
    ensures Absorbs(l, At(hs, k).value)
  {
    if KeyOf(hs.head) != k {
      FirstIsStable(l, hs.tail, k);
    }
  }

  lemma {:induction false} MergeFieldStaysStable(f: FieldDecl, c: FieldDecl)
    requires Compatible(f, c) && MergeField(f, f) == f && CleanField(c)
    ensures MergeField(MergeField(f, c), MergeField(f, c)) == MergeField(f, c)
    decreases c, 0
  {
    var m := MergeField(f, c);
    UnionIdempotent(m.validators);
    FieldAbsorbsIff(f, f);
    if !c.kind.Control? {
      AbsorbedMerge(f.kind.fields, f.kind.fields);
      CleanIsEachClean(c.kind.fields);
      MergeStaysStable(f.kind.fields, c.kind.fields);
    }
  }

  lemma {:induction false} InsertStaysStable(b: List<FieldDecl>, c: FieldDecl)
    requires Stable(b) && CleanField(c)
    ensures Stable(InsertField(b, c))
    decreases c, 1
  {
    var k, after := KeyOf(c), InsertField(b, c);
    MergedAreAbsorbed(b, b);
    AllStayAbsorbedOnce(b, c, b);
    AtInsert(b, c, k);
    var m := At(after, k).value;
    if At(b, k).Some? {
      var f := At(b, k).value;
      FirstIsStable(b, b, k);
      AtFacts(b, k);
      AbsorbsIff(b, f);
      MergeFieldStaysStable(f, c);
    } else {
      MergeFieldSelf(c);
    }
    AtFacts(after, k);
    AbsorbsIff(after, m);
    ElementsAbsorbed(after, b, c);
    AbsorbedMerge(after, after);
  }

  lemma {:induction false} MergeStaysStable(b: List<FieldDecl>, c: List<FieldDecl>)
    requires Stable(b) && EachClean(c)
    ensures Stable(MergeFields(b, c))
    decreases c, 2
  {
    if c.Cons? {
      InsertStaysStable(b, c.head);
      MergeStaysStable(InsertField(b, c.head), c.tail);
    }
  }

  /**
   Merging is associative as soon as the middle tree is stable, and each declaration of the last is
   hereditarily duplicate-free; nothing is asked of the first.
   */
  lemma {:induction false} MergeAssociative(a: List<FieldDecl>, b: List<FieldDecl>, c: List<FieldDecl>)
    requires Stable(b) && EachClean(c)
    ensures MergeFields(MergeFields(a, b), c) == MergeFields(a, MergeFields(b, c))
    decreases c, 3
  {
    if c.Cons? {
      MergedAreAbsorbed(b, b);
      AbsorbsEachKey(b, b, KeyOf(c.head));
      InsertAssociative(a, b, c.head);
      InsertStaysStable(b, c.head);
      MergeAssociative(a, InsertField(b, c.head), c.tail);
    }
  }

  /** In particular, hereditarily duplicate-free trees merge associatively. */
  lemma {:induction false} CleanTreesAssociate(a: List<FieldDecl>, b: List<FieldDecl>, c: List<FieldDecl>)
    requires Clean(b) && EachClean(c)
    ensures MergeFields(MergeFields(a, b), c) == MergeFields(a, MergeFields(b, c))
  {
    MergeSelf(b);
    MergeAssociative(a, b, c);
  }
}
