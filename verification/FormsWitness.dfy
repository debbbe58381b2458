/**
 Merging form fields (src/angular_meta/reactive_forms_normalize.rs) is associative around no other trees: for every
 tree that merging with itself changes, a first and a last tree are built on which the law fails.
 */
module FormsWitness {
  import opened Prelude
  import opened OrderedUnion
  import opened FormsMerge
  import opened FormsLaws

  // ----- What declarations with one key bring in, and when -----

  lemma {:induction false} MergeAppend(a: List<FieldDecl>, b: List<FieldDecl>, c: List<FieldDecl>)
    ensures MergeFields(a, Append(b, c)) == MergeFields(MergeFields(a, b), c)
    decreases b
  {
    if b.Cons? {
      MergeAppend(InsertField(a, b.head), b.tail, c);
    }
  }

  /** The children of all declarations with a key, in order. */
  function KidsAt(l: List<FieldDecl>, k: Key): List<FieldDecl> {
    if l.Nil? then Nil
    else if KeyOf(l.head) == k then Append(Children(l.head), KidsAt(l.tail, k))
    else KidsAt(l.tail, k)
  }

  /** Their validators. */
  function ValuesAt(l: List<FieldDecl>, k: Key): List<string> {
    if l.Nil? then Nil
    else if KeyOf(l.head) == k then Append(l.head.validators, ValuesAt(l.tail, k))
    else ValuesAt(l.tail, k)
  }

  /** What follows the first declaration with a key. */
  function AfterFirst(l: List<FieldDecl>, k: Key): List<FieldDecl> {
    if l.Nil? then Nil else if KeyOf(l.head) == k then l.tail else AfterFirst(l.tail, k)
  }

  lemma {:induction false} SplitAtFirst(l: List<FieldDecl>, k: Key)
    requires At(l, k).Some?
    ensures KidsAt(l, k) == Append(Children(At(l, k).value), KidsAt(AfterFirst(l, k), k))
    ensures ValuesAt(l, k) == Append(At(l, k).value.validators, ValuesAt(AfterFirst(l, k), k))
  {
    if KeyOf(l.head) != k {
      SplitAtFirst(l.tail, k);
    }
  }

  lemma {:induction false} AfterFirstInserted(l: List<FieldDecl>, g: FieldDecl)
    requires At(l, KeyOf(g)).Some?
    ensures AfterFirst(InsertField(l, g), KeyOf(g)) == AfterFirst(l, KeyOf(g))
  {
    if KeyOf(l.head) != KeyOf(g) {
      AfterFirstInserted(l.tail, g);
    }
  }

  lemma {:induction false} AtOfAppend(a: List<FieldDecl>, b: List<FieldDecl>, k: Key)
    ensures KidsAt(Append(a, b), k) == Append(KidsAt(a, k), KidsAt(b, k))
    ensures ValuesAt(Append(a, b), k) == Append(ValuesAt(a, k), ValuesAt(b, k))
  {
    if a.Cons? {
      AtOfAppend(a.tail, b, k);
      if KeyOf(a.head) == k {
        AppendAssociative(Children(a.head), KidsAt(a.tail, k), KidsAt(b, k));
        AppendAssociative(a.head.validators, ValuesAt(a.tail, k), ValuesAt(b, k));
      }
    }
  }

  /** A declaration that is there collects, in order, the children and validators of all that follow. */
  lemma {:induction false} MergeCollects(x: List<FieldDecl>, y: List<FieldDecl>, k: Key)
    requires At(x, k).Some?
    ensures At(MergeFields(x, y), k).Some?
    ensures Children(At(MergeFields(x, y), k).value) == MergeFields(Children(At(x, k).value), KidsAt(y, k))
    ensures At(MergeFields(x, y), k).value.validators == Union(At(x, k).value.validators, ValuesAt(y, k))
    decreases y
  {
    if y.Cons? {
      AtInsert(x, y.head, k);
      MergeCollects(InsertField(x, y.head), y.tail, k);
      if KeyOf(y.head) == k {
        var f := At(x, k).value;
        MergeAppend(Children(f), Children(y.head), KidsAt(y.tail, k));
        UnionOfAppend(f.validators, y.head.validators, ValuesAt(y.tail, k));
      }
    }
  }

  /** A declaration without validators, with the given children if it has any. */
  function Shell(k: Key, kids: List<FieldDecl>, validators: List<string>): (f: FieldDecl)
    ensures KeyOf(f) == k && f.validators == validators
    ensures k.tag != ControlTag ==> Children(f) == kids
  {
    FieldDecl(k.name, match k.tag case ControlTag => Control case GroupTag => Group(kids)
        case ArrayTag => Array(kids), validators)
  }

  function Only(f: FieldDecl): List<FieldDecl> {
    Cons(f, Nil)
  }

  /** Both sides of the law at the key of `g`, started from a shell. */
  lemma {:induction false} SidesAtKey(p: List<FieldDecl>, r: List<FieldDecl>, s: FieldDecl, g: FieldDecl)
    requires KeyOf(s) == KeyOf(g) && At(p, KeyOf(g)).Some?
    ensures var k, f := KeyOf(g), At(p, KeyOf(g)).value;
            var rest := Append(AfterFirst(p, k), r);
            var left := MergeFields(MergeFields(Only(s), Append(p, r)), Only(g));
            var right := MergeFields(MergeFields(Only(s), MergeFields(p, Only(g))), r);
            && Compatible(f, g) && At(left, k).Some? && At(right, k).Some?
            && Children(At(left, k).value)
               == MergeFields(MergeFields(MergeFields(Children(s), Children(f)), KidsAt(rest, k)), Children(g))
            && Children(At(right, k).value)
               == MergeFields(MergeFields(Children(s), Children(MergeField(f, g))), KidsAt(rest, k))
            && At(left, k).value.validators
               == Union(Union(Union(s.validators, f.validators), ValuesAt(rest, k)), g.validators)
            && At(right, k).value.validators
               == Union(Union(s.validators, Union(f.validators, g.validators)), ValuesAt(rest, k))
  {
    var k, f := KeyOf(g), At(p, KeyOf(g)).value;
    var rest := Append(AfterFirst(p, k), r);
    AtInsert(p, g, k);
    LeftAtKey(p, r, s, g);
    RightAtKey(p, r, s, g);
  }

  lemma {:induction false} LeftAtKey(p: List<FieldDecl>, r: List<FieldDecl>, s: FieldDecl, g: FieldDecl)
    requires KeyOf(s) == KeyOf(g) && At(p, KeyOf(g)).Some?
    ensures var k, f := KeyOf(g), At(p, KeyOf(g)).value;
            var rest := Append(AfterFirst(p, k), r);
            var left := MergeFields(MergeFields(Only(s), Append(p, r)), Only(g));
            && At(left, k).Some?
            && Children(At(left, k).value)
               == MergeFields(MergeFields(MergeFields(Children(s), Children(f)), KidsAt(rest, k)), Children(g))
            && At(left, k).value.validators
               == Union(Union(Union(s.validators, f.validators), ValuesAt(rest, k)), g.validators)
  {
    var k, f := KeyOf(g), At(p, KeyOf(g)).value;
    var rest := Append(AfterFirst(p, k), r);
    var inner := MergeFields(Only(s), Append(p, r));
    SplitAtFirst(p, k);
    AtOfAppend(p, r, k);
    AtOfAppend(AfterFirst(p, k), r, k);
    AppendAssociative(Children(f), KidsAt(AfterFirst(p, k), k), KidsAt(r, k));
    AppendAssociative(f.validators, ValuesAt(AfterFirst(p, k), k), ValuesAt(r, k));
    MergeCollects(Only(s), Append(p, r), k);
    MergeAppend(Children(s), Children(f), KidsAt(rest, k));
    UnionOfAppend(s.validators, f.validators, ValuesAt(rest, k));
    MergeCollects(inner, Only(g), k);
    AppendNil(Children(g));
    AppendNil(g.validators);
  }

  lemma {:induction false} RightAtKey(p: List<FieldDecl>, r: List<FieldDecl>, s: FieldDecl, g: FieldDecl)
    requires KeyOf(s) == KeyOf(g) && At(p, KeyOf(g)).Some? && Compatible(At(p, KeyOf(g)).value, g)
    ensures var k, f := KeyOf(g), At(p, KeyOf(g)).value;
            var rest := Append(AfterFirst(p, k), r);
            var right := MergeFields(MergeFields(Only(s), MergeFields(p, Only(g))), r);
            && At(right, k).Some?
            && Children(At(right, k).value)
               == MergeFields(MergeFields(Children(s), Children(MergeField(f, g))), KidsAt(rest, k))
            && At(right, k).value.validators
               == Union(Union(s.validators, Union(f.validators, g.validators)), ValuesAt(rest, k))
  {
    var k, f := KeyOf(g), At(p, KeyOf(g)).value;
    var rest, m := Append(AfterFirst(p, k), r), MergeField(f, g);
    var after := InsertField(p, g);
    assert MergeFields(p, Only(g)) == after;
    AtInsert(p, g, k);
    AfterFirstInserted(p, g);
    SplitAtFirst(after, k);
    AtOfAppend(AfterFirst(p, k), r, k);
    var inner := MergeFields(Only(s), after);
    MergeCollects(Only(s), after, k);
    MergeCollects(inner, r, k);
    MergeAppend(Children(s), Children(m), KidsAt(AfterFirst(p, k), k));
    MergeAppend(MergeFields(Children(s), Children(m)), KidsAt(AfterFirst(p, k), k), KidsAt(r, k));
    UnionOfAppend(s.validators, m.validators, ValuesAt(AfterFirst(p, k), k));
    UnionOfAppend(Union(s.validators, m.validators), ValuesAt(AfterFirst(p, k), k), ValuesAt(r, k));
  }

  // A value that arrives last is last, unless something else arrives later.

  function Last<T>(l: List<T>): T
    requires l.Cons?
  {
    if l.tail.Nil? then l.head else Last(l.tail)
  }

  lemma {:induction false} LastPushed<T>(l: List<T>, x: T)
    ensures Push(l, x).Cons? && Last(Push(l, x)) == x
  {
    if l.Cons? {
      LastPushed(l.tail, x);
    }
  }

  lemma {:induction false} LastOfUnion<T>(a: List<T>, b: List<T>)
    requires !Subset(b, a)
    ensures Union(a, b).Cons? && !Has(a, Last(Union(a, b)))
    decreases b
  {
    var next := PushNew(a, b.head);
    if Subset(b.tail, next) {
      UnionAbsorbs(next, b.tail);
      LastPushed(a, b.head);
      if Has(a, b.head) {
        assert false;
      }
    } else {
      LastOfUnion(next, b.tail);
      PushMembers(a, b.head, Last(Union(next, b.tail)));
    }
  }

  lemma {:induction false} SubsetMeans<T>(b: List<T>, a: List<T>, x: T)
    requires Subset(b, a) && Has(b, x)
    ensures Has(a, x)
  {
    if b.head != x {
      SubsetMeans(b.tail, a, x);
    }
  }

  /** Two orders of arrival of a fresh value `w` differ, if `v` brings something new after the first list. */
  lemma {:induction false} ArrivalShows<T>(s: List<T>, f: List<T>, v: List<T>, w: T)
    requires !Subset(v, Union(s, f)) && !Has(Union(s, f), w) && !Has(v, w)
    ensures Union(Union(Union(s, f), v), Cons(w, Nil)) != Union(Union(s, Union(f, Cons(w, Nil))), v)
  {
    var early, late := Union(s, Union(f, Cons(w, Nil))), Union(Union(s, f), v);
    UnionMembers(Union(s, f), v, w);
    LastPushed(late, w);
    assert Union(late, Cons(w, Nil)) == Push(late, w);
    UnionMembers(f, Cons(w, Nil), w);
    UnionMembers(s, Union(f, Cons(w, Nil)), w);
    if Subset(v, early) {
      StillNotSubset(v, s, f, w);
    }
    LastOfUnion(early, v);
  }

  lemma {:induction false} StillNotSubset<T>(v: List<T>, s: List<T>, f: List<T>, w: T)
    requires !Has(v, w) && Subset(v, Union(s, Union(f, Cons(w, Nil))))
    ensures Subset(v, Union(s, f))
  {
    if v.Cons? {
      var x := v.head;
      UnionMembers(s, Union(f, Cons(w, Nil)), x);
      UnionMembers(f, Cons(w, Nil), x);
      UnionMembers(s, f, x);
      StillNotSubset(v.tail, s, f, w);
    }
  }

  // ----- An input at which the law fails, for every unstable tree -----

  /** Longer than every listed string, so none of them. */
  function Longer(l: List<string>): (w: string)
    ensures forall x :: Has(l, x) ==> |x| < |w|
  {
    if l.Nil? then "" else if |l.head| < |Longer(l.tail)| then Longer(l.tail) else l.head + "x"
  }

  function NamesOf(l: List<FieldDecl>): List<string> {
    if l.Nil? then Nil else Cons(l.head.name, NamesOf(l.tail))
  }

  lemma {:induction false} FreshKey(l: List<FieldDecl>, w: string)
    requires !Has(NamesOf(l), w)
    ensures !Has(Keys(l), Key(w, ControlTag))
  {
    if l.Cons? {
      FreshKey(l.tail, w);
    }
  }

  lemma {:induction false} NotAbsorbed(l: List<FieldDecl>, hs: List<FieldDecl>) returns (h: FieldDecl)
    requires !AbsorbsAll(l, hs)
    ensures Among(h, hs) && !Absorbs(l, h)
  {
    if Absorbs(l, hs.head) {
      h := NotAbsorbed(l, hs.tail);
    } else {
      h := hs.head;
    }
  }

  lemma {:induction false} AbsorbsAppend(l: List<FieldDecl>, a: List<FieldDecl>, b: List<FieldDecl>)
    ensures AbsorbsAll(l, Append(a, b)) <==> AbsorbsAll(l, a) && AbsorbsAll(l, b)
  {
    if a.Cons? {
      AbsorbsAppend(l, a.tail, b);
    }
  }

  lemma {:induction false} SubsetAppend<T>(a: List<T>, b: List<T>, c: List<T>)
    ensures Subset(Append(a, b), c) <==> Subset(a, c) && Subset(b, c)
  {
    if a.Cons? {
      SubsetAppend(a.tail, b, c);
    }
  }

  lemma {:induction false} PartsOfAll(l: List<FieldDecl>, h: FieldDecl, kids: List<FieldDecl>, values: List<string>)
    requires Among(h, l)
    ensures AbsorbsAll(kids, KidsAt(l, KeyOf(h))) ==> AbsorbsAll(kids, Children(h))
    ensures Subset(ValuesAt(l, KeyOf(h)), values) ==> Subset(h.validators, values)
  {
    if KeyOf(l.head) == KeyOf(h) {
      AbsorbsAppend(kids, Children(l.head), KidsAt(l.tail, KeyOf(h)));
      SubsetAppend(l.head.validators, ValuesAt(l.tail, KeyOf(h)), values);
    }
    if l.head != h {
      PartsOfAll(l.tail, h, kids, values);
    }
  }

  lemma {:induction false} AllAtKey(p: List<FieldDecl>, r: List<FieldDecl>, k: Key)
    requires At(p, k).Some?
    ensures var f, rest := At(p, k).value, Append(AfterFirst(p, k), r);
            && KidsAt(Append(p, r), k) == Append(Children(f), KidsAt(rest, k))
            && ValuesAt(Append(p, r), k) == Append(f.validators, ValuesAt(rest, k))
  {
    var f := At(p, k).value;
    SplitAtFirst(p, k);
    AtOfAppend(p, r, k);
    AtOfAppend(AfterFirst(p, k), r, k);
    AppendAssociative(Children(f), KidsAt(AfterFirst(p, k), k), KidsAt(r, k));
    AppendAssociative(f.validators, ValuesAt(AfterFirst(p, k), k), ValuesAt(r, k));
  }

  lemma {:induction false} WeightAppend(a: List<FieldDecl>, b: List<FieldDecl>)
    ensures Weight(Append(a, b)) == Weight(a) + Weight(b)
  {
    if a.Cons? {
      WeightAppend(a.tail, b);
    }
  }

  lemma {:induction false} KidsAreLighter(l: List<FieldDecl>, k: Key)
    ensures Weight(KidsAt(l, k)) <= Weight(l)
    ensures Has(Keys(l), k) ==> Weight(KidsAt(l, k)) < Weight(l)
  {
    if l.Cons? {
      KidsAreLighter(l.tail, k);
      WeightAppend(Children(l.head), KidsAt(l.tail, k));
    }
  }

  lemma {:induction false} KeysAppend(a: List<FieldDecl>, b: List<FieldDecl>)
    ensures Keys(Append(a, b)) == Append(Keys(a), Keys(b))
  {
    if a.Cons? {
      KeysAppend(a.tail, b);
    }
  }

  lemma {:induction false} AmongAppend(h: FieldDecl, a: List<FieldDecl>, b: List<FieldDecl>)
    ensures Among(h, Append(a, b)) <==> Among(h, a) || Among(h, b)
  {
    if a.Cons? {
      AmongAppend(h, a.tail, b);
    }
  }

  /** The law around `p`, with declarations `r` still to be merged after it. */
  ghost predicate FailsAround(a: List<FieldDecl>, p: List<FieldDecl>, r: List<FieldDecl>, c: List<FieldDecl>) {
    MergeFields(MergeFields(a, Append(p, r)), c) != MergeFields(MergeFields(a, MergeFields(p, c)), r)
  }

  lemma {:induction false} NewKeyShows(p: List<FieldDecl>, r: List<FieldDecl>, k: Key) returns (c: List<FieldDecl>)
    requires Has(Keys(r), k) && !Has(Keys(p), k)
    ensures Clean(c) && FailsAround(Nil, p, r, c)
  {
    var w := Longer(NamesOf(Append(p, r)));
    var z := Key(w, ControlTag);
    c := Only(FieldDecl(w, Control, Nil));
    FreshKey(Append(p, r), w);
    KeysAppend(p, r);
    HasAppend(Keys(p), Keys(r), z);
    UnionMembers(Nil, Keys(p), k);
    UnionMembers(Nil, Keys(p), z);
    if Subset(Keys(r), Union(Nil, Keys(p))) {
      SubsetMeans(Keys(r), Union(Nil, Keys(p)), k);
      assert false;
    }
    ArrivalShows(Nil, Keys(p), Keys(r), z);
    assert Keys(c) == Cons(z, Nil);
    MergeKeys(Nil, Append(p, r));
    UnionOfAppend(Nil, Keys(p), Keys(r));
    MergeKeys(MergeFields(Nil, Append(p, r)), c);
    MergeKeys(p, c);
    MergeKeys(Nil, MergeFields(p, c));
    MergeKeys(MergeFields(Nil, MergeFields(p, c)), r);
  }

  lemma {:induction false} NewValueShows(p: List<FieldDecl>, r: List<FieldDecl>, h: FieldDecl)
          returns (a: List<FieldDecl>, c: List<FieldDecl>)
    requires Among(h, Append(p, r)) && At(p, KeyOf(h)).Some?
    requires !Subset(h.validators, At(p, KeyOf(h)).value.validators)
    ensures Clean(c) && FailsAround(a, p, r, c)
  {
    var k := KeyOf(h);
    var f, rest := At(p, k).value, Append(AfterFirst(p, k), r);
    var values := ValuesAt(rest, k);
    var w := Longer(ValuesAt(Append(p, r), k));
    var s, g := Shell(k, Nil, Nil), Shell(k, Nil, Cons(w, Nil));
    a, c := Only(s), Only(g);
    AllAtKey(p, r, k);
    PartsOfAll(Append(p, r), h, Nil, f.validators);
    SubsetAppend(f.validators, values, f.validators);
    SubsetSelf(f.validators, f.validators);
    HasAppend(f.validators, values, w);
    UnionMembers(Nil, f.validators, w);
    if Subset(values, Union(Nil, f.validators)) {
      forall x | Has(Union(Nil, f.validators), x) ensures Has(f.validators, x) {
        UnionMembers(Nil, f.validators, x);
      }
      SubsetOfLarger(values, Union(Nil, f.validators), f.validators);
      assert false;
    }
    ArrivalShows(Nil, f.validators, values, w);
    SidesAtKey(p, r, s, g);
  }

  lemma {:induction false} Witness(p: List<FieldDecl>, r: List<FieldDecl>)
          returns (a: List<FieldDecl>, c: List<FieldDecl>)
    requires !AbsorbsAll(p, Append(p, r))
    ensures Clean(c) && FailsAround(a, p, r, c)
    decreases Weight(Append(p, r))
  {
    var h := NotAbsorbed(p, Append(p, r));
    var k := KeyOf(h);
    AtFacts(p, k);
    AbsorbsIff(p, h);
    AmongAppend(h, p, r);
    if At(p, k).None? {
      if Among(h, p) {
        AmongHasKey(h, p);
        assert false;
      }
      AmongHasKey(h, r);
      a := Nil;
      c := NewKeyShows(p, r, k);
      return;
    }
    var f, rest := At(p, k).value, Append(AfterFirst(p, k), r);
    FieldAbsorbsIff(f, h);
    UnionMembersOnly(f.validators, h.validators);
    if !Subset(h.validators, f.validators) {
      a, c := NewValueShows(p, r, h);
      return;
    }
    AllAtKey(p, r, k);
    PartsOfAll(Append(p, r), h, Children(f), Nil);
    KeysAppend(p, r);
    HasAppend(Keys(p), Keys(r), k);
    KidsAreLighter(Append(p, r), k);
    var kids, added := Witness(Children(f), KidsAt(rest, k));
    var s, g := Shell(k, kids, Nil), Shell(k, added, Nil);
    a, c := Only(s), Only(g);
    MergeAppend(kids, Children(f), KidsAt(rest, k));
    SidesAtKey(p, r, s, g);
    assert Children(MergeField(f, g)) == MergeFields(Children(f), added);
  }

  /** Merging is associative around `b`, for every first tree and every last one of clean declarations. */
  ghost predicate Associates(b: List<FieldDecl>) {
    forall a, c :: EachClean(c) ==> AssociatesAt(a, b, c)
  }

  ghost predicate AssociatesAt(a: List<FieldDecl>, b: List<FieldDecl>, c: List<FieldDecl>) {
    MergeFields(MergeFields(a, b), c) == MergeFields(a, MergeFields(b, c))
  }

  /** Exactly around the trees that merging with themselves does not change. */
  lemma {:induction false} AssociativeIffStable(b: List<FieldDecl>)
    ensures Associates(b) <==> MergeFields(b, b) == b
  {
    if Stable(b) {
      forall a, c | EachClean(c) ensures AssociatesAt(a, b, c) {
        MergeAssociative(a, b, c);
      }
    } else {
      AppendNil(b);
      if AbsorbsAll(b, b) {
        AbsorbedMerge(b, b);
        assert false;
      }
      var a, c := Witness(b, Nil);
      CleanIsEachClean(c);
      assert !AssociatesAt(a, b, c);
    }
  }

  /** A repeated name with something new breaks the law: the order in which evidence arrives shows. */
  lemma {:induction false} AssociativityNeedsCleanMiddle()
    ensures exists a, b, c :: Clean(a) && EachClean(b) && Clean(c)
              && MergeFields(MergeFields(a, b), c) != MergeFields(a, MergeFields(b, c))
  {
    var a := Cons(FieldDecl("x", Control, Nil), Nil);
    var b := Cons(FieldDecl("x", Control, Nil), Cons(FieldDecl("x", Control, Cons("min", Nil)), Nil));
    var c := Cons(FieldDecl("x", Control, Cons("max", Nil)), Nil);
    var min, max: List<string> := Cons("min", Nil), Cons("max", Nil);
    assert MergeFields(a, b) == Cons(FieldDecl("x", Control, min), Nil);
    assert MergeFields(MergeFields(a, b), c).head.validators == Cons("min", max);
    assert MergeFields(b, c) == Cons(FieldDecl("x", Control, max), b.tail);
    assert MergeFields(a, MergeFields(b, c)).head.validators == Cons("max", min);
  }
}
