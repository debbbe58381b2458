/**
 What normalisation makes of a list of artifacts (src/angular_meta/reactive_forms_normalize.rs), told from the
 artifacts alone: for each key, the ordered union of what they hold, in the order in which they came.
 */
module FormsNormalize {
  import opened Prelude
  import opened OrderedUnion
  import opened FormsMerge

  // ----- What an artifact holds, as a tree -----

  /** The fields of a form; a standalone field as a tree of one declaration. */
  function Tree(a: FormArtifact): List<FieldDecl> {
    match a
    case Form(_, fields) => fields
    case Field(decl) => Cons(decl, Nil)
  }

  /** Two forms of one name, or two standalone fields of one name and kind. */
  ghost predicate Alike(a: FormArtifact, b: FormArtifact) {
    match (a, b)
    case (Form(left, _), Form(right, _)) => left == right
    case (Field(left), Field(right)) =>
      && left.name == right.name
      && (left.kind.Control? <==> right.kind.Control?) && (left.kind.Group? <==> right.kind.Group?)
    case _ => false
  }

  /** The trees of the artifacts like `a`, in order. */
  ghost function TreesLike(l: List<FormArtifact>, a: FormArtifact): List<List<FieldDecl>> {
    if l.Nil? then Nil
    else if Alike(l.head, a) then Cons(Tree(l.head), TreesLike(l.tail, a))
    else TreesLike(l.tail, a)
  }

  /** The trees of `rest` merged into `first`, one after the other. */
  function MergedOnto(first: List<FieldDecl>, rest: List<List<FieldDecl>>): List<FieldDecl>
    decreases rest
  {
    if rest.Nil? then first else MergedOnto(MergeFields(first, rest.head), rest.tail)
  }

  /** A list of trees as the one tree of them all, if there is any. */
  function AsOne(trees: List<List<FieldDecl>>): List<List<FieldDecl>> {
    if trees.Nil? then Nil else Cons(MergedOnto(trees.head, trees.tail), Nil)
  }

  lemma {:induction false} MergeAlike(a: FormArtifact, b: FormArtifact, like: FormArtifact)
    ensures CompatibleArtifacts(a, b) <==> Alike(a, b)
    ensures Alike(a, b) ==> (Alike(a, like) <==> Alike(b, like))
    ensures Alike(a, b) ==> Alike(MergeArtifact(a, b), a) && Tree(MergeArtifact(a, b)) == MergeFields(Tree(a), Tree(b))
  {
    if a.Field? && b.Field? && Compatible(a.decl, b.decl) {
      var merged := Cons(MergeField(a.decl, b.decl), Nil);
      assert InsertField(Tree(a), b.decl) == merged;
      assert MergeFields(Tree(a), Tree(b)) == MergeFields(merged, Nil);
    }
  }

  lemma {:induction false} InsertLike(l: List<FormArtifact>, x: FormArtifact, a: FormArtifact)
    ensures !Alike(x, a) ==> TreesLike(InsertArtifact(l, x), a) == TreesLike(l, a)
    ensures Alike(x, a) && TreesLike(l, a).Nil? ==> TreesLike(InsertArtifact(l, x), a) == Cons(Tree(x), Nil)
    ensures Alike(x, a) && TreesLike(l, a).Cons? ==>
              var held := TreesLike(l, a);
              TreesLike(InsertArtifact(l, x), a) == Cons(MergeFields(held.head, Tree(x)), held.tail)
  {
    if l.Cons? {
      MergeAlike(l.head, x, a);
      if Alike(l.head, x) {
        MergeAlike(MergeArtifact(l.head, x), l.head, a);
      } else {
        InsertLike(l.tail, x, a);
      }
    }
  }

  lemma {:induction false} NormalizeOntoLike(done: List<FormArtifact>, l: List<FormArtifact>, a: FormArtifact)
    requires TreesLike(done, a).Cons? ==> TreesLike(done, a).tail.Nil?
    ensures TreesLike(NormalizeOnto(done, l), a) == AsOne(Append(TreesLike(done, a), TreesLike(l, a)))
    decreases l
  {
    if l.Cons? {
      InsertLike(done, l.head, a);
      NormalizeOntoLike(InsertArtifact(done, l.head), l.tail, a);
    } else {
      AppendNil(TreesLike(done, a));
    }
  }

  /**
   For every form and every standalone field, normalisation leaves one, and it holds the trees of all of that name
   and kind, merged in the order in which they came; it leaves none where there was none.
   */
  lemma {:induction false} NormalizeMergesInOrder(l: List<FormArtifact>, a: FormArtifact)
    ensures TreesLike(Normalize(l), a) == AsOne(TreesLike(l, a))
  {
    NormalizeOntoLike(Nil, l, a);
  }

  // ----- ... and what these trees hold -----

  ghost predicate AllClean(trees: List<List<FieldDecl>>) {
    trees.Cons? ==> Clean(trees.head) && AllClean(trees.tail)
  }

  /** The ordered union of the names and kinds the trees declare at a path. */
  ghost function KeysOnto(keys: List<Key>, rest: List<List<FieldDecl>>, path: List<Key>): List<Key>
    decreases rest
  {
    if rest.Nil? then keys else KeysOnto(Union(keys, Keys(Below(rest.head, path))), rest.tail, path)
  }

  /** The validators of a declaration, if it is there. */
  function Declared(t: List<FieldDecl>, path: List<Key>, k: Key): Option<List<string>> {
    match At(Below(t, path), k) case None => None case Some(f) => Some(f.validators)
  }

  /** The ordered union of the validators with which the trees declare `k`, if one does. */
  ghost function DeclaredOnto(held: Option<List<string>>, rest: List<List<FieldDecl>>, path: List<Key>, k: Key)
    : Option<List<string>>
    decreases rest
  {
    if rest.Nil? then held
    else
      var more := Declared(rest.head, path, k);
      DeclaredOnto(if held.None? then more
                   else if more.None? then held
                   else Some(Union(held.value, more.value)), rest.tail, path, k)
  }

  lemma {:induction false} MergedHolds(first: List<FieldDecl>, rest: List<List<FieldDecl>>, path: List<Key>, k: Key)
    requires AllClean(rest)
    ensures Keys(Below(MergedOnto(first, rest), path)) == KeysOnto(Keys(Below(first, path)), rest, path)
    ensures Declared(MergedOnto(first, rest), path, k) == DeclaredOnto(Declared(first, path, k), rest, path, k)
    decreases rest
  {
    if rest.Cons? {
      MergeIsPathwiseUnion(first, rest.head, path, k);
      AtFacts(Below(first, path), k);
      AtFacts(Below(rest.head, path), k);
      AtFacts(Below(MergeFields(first, rest.head), path), k);
      UnionMembers(Keys(Below(first, path)), Keys(Below(rest.head, path)), k);
      MergedHolds(MergeFields(first, rest.head), rest.tail, path, k);
    }
  }

  /**
   At every path below a form or a standalone field, normalisation leaves the ordered union of what the artifacts
   of that name and kind declare there, in order of first appearance, and so for the validators of each declaration.
   */
  lemma {:induction false} NormalizedHolds(l: List<FormArtifact>, a: FormArtifact, path: List<Key>, k: Key)
    requires TreesLike(l, a).Cons? && AllClean(TreesLike(l, a).tail)
    ensures TreesLike(Normalize(l), a).Cons?
    ensures var given, left := TreesLike(l, a), TreesLike(Normalize(l), a).head;
            && Keys(Below(left, path)) == KeysOnto(Keys(Below(given.head, path)), given.tail, path)
            && Declared(left, path, k) == DeclaredOnto(Declared(given.head, path, k), given.tail, path, k)
  {
    NormalizeMergesInOrder(l, a);
    MergedHolds(TreesLike(l, a).head, TreesLike(l, a).tail, path, k);
  }

  /** The names of a form's fields need no condition: each once more, where it first came. */
  lemma {:induction false} NormalizedNames(l: List<FormArtifact>, a: FormArtifact)
    requires TreesLike(l, a).Cons?
    ensures TreesLike(Normalize(l), a).Cons?
    ensures Keys(TreesLike(Normalize(l), a).head) == KeysOnto(Keys(TreesLike(l, a).head), TreesLike(l, a).tail, Nil)
  {
    NormalizeMergesInOrder(l, a);
    MergedNames(TreesLike(l, a).head, TreesLike(l, a).tail);
  }

  lemma {:induction false} MergedNames(first: List<FieldDecl>, rest: List<List<FieldDecl>>)
    ensures Keys(MergedOnto(first, rest)) == KeysOnto(Keys(first), rest, Nil)
    decreases rest
  {
    if rest.Cons? {
      MergeKeys(first, rest.head);
      MergedNames(MergeFields(first, rest.head), rest.tail);
    }
  }

  /** Two forms of one name: the fields of the first, then those only the second has. */
  lemma {:induction false} TwoForms(name: string, a: List<FieldDecl>, b: List<FieldDecl>)
    ensures Normalize(Cons(Form(name, a), Cons(Form(name, b), Nil))) == Cons(Form(name, MergeFields(a, b)), Nil)
    ensures Apart(a, b) && Clean(b) ==> MergeFields(a, b) == Append(a, b)
  {
    var done: List<FormArtifact> := Cons(Form(name, a), Nil);
    assert InsertArtifact(Nil, Form(name, a)) == done;
    assert InsertArtifact(done, Form(name, b)) == Cons(Form(name, MergeFields(a, b)), Nil);
    assert Normalize(Cons(Form(name, a), Cons(Form(name, b), Nil)))
        == NormalizeOnto(done, Cons(Form(name, b), Nil)) == NormalizeOnto(InsertArtifact(done, Form(name, b)), Nil);
    if Apart(a, b) && Clean(b) {
      MergeIntoNil(a, b);
    }
  }
}
