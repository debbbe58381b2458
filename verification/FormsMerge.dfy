/**
 Normalisation of reconstructed reactive-form artifacts
 (src/angular_meta/reactive_forms_normalize.rs): a mutually recursive merge of ordered field trees.
 */
module FormsMerge {
  import opened Prelude
  import opened OrderedUnion

  datatype FieldKind = Control | Group(fields: List<FieldDecl>) | Array(fields: List<FieldDecl>)
  datatype FieldDecl = FieldDecl(name: string, kind: FieldKind, validators: List<string>)

  datatype Tag = ControlTag | GroupTag | ArrayTag
  /** What two declarations must share to be merged. */
  datatype Key = Key(name: string, tag: Tag)

  function TagOf(k: FieldKind): Tag {
    match k
    case Control => ControlTag
    case Group(_) => GroupTag
    case Array(_) => ArrayTag
  }

  predicate SameFieldKind(left: FieldKind, right: FieldKind) {
    TagOf(left) == TagOf(right)
  }

  function KeyOf(f: FieldDecl): Key {
    Key(f.name, TagOf(f.kind))
  }

  predicate Compatible(current: FieldDecl, field: FieldDecl) {
    current.name == field.name && SameFieldKind(current.kind, field.kind)
  }

  /** Merging `field` into the first compatible declaration, or appending it. */
  function InsertField(existing: List<FieldDecl>, field: FieldDecl): List<FieldDecl>
    decreases field, 1, existing
  {
    if existing.Nil? then Cons(field, Nil)
    else if Compatible(existing.head, field) then Cons(MergeField(existing.head, field), existing.tail)
    else Cons(existing.head, InsertField(existing.tail, field))
  }

  function MergeField(existing: FieldDecl, incoming: FieldDecl): (r: FieldDecl)
    requires Compatible(existing, incoming)
    ensures KeyOf(r) == KeyOf(existing) == KeyOf(incoming)
    decreases incoming, 0
  {
    FieldDecl(existing.name, MergeKind(existing.kind, incoming.kind), Union(existing.validators, incoming.validators))
  }

  function MergeKind(existing: FieldKind, incoming: FieldKind): (r: FieldKind)
    requires SameFieldKind(existing, incoming)
    ensures SameFieldKind(existing, r)
    decreases incoming, 0
  {
    match existing
    case Control => Control
    case Group(left) => Group(MergeFields(left, incoming.fields))
    case Array(left) => Array(MergeFields(left, incoming.fields))
  }

  function MergeFields(existing: List<FieldDecl>, incoming: List<FieldDecl>): List<FieldDecl>
    decreases incoming, 2
  {
    if incoming.Nil? then existing
    else MergeFields(InsertField(existing, incoming.head), incoming.tail)
  }

  /** The loop of `merge_fields`. */
  method MergeFieldsLoop(existing: List<FieldDecl>, incoming: List<FieldDecl>) returns (r: List<FieldDecl>)
    ensures r == MergeFields(existing, incoming)
  {
    r := existing;
    var rest := incoming;
    while rest.Cons?
      invariant MergeFields(r, rest) == MergeFields(existing, incoming)
      decreases rest
    {
      r := InsertField(r, rest.head);
      rest := rest.tail;
    }
  }

  // ----- First-appearance order -----

  function Keys(l: List<FieldDecl>): List<Key> {
    if l.Nil? then Nil else Cons(KeyOf(l.head), Keys(l.tail))
  }

  lemma {:induction false} InsertKeys(a: List<FieldDecl>, f: FieldDecl)
    ensures Keys(InsertField(a, f)) == PushNew(Keys(a), KeyOf(f))
  {
    if a.Cons? {
      InsertKeys(a.tail, f);
    }
  }

  /** The keys of a merge are those of both lists, in order of first appearance. */
  lemma {:induction false} MergeKeys(a: List<FieldDecl>, b: List<FieldDecl>)
    ensures Keys(MergeFields(a, b)) == Union(Keys(a), Keys(b))
    decreases b
  {
    if b.Cons? {
      InsertKeys(a, b.head);
      MergeKeys(InsertField(a, b.head), b.tail);
    }
  }

  // ----- Hereditarily duplicate-free trees -----

  ghost predicate CleanField(f: FieldDecl) {
    f.kind.Control? || Clean(f.kind.fields)
  }

  /** Every declaration in the list is hereditarily duplicate-free. */
  ghost predicate EachClean(l: List<FieldDecl>) {
    l.Cons? ==> CleanField(l.head) && EachClean(l.tail)
  }

  /** No two declarations at one level of the tree share name and kind. */
  ghost predicate Clean(l: List<FieldDecl>) {
    l.Cons? ==> !Has(Keys(l.tail), KeyOf(l.head)) && CleanField(l.head) && Clean(l.tail)
  }

  lemma {:induction false} InsertKeepsClean(a: List<FieldDecl>, f: FieldDecl)
    requires Clean(a) && CleanField(f)
    ensures Clean(InsertField(a, f))
    decreases f, 1, a
  {
    if a.Cons? {
      if Compatible(a.head, f) {
        MergeFieldKeepsClean(a.head, f);
      } else {
        InsertKeepsClean(a.tail, f);
        InsertKeys(a.tail, f);
        PushMembers(Keys(a.tail), KeyOf(f), KeyOf(a.head));
      }
    }
  }

  lemma {:induction false} MergeFieldKeepsClean(a: FieldDecl, f: FieldDecl)
    requires Compatible(a, f) && CleanField(a) && CleanField(f)
    ensures CleanField(MergeField(a, f))
    decreases f, 0
  {
    if !f.kind.Control? {
      CleanIsEachClean(f.kind.fields);
      MergeKeepsClean(a.kind.fields, f.kind.fields);
    }
  }

  lemma {:induction false} CleanIsEachClean(l: List<FieldDecl>)
    requires Clean(l)
    ensures EachClean(l)
  {
    if l.Cons? {
      CleanIsEachClean(l.tail);
    }
  }

  /** Merging into a duplicate-free tree leaves it duplicate-free, even if the incoming list repeats itself. */
  lemma {:induction false} MergeKeepsClean(a: List<FieldDecl>, b: List<FieldDecl>)
    requires Clean(a) && EachClean(b)
    ensures Clean(MergeFields(a, b))
    decreases b, 2
  {
    if b.Cons? {
      InsertKeepsClean(a, b.head);
      MergeKeepsClean(InsertField(a, b.head), b.tail);
    }
  }

  // ----- Merging a tree with itself -----

  ghost predicate Among(f: FieldDecl, a: List<FieldDecl>) {
    a.Cons? && (a.head == f || Among(f, a.tail))
  }

  lemma {:induction false} AmongHasKey(f: FieldDecl, a: List<FieldDecl>)
    requires Among(f, a)
    ensures Has(Keys(a), KeyOf(f))
  {
    if a.head != f {
      AmongHasKey(f, a.tail);
    }
  }

  lemma {:induction false} MergeFieldSelf(f: FieldDecl)
    requires CleanField(f)
    ensures MergeField(f, f) == f
    decreases f, 0
  {
    UnionIdempotent(f.validators);
    if !f.kind.Control? {
      MergeSelf(f.kind.fields);
    }
  }

  lemma {:induction false} InsertAbsorbs(a: List<FieldDecl>, f: FieldDecl)
    requires Clean(a) && CleanField(f) && Among(f, a)
    ensures InsertField(a, f) == a
    decreases f, 1, a
  {
    if a.head == f {
      MergeFieldSelf(f);
    } else {
      AmongHasKey(f, a.tail);
      InsertAbsorbs(a.tail, f);
    }
  }

  ghost predicate AllAmong(b: List<FieldDecl>, a: List<FieldDecl>) {
    b.Cons? ==> Among(b.head, a) && AllAmong(b.tail, a)
  }

  lemma {:induction false} AllAmongGrows(b: List<FieldDecl>, f: FieldDecl, a: List<FieldDecl>)
    requires AllAmong(b, a)
    ensures AllAmong(b, Cons(f, a))
  {
    if b.Cons? {
      AllAmongGrows(b.tail, f, a);
    }
  }

  lemma {:induction false} AllAmongSelf(a: List<FieldDecl>)
    ensures AllAmong(a, a)
  {
    if a.Cons? {
      AllAmongSelf(a.tail);
      AllAmongGrows(a.tail, a.head, a.tail);
    }
  }

  lemma {:induction false} MergeAbsorbs(a: List<FieldDecl>, b: List<FieldDecl>)
    requires Clean(a) && EachClean(b) && AllAmong(b, a)
    ensures MergeFields(a, b) == a
    decreases b, 2
  {
    if b.Cons? {
      InsertAbsorbs(a, b.head);
      MergeAbsorbs(a, b.tail);
    }
  }

  /** Merging a duplicate-free tree with itself changes nothing. */
  lemma {:induction false} MergeSelf(a: List<FieldDecl>)
    requires Clean(a)
    ensures MergeFields(a, a) == a
    decreases a, 3
  {
    CleanIsEachClean(a);
    AllAmongSelf(a);
    MergeAbsorbs(a, a);
  }

  // ----- What a merge holds at every path of the tree -----

  function At(l: List<FieldDecl>, k: Key): Option<FieldDecl> {
    if l.Nil? then None else if KeyOf(l.head) == k then Some(l.head) else At(l.tail, k)
  }

  function Children(f: FieldDecl): List<FieldDecl> {
    if f.kind.Control? then Nil else f.kind.fields
  }

  /** The declarations below `path`. */
  function Below(l: List<FieldDecl>, path: List<Key>): List<FieldDecl>
    decreases path
  {
    if path.Nil? then l
    else match At(l, path.head)
      case None => Nil
      case Some(f) => Below(Children(f), path.tail)
  }

  lemma {:induction false} AtFacts(l: List<FieldDecl>, k: Key)
    ensures At(l, k).Some? <==> Has(Keys(l), k)
    ensures At(l, k).Some? ==> KeyOf(At(l, k).value) == k
    ensures At(l, k).Some? && EachClean(l) ==> CleanField(At(l, k).value)
  {
    if l.Cons? {
      AtFacts(l.tail, k);
    }
  }

  lemma {:induction false} AtInsert(a: List<FieldDecl>, f: FieldDecl, k: Key)
    ensures k != KeyOf(f) ==> At(InsertField(a, f), k) == At(a, k)
    ensures k == KeyOf(f) && At(a, k).None? ==> At(InsertField(a, f), k) == Some(f)
    ensures k == KeyOf(f) && At(a, k).Some? ==>
              Compatible(At(a, k).value, f) && At(InsertField(a, f), k) == Some(MergeField(At(a, k).value, f))
  {
    AtFacts(a, k);
    if a.Cons? {
      AtInsert(a.tail, f, k);
    }
  }

  ghost predicate MergedAt(x: Option<FieldDecl>, y: Option<FieldDecl>, r: Option<FieldDecl>) {
    match (x, y)
    case (None, _) => r == y
    case (_, None) => r == x
    case (Some(f), Some(g)) => Compatible(f, g) && r == Some(MergeField(f, g))
  }

  lemma {:induction false} AtMerge(a: List<FieldDecl>, b: List<FieldDecl>, k: Key)
    requires Clean(b)
    ensures MergedAt(At(a, k), At(b, k), At(MergeFields(a, b), k))
    decreases b
  {
    if b.Cons? {
      AtInsert(a, b.head, k);
      AtMerge(InsertField(a, b.head), b.tail, k);
      AtFacts(b.tail, k);
    }
  }

  lemma {:induction false} MergeIntoNil(pre: List<FieldDecl>, l: List<FieldDecl>)
    requires Clean(l) && Apart(pre, l)
    ensures MergeFields(pre, l) == Append(pre, l)
    decreases l
  {
    if l.Cons? {
      InsertNew(pre, l.head);
      PushAppend(pre, l.head, l.tail);
      ApartPush(pre, l.head, l.tail);
      MergeIntoNil(Push(pre, l.head), l.tail);
    } else {
      AppendNil(pre);
    }
  }

  /** No declaration of `b` has the key of one of `a`. */
  ghost predicate Apart(a: List<FieldDecl>, b: List<FieldDecl>) {
    b.Cons? ==> !Has(Keys(a), KeyOf(b.head)) && Apart(a, b.tail)
  }

  lemma {:induction false} InsertNew(a: List<FieldDecl>, f: FieldDecl)
    requires !Has(Keys(a), KeyOf(f))
    ensures InsertField(a, f) == Push(a, f)
  {
    if a.Cons? {
      InsertNew(a.tail, f);
    }
  }

  lemma {:induction false} ApartPush(a: List<FieldDecl>, f: FieldDecl, b: List<FieldDecl>)
    requires Apart(a, b) && !Has(Keys(b), KeyOf(f))
    ensures Apart(Push(a, f), b)
  {
    if b.Cons? {
      KeysPush(a, f);
      PushMembers(Keys(a), KeyOf(f), KeyOf(b.head));
      ApartPush(a, f, b.tail);
    }
  }

  lemma {:induction false} KeysPush(a: List<FieldDecl>, f: FieldDecl)
    ensures Keys(Push(a, f)) == Push(Keys(a), KeyOf(f))
  {
    if a.Cons? {
      KeysPush(a.tail, f);
    }
  }

  lemma {:induction false} NothingIsApart(l: List<FieldDecl>)
    ensures Apart(Nil, l)
  {
    if l.Cons? {
      NothingIsApart(l.tail);
    }
  }

  lemma {:induction false} BelowKeepsClean(l: List<FieldDecl>, path: List<Key>)
    requires Clean(l)
    ensures Clean(Below(l, path))
    decreases path
  {
    if path.Cons? {
      CleanIsEachClean(l);
      AtFacts(l, path.head);
      if At(l, path.head).Some? {
        BelowKeepsClean(Children(At(l, path.head).value), path.tail);
      }
    }
  }

  /** The merge of two trees is, below every path, the merge of what the two hold there. */
  lemma {:induction false} MergeBelow(a: List<FieldDecl>, b: List<FieldDecl>, path: List<Key>)
    requires Clean(b)
    ensures Below(MergeFields(a, b), path) == MergeFields(Below(a, path), Below(b, path))
    decreases path
  {
    if path.Cons? {
      AtMerge(a, b, path.head);
      BelowKeepsClean(b, path);
      NothingIsApart(Below(b, path));
      MergeIntoNil(Nil, Below(b, path));
      CleanIsEachClean(b);
      AtFacts(b, path.head);
      if At(a, path.head).Some? && At(b, path.head).Some? {
        var f, g := At(a, path.head).value, At(b, path.head).value;
        assert Children(MergeField(f, g)) == MergeFields(Children(f), Children(g));
        MergeBelow(Children(f), Children(g), path.tail);
      }
    }
  }

  function ValidatorsAt(l: List<FieldDecl>, k: Key): List<string> {
    match At(l, k) case None => Nil case Some(f) => f.validators
  }

  /**
   At a path, `m` holds the ordered union of both sides' declarations; the validators of a declaration both
   sides have are the ordered union of theirs, and a declaration only one side has keeps its list.
   */
  ghost predicate UnionAt(m: List<FieldDecl>, a: List<FieldDecl>, b: List<FieldDecl>, path: List<Key>, k: Key) {
    && Keys(Below(m, path)) == Union(Keys(Below(a, path)), Keys(Below(b, path)))
    && ValidatorsAt(Below(m, path), k)
       == (if Has(Keys(Below(a, path)), k) then Union(ValidatorsAt(Below(a, path), k), ValidatorsAt(Below(b, path), k))
           else ValidatorsAt(Below(b, path), k))
  }

  /** The merged tree, described without the merge. */
  lemma {:induction false} MergeIsPathwiseUnion(a: List<FieldDecl>, b: List<FieldDecl>, path: List<Key>, k: Key)
    requires Clean(b)
    ensures UnionAt(MergeFields(a, b), a, b, path, k)
  {
    MergeBelow(a, b, path);
    MergeKeys(Below(a, path), Below(b, path));
    BelowKeepsClean(b, path);
    AtMerge(Below(a, path), Below(b, path), k);
    AtFacts(Below(a, path), k);
  }

  /** Two trees hold the same declarations and the same validators at a path. */
  ghost predicate SameAt(a: List<FieldDecl>, b: List<FieldDecl>, path: List<Key>, k: Key) {
    Keys(Below(a, path)) == Keys(Below(b, path)) && ValidatorsAt(Below(a, path), k) == ValidatorsAt(Below(b, path), k)
  }

  ghost predicate SameEverywhere(a: List<FieldDecl>, b: List<FieldDecl>) {
    forall path, k :: SameAt(a, b, path, k)
  }

  lemma {:induction false} SameChildren(a: List<FieldDecl>, b: List<FieldDecl>)
    requires a.Cons? && b.Cons? && KeyOf(a.head) == KeyOf(b.head) && SameEverywhere(a, b)
    ensures SameEverywhere(Children(a.head), Children(b.head))
  {
    forall path, k ensures SameAt(Children(a.head), Children(b.head), path, k) {
      assert SameAt(a, b, Cons(KeyOf(a.head), path), k);
    }
  }

  lemma {:induction false} SameTails(a: List<FieldDecl>, b: List<FieldDecl>)
    requires a.Cons? && b.Cons? && KeyOf(a.head) == KeyOf(b.head) && SameEverywhere(a, b) && Clean(a) && Clean(b)
    ensures SameEverywhere(a.tail, b.tail)
  {
    var key := KeyOf(a.head);
    AtFacts(a.tail, key);
    AtFacts(b.tail, key);
    forall path: List<Key>, k ensures SameAt(a.tail, b.tail, path, k) {
      assert SameAt(a, b, path, k);
      if path.Nil? {
        assert Keys(a) == Cons(key, Keys(a.tail)) && Keys(b) == Cons(key, Keys(b.tail));
      } else if path.head == key {
        assert Below(a.tail, path) == Nil == Below(b.tail, path);
      } else {
        assert Below(a.tail, path) == Below(a, path) && Below(b.tail, path) == Below(b, path);
      }
    }
  }

  /** A hereditarily duplicate-free tree is determined by what it holds at every path. */
  lemma {:induction false} CleanTreesAreTheirPaths(a: List<FieldDecl>, b: List<FieldDecl>)
    requires Clean(a) && Clean(b) && SameEverywhere(a, b)
    ensures a == b
    decreases a
  {
    assert SameAt(a, b, Nil, Key("", ControlTag));
    if a.Cons? {
      assert SameAt(a, b, Nil, KeyOf(a.head));
      if !a.head.kind.Control? {
        SameChildren(a, b);
        CleanTreesAreTheirPaths(a.head.kind.fields, b.head.kind.fields);
      }
      SameTails(a, b);
      CleanTreesAreTheirPaths(a.tail, b.tail);
    }
  }

  /** Of duplicate-free trees, only the merge is a union of the two sides at every path. */
  lemma {:induction false} MergeIsTheOnlyPathwiseUnion(a: List<FieldDecl>, b: List<FieldDecl>, m: List<FieldDecl>)
    requires Clean(a) && Clean(b) && Clean(m)
    requires forall path, k :: UnionAt(m, a, b, path, k)
    ensures m == MergeFields(a, b)
  {
    forall path, k ensures SameAt(m, MergeFields(a, b), path, k) {
      assert UnionAt(m, a, b, path, k);
      MergeIsPathwiseUnion(a, b, path, k);
    }
    CleanIsEachClean(b);
    MergeKeepsClean(a, b);
    CleanTreesAreTheirPaths(m, MergeFields(a, b));
  }

  // ----- No evidence lost, none invented -----

  /** Some declaration at `path` exists, and carries `validator` if one is named. */
  ghost predicate Evident(l: List<FieldDecl>, path: List<Key>, validator: Option<string>)
    decreases path, 0, l
  {
    && path.Cons? && l.Cons?
    && (|| (KeyOf(l.head) == path.head && EvidentIn(l.head, path.tail, validator))
        || Evident(l.tail, path, validator))
  }

  ghost predicate EvidentIn(f: FieldDecl, path: List<Key>, validator: Option<string>)
    decreases path, 1
  {
    if path.Nil? then validator.None? || Has(f.validators, validator.value)
    else Evident(Children(f), path, validator)
  }

  lemma {:induction false} MergeFieldEvidence(a: FieldDecl, f: FieldDecl, path: List<Key>, v: Option<string>)
    requires Compatible(a, f)
    ensures EvidentIn(MergeField(a, f), path, v) <==> EvidentIn(a, path, v) || EvidentIn(f, path, v)
    decreases f, 0
  {
    if path.Nil? {
      if v.Some? {
        UnionMembers(a.validators, f.validators, v.value);
      }
    } else if !f.kind.Control? {
      MergeEvidence(a.kind.fields, f.kind.fields, path, v);
    }
  }

  lemma {:induction false} InsertEvidence(a: List<FieldDecl>, f: FieldDecl, path: List<Key>, v: Option<string>)
    ensures Evident(InsertField(a, f), path, v)
       <==> Evident(a, path, v) || (path.Cons? && KeyOf(f) == path.head && EvidentIn(f, path.tail, v))
    decreases f, 1, a
  {
    if a.Cons? && path.Cons? {
      if Compatible(a.head, f) {
        MergeFieldEvidence(a.head, f, path.tail, v);
      } else {
        InsertEvidence(a.tail, f, path, v);
      }
    }
  }

  /** For all trees: a merge shows exactly the evidence of its two sides. */
  lemma {:induction false} MergeEvidence(a: List<FieldDecl>, b: List<FieldDecl>, path: List<Key>, v: Option<string>)
    ensures Evident(MergeFields(a, b), path, v) <==> Evident(a, path, v) || Evident(b, path, v)
    decreases b, 2
  {
    if b.Cons? {
      InsertEvidence(a, b.head, path, v);
      MergeEvidence(InsertField(a, b.head), b.tail, path, v);
    }
  }

  // ----- Whole artifacts -----

  datatype FormArtifact = Form(name: string, fields: List<FieldDecl>) | Field(decl: FieldDecl)
  datatype ArtifactKey = FormKey(name: string) | FieldKey(key: Key)

  function ArtifactKeyOf(a: FormArtifact): ArtifactKey {
    match a
    case Form(name, _) => FormKey(name)
    case Field(decl) => FieldKey(KeyOf(decl))
  }

  predicate CompatibleArtifacts(existing: FormArtifact, artifact: FormArtifact) {
    match (existing, artifact)
    case (Form(left, _), Form(right, _)) => left == right
    case (Field(left), Field(right)) => Compatible(left, right)
    case _ => false
  }

  function MergeArtifact(existing: FormArtifact, incoming: FormArtifact): (r: FormArtifact)
    requires CompatibleArtifacts(existing, incoming)
    ensures ArtifactKeyOf(r) == ArtifactKeyOf(existing)
  {
    match existing
    case Form(name, left) => Form(name, MergeFields(left, incoming.fields))
    case Field(left) => Field(MergeField(left, incoming.decl))
  }

  function InsertArtifact(l: List<FormArtifact>, a: FormArtifact): List<FormArtifact> {
    if l.Nil? then Cons(a, Nil)
    else if CompatibleArtifacts(l.head, a) then Cons(MergeArtifact(l.head, a), l.tail)
    else Cons(l.head, InsertArtifact(l.tail, a))
  }

  function NormalizeOnto(done: List<FormArtifact>, l: List<FormArtifact>): List<FormArtifact>
    decreases l
  {
    if l.Nil? then done else NormalizeOnto(InsertArtifact(done, l.head), l.tail)
  }

  function Normalize(l: List<FormArtifact>): List<FormArtifact> {
    NormalizeOnto(Nil, l)
  }

  /** The loop of `normalize_artifacts`. */
  method NormalizeArtifacts(artifacts: List<FormArtifact>) returns (normalized: List<FormArtifact>)
    ensures normalized == Normalize(artifacts)
  {
    normalized := Nil;
    var rest := artifacts;
    while rest.Cons?
      invariant NormalizeOnto(normalized, rest) == Normalize(artifacts)
      decreases rest
    {
      normalized := InsertArtifact(normalized, rest.head);
      rest := rest.tail;
    }
  }

  function ArtifactKeys(l: List<FormArtifact>): List<ArtifactKey> {
    if l.Nil? then Nil else Cons(ArtifactKeyOf(l.head), ArtifactKeys(l.tail))
  }

  lemma {:induction false} InsertArtifactKeys(l: List<FormArtifact>, a: FormArtifact)
    ensures ArtifactKeys(InsertArtifact(l, a)) == PushNew(ArtifactKeys(l), ArtifactKeyOf(a))
  {
    if l.Cons? {
      InsertArtifactKeys(l.tail, a);
    }
  }

  lemma {:induction false} NormalizeOntoKeys(done: List<FormArtifact>, l: List<FormArtifact>)
    ensures ArtifactKeys(NormalizeOnto(done, l)) == Union(ArtifactKeys(done), ArtifactKeys(l))
    decreases l
  {
    if l.Cons? {
      InsertArtifactKeys(done, l.head);
      NormalizeOntoKeys(InsertArtifact(done, l.head), l.tail);
    }
  }

  /** No two compatible artifacts are left, and what is left stands in order of first appearance. */
  lemma {:induction false} NormalizeKeys(l: List<FormArtifact>)
    ensures ArtifactKeys(Normalize(l)) == Union(Nil, ArtifactKeys(l))
    ensures Distinct(ArtifactKeys(Normalize(l)))
  {
    NormalizeOntoKeys(Nil, l);
    UnionKeepsDistinct(Nil, ArtifactKeys(l));
  }

  lemma {:induction false} InsertOnto(a: List<FormArtifact>, x: FormArtifact, b: List<FormArtifact>)
    requires Distinct(ArtifactKeys(Append(a, Cons(x, b))))
    ensures Append(InsertArtifact(a, x), b) == Append(a, Cons(x, b))
  {
    if a.Cons? {
      InsertOnto(a.tail, x, b);
      HasInAppend(a.tail, x, b);
    }
  }

  lemma {:induction false} HasInAppend(a: List<FormArtifact>, x: FormArtifact, b: List<FormArtifact>)
    ensures Has(ArtifactKeys(Append(a, Cons(x, b))), ArtifactKeyOf(x))
  {
    if a.Cons? {
      HasInAppend(a.tail, x, b);
    }
  }

  lemma {:induction false} NormalizeDistinct(done: List<FormArtifact>, l: List<FormArtifact>)
    requires Distinct(ArtifactKeys(Append(done, l)))
    ensures NormalizeOnto(done, l) == Append(done, l)
    decreases l
  {
    if l.Cons? {
      InsertOnto(done, l.head, l.tail);
      NormalizeDistinct(InsertArtifact(done, l.head), l.tail);
    } else {
      AppendNil(done);
    }
  }

  /** Normalising twice is normalising once, for every list of artifacts. */
  lemma {:induction false} NormalizeIdempotent(l: List<FormArtifact>)
    ensures Normalize(Normalize(l)) == Normalize(l)
  {
    NormalizeKeys(l);
    NormalizeDistinct(Nil, Normalize(l));
  }

  ghost predicate ArtifactEvident(a: FormArtifact, root: ArtifactKey, path: List<Key>, v: Option<string>) {
    && ArtifactKeyOf(a) == root
    && match a
       case Form(_, fields) => if path.Nil? then v.None? else Evident(fields, path, v)
       case Field(decl) => EvidentIn(decl, path, v)
  }

  ghost predicate SomeEvident(l: List<FormArtifact>, root: ArtifactKey, path: List<Key>, v: Option<string>) {
    l.Cons? && (ArtifactEvident(l.head, root, path, v) || SomeEvident(l.tail, root, path, v))
  }

  lemma {:induction false} InsertArtifactEvidence(l: List<FormArtifact>, a: FormArtifact, root: ArtifactKey,
          path: List<Key>, v: Option<string>)
    ensures SomeEvident(InsertArtifact(l, a), root, path, v)
       <==> SomeEvident(l, root, path, v) || ArtifactEvident(a, root, path, v)
  {
    if l.Cons? {
      if CompatibleArtifacts(l.head, a) {
        match a
        case Form(_, fields) => MergeEvidence(l.head.fields, fields, path, v);
        case Field(decl) => MergeFieldEvidence(l.head.decl, decl, path, v);
      } else {
        InsertArtifactEvidence(l.tail, a, root, path, v);
      }
    }
  }

  lemma {:induction false} NormalizeOntoEvidence(done: List<FormArtifact>, l: List<FormArtifact>, root: ArtifactKey,
          path: List<Key>, v: Option<string>)
    ensures SomeEvident(NormalizeOnto(done, l), root, path, v)
       <==> SomeEvident(done, root, path, v) || SomeEvident(l, root, path, v)
    decreases l
  {
    if l.Cons? {
      InsertArtifactEvidence(done, l.head, root, path, v);
      NormalizeOntoEvidence(InsertArtifact(done, l.head), l.tail, root, path, v);
    }
  }

  /** Normalising loses no evidence and invents none, whatever the artifacts. */
  lemma {:induction false} NormalizeKeepsEvidence(l: List<FormArtifact>, root: ArtifactKey, path: List<Key>,
          v: Option<string>)
    ensures SomeEvident(Normalize(l), root, path, v) <==> SomeEvident(l, root, path, v)
  {
    NormalizeOntoEvidence(Nil, l, root, path, v);
  }
}
