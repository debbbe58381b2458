/** Definitions shared by the models: optional values, duplicate-free lists and substring search. */
module Prelude {

  datatype Option<+T> = None | Some(value: T)

  /** A growable vector, as the list of its elements. */
  datatype List<+T> = Nil | Cons(head: T, tail: List<T>)

  predicate Has<T(==)>(l: List<T>, x: T) {
    l.Cons? && (l.head == x || Has(l.tail, x))
  }

  /** `Vec::push`. */
  function Push<T>(l: List<T>, x: T): List<T> {
    if l.Nil? then Cons(x, Nil) else Cons(l.head, Push(l.tail, x))
  }

  function Size<T>(l: List<T>): nat {
    if l.Nil? then 0 else 1 + Size(l.tail)
  }

  function Append<T>(a: List<T>, b: List<T>): List<T> {
    if a.Nil? then b else Cons(a.head, Append(a.tail, b))
  }

  lemma {:induction false} AppendAssociative<T>(a: List<T>, b: List<T>, c: List<T>)
    ensures Append(Append(a, b), c) == Append(a, Append(b, c))
  {
    if a.Cons? {
      AppendAssociative(a.tail, b, c);
    }
  }

  lemma {:induction false} AppendNil<T>(a: List<T>)
    ensures Append(a, Nil) == a
  {
    if a.Cons? {
      AppendNil(a.tail);
    }
  }

  lemma {:induction false} PushAppend<T>(a: List<T>, x: T, b: List<T>)
    ensures Append(Push(a, x), b) == Append(a, Cons(x, b))
  {
    if a.Cons? {
      PushAppend(a.tail, x, b);
    }
  }

  lemma {:induction false} SizePush<T>(a: List<T>, x: T)
    ensures Size(Push(a, x)) == Size(a) + 1
  {
    if a.Cons? {
      SizePush(a.tail, x);
    }
  }

  lemma {:induction false} SizeAppend<T>(a: List<T>, b: List<T>)
    ensures Size(Append(a, b)) == Size(a) + Size(b)
  {
    if a.Cons? {
      SizeAppend(a.tail, b);
    }
  }

  lemma {:induction false} HasAppend<T>(a: List<T>, b: List<T>, x: T)
    ensures Has(Append(a, b), x) <==> Has(a, x) || Has(b, x)
  {
    if a.Cons? {
      HasAppend(a.tail, b, x);
    }
  }

  function One(p: bool): nat {
    if p then 1 else 0
  }

  /** `saturating_sub`. */
  function SaturatingSub(x: nat, y: nat): nat {
    if x < y then 0 else x - y
  }

  /** A line of text, one character at a time. */
  type Text = List<char>

  function Chars(s: string): Text {
    if s == "" then Nil else Cons(s[0], Chars(s[1..]))
  }

  predicate StartsWith(s: Text, p: Text) {
    p.Cons? ==> s.Cons? && s.head == p.head && StartsWith(s.tail, p.tail)
  }

  /** `str::contains` for a pattern. */
  predicate Contains(s: Text, p: Text) {
    StartsWith(s, p) || (s.Cons? && Contains(s.tail, p))
  }

  /** A text starts with `p` exactly when it is `p` and something more. */
  lemma {:induction false} StartsWithRest(s: Text, p: Text, more: Text) returns (rest: Text)
    ensures StartsWith(s, p) ==> s == Append(p, rest)
    ensures StartsWith(Append(p, more), p)
  {
    if p.Nil? {
      rest := s;
    } else if s.Cons? {
      rest := StartsWithRest(s.tail, p.tail, more);
    } else {
      rest := StartsWithRest(Nil, p.tail, more);
    }
  }

  /** A text contains `p` exactly when it is something, `p` and something more. */
  lemma {:induction false} ContainsSomewhere(s: Text, p: Text) returns (before: Text, after: Text)
    ensures Contains(s, p) ==> s == Append(before, Append(p, after))
  {
    before, after := Nil, Nil;
    if StartsWith(s, p) {
      after := StartsWithRest(s, p, Nil);
    } else if s.Cons? {
      before, after := ContainsSomewhere(s.tail, p);
      before := Cons(s.head, before);
    }
  }

  lemma {:induction false} ContainedInside(before: Text, p: Text, after: Text)
    ensures Contains(Append(before, Append(p, after)), p)
  {
    if before.Cons? {
      ContainedInside(before.tail, p, after);
    } else {
      var rest := StartsWithRest(p, p, after);
    }
  }

  function Nth<T>(l: List<T>, k: nat): T
    requires k < Size(l)
  {
    if k == 0 then l.head else Nth(l.tail, k - 1)
  }

  ghost predicate Distinct<T>(l: List<T>) {
    l.Cons? ==> !Has(l.tail, l.head) && Distinct(l.tail)
  }

  /** `needle` occurs in `s` as a contiguous block (Rust's `contains` on slices and strings). */
  predicate HasInfix<T(==)>(s: seq<T>, needle: seq<T>) {
    exists i :: 0 <= i <= |s| && needle <= s[i..]
  }

  /** `char::is_whitespace`: the Unicode White_Space property. */
  predicate IsWhitespace(c: char) {
    || '\U{0009}' <= c <= '\U{000D}' || c == ' ' || c == '\U{0085}' || c == '\U{00A0}'
    || c == '\U{1680}' || '\U{2000}' <= c <= '\U{200A}' || c == '\U{2028}' || c == '\U{2029}'
    || c == '\U{202F}' || c == '\U{205F}' || c == '\U{3000}'
  }

  /** The 25 code points that have the property. */
  lemma {:induction false} WhitespaceIsListed(c: char)
    ensures IsWhitespace(c)
       <==> c as int in {0x9, 0xA, 0xB, 0xC, 0xD, 0x20, 0x85, 0xA0, 0x1680,
                         0x2000, 0x2001, 0x2002, 0x2003, 0x2004, 0x2005, 0x2006, 0x2007, 0x2008, 0x2009, 0x200A,
                         0x2028, 0x2029, 0x202F, 0x205F, 0x3000}
  {
  }
}
