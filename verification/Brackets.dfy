/**
 Bracket matching over well-formed sources (src/angular_meta/testing.rs): what is written as an opening bracket, any
 nesting of brackets and literals, and a closing bracket is found to end at that closing bracket.
 */
module Brackets {
  import opened Prelude
  import opened Suites

  /** A character of a literal, or a backslash with the character it escapes. */
  datatype Item = Ordinary(c: char) | Backslashed(c: char)
  /** What a source is written of, for one kind of bracket. */
  datatype Piece = Single(c: char) | Literal(quote: char, items: List<Item>) | Nested(inner: List<Piece>)

  /** A kind of bracket. */
  datatype Pair = Pair(opening: char, closing: char)

  ghost predicate Quotes(c: char) {
    c == '\'' || c == '"' || c == '`'
  }

  ghost predicate IsPair(b: Pair) {
    b.opening != b.closing && !Quotes(b.opening) && !Quotes(b.closing)
  }

  ghost predicate ItemsFit(quote: char, items: List<Item>) {
    items.Cons? ==>
      (items.head.Ordinary? ==> items.head.c != quote && items.head.c != '\\') && ItemsFit(quote, items.tail)
  }

  ghost predicate PiecesFit(b: Pair, pieces: List<Piece>) {
    pieces.Cons? ==> PieceFits(b, pieces.head) && PiecesFit(b, pieces.tail)
  }

  ghost predicate PieceFits(b: Pair, p: Piece) {
    match p
    case Single(c) => !Quotes(c) && c != b.opening && c != b.closing
    case Literal(quote, items) => Quotes(quote) && ItemsFit(quote, items)
    case Nested(inner) => PiecesFit(b, inner)
  }

  ghost function WriteItem(item: Item): seq<char> {
    if item.Ordinary? then [item.c] else ['\\', item.c]
  }

  ghost function WriteItems(items: List<Item>): seq<char> {
    if items.Nil? then [] else WriteItem(items.head) + WriteItems(items.tail)
  }

  ghost function Write(b: Pair, pieces: List<Piece>): seq<char> {
    if pieces.Nil? then [] else WritePiece(b, pieces.head) + Write(b, pieces.tail)
  }

  ghost function WritePiece(b: Pair, p: Piece): seq<char> {
    match p
    case Single(c) => [c]
    case Literal(quote, items) => [quote] + WriteItems(items) + [quote]
    case Nested(inner) => [b.opening] + Write(b, inner) + [b.closing]
  }

  /** The text stands in the source from `k` on. */
  ghost predicate Stands(s: seq<char>, k: nat, text: seq<char>) {
    k + |text| <= |s| && s[k..k + |text|] == text
  }

  lemma {:induction false} StandsInParts(s: seq<char>, k: nat, a: seq<char>, b: seq<char>)
    requires Stands(s, k, a + b)
    ensures Stands(s, k, a) && Stands(s, k + |a|, b)
    ensures |a| == 1 ==> s[k] == a[0]
  {
    assert s[k..k + |a|] == (a + b)[..|a|];
    assert s[k + |a|..k + |a| + |b|] == (a + b)[|a|..];
    assert |a| == 1 ==> s[k..k + |a|][0] == s[k];
  }

  lemma {:induction false} StandsBetween(s: seq<char>, k: nat, x: char, text: seq<char>, y: char)
    requires Stands(s, k, [x] + text + [y])
    ensures k + |text| + 1 < |s| && s[k] == x && Stands(s, k + 1, text) && s[k + 1 + |text|] == y
  {
    assert [x] + text + [y] == [x] + (text + [y]);
    StandsInParts(s, k, [x], text + [y]);
    StandsInParts(s, k + 1, text, [y]);
    StandsInParts(s, k + 1 + |text|, [y], []);
  }

  /** A reader from `from` on is outside quotes at `k`, `depth` brackets deep, and none of them has closed the first. */
  ghost predicate Reads(s: seq<char>, from: nat, k: nat, b: Pair, m: Mode, depth: int) {
    && from < k <= |s| && ModeAt(Normal, s, from, k) == m
    && Net(s, from, k, b.opening, b.closing) == depth >= 1
    && OpenUntil(s, from, k, b.opening, b.closing)
  }

  /** One more character that does not close the first bracket. */
  lemma {:induction false} ReadOne(s: seq<char>, from: nat, k: nat, b: Pair, m: Mode, depth: int)
    requires Reads(s, from, k, b, m, depth) && k < |s|
    requires depth + Weight(m, s[k], b.opening, b.closing) >= 1
    ensures Reads(s, from, k + 1, b, Step(m, s[k]), depth + Weight(m, s[k], b.opening, b.closing))
  {
  }

  lemma {:induction false} ReadOrdinary(s: seq<char>, from: nat, k: nat, b: Pair, quote: char, depth: int)
    requires Reads(s, from, k, b, Inside(quote), depth) && k < |s| && s[k] != quote && s[k] != '\\'
    ensures Reads(s, from, k + 1, b, Inside(quote), depth)
  {
    ReadOne(s, from, k, b, Inside(quote), depth);
  }

  lemma {:induction false} ReadBackslashed(s: seq<char>, from: nat, k: nat, b: Pair, quote: char, depth: int)
    requires Reads(s, from, k, b, Inside(quote), depth) && k + 1 < |s| && s[k] == '\\'
    ensures Reads(s, from, k + 2, b, Inside(quote), depth)
  {
    ReadOne(s, from, k, b, Inside(quote), depth);
    ReadOne(s, from, k + 1, b, Escaped(quote), depth);
  }

  lemma {:induction false} ReadItem(s: seq<char>, from: nat, k: nat, b: Pair, quote: char, item: Item, depth: int)
    requires Stands(s, k, WriteItem(item)) && (item.Ordinary? ==> item.c != quote && item.c != '\\')
    requires Reads(s, from, k, b, Inside(quote), depth)
    ensures Reads(s, from, k + |WriteItem(item)|, b, Inside(quote), depth)
  {
    assert s[k] == s[k..k + |WriteItem(item)|][0];
    if item.Ordinary? {
      ReadOrdinary(s, from, k, b, quote, depth);
    } else {
      ReadBackslashed(s, from, k, b, quote, depth);
    }
  }

  lemma {:induction false} ReadItems(s: seq<char>, from: nat, k: nat, b: Pair, quote: char, items: List<Item>,
          depth: int)
    requires Stands(s, k, WriteItems(items)) && ItemsFit(quote, items)
    requires Reads(s, from, k, b, Inside(quote), depth)
    ensures Reads(s, from, k + |WriteItems(items)|, b, Inside(quote), depth)
    decreases items
  {
    if items.Cons? {
      var text := WriteItem(items.head);
      StandsInParts(s, k, text, WriteItems(items.tail));
      ReadItem(s, from, k, b, quote, items.head, depth);
      ReadItems(s, from, k + |text|, b, quote, items.tail, depth);
    }
  }

  lemma {:induction false} ReadLiteral(s: seq<char>, from: nat, k: nat, b: Pair, quote: char, items: List<Item>,
          depth: int)
    requires Stands(s, k, [quote] + WriteItems(items) + [quote]) && Quotes(quote) && ItemsFit(quote, items)
    requires Reads(s, from, k, b, Normal, depth)
    ensures Reads(s, from, k + |WriteItems(items)| + 2, b, Normal, depth)
  {
    var text := WriteItems(items);
    StandsBetween(s, k, quote, text, quote);
    ReadOne(s, from, k, b, Normal, depth);
    ReadItems(s, from, k + 1, b, quote, items, depth);
    ReadOne(s, from, k + 1 + |text|, b, Inside(quote), depth);
  }

  lemma {:induction false} ReadNested(s: seq<char>, from: nat, k: nat, b: Pair, inner: List<Piece>, depth: int)
    requires IsPair(b) && PiecesFit(b, inner) && Stands(s, k, [b.opening] + Write(b, inner) + [b.closing])
    requires Reads(s, from, k, b, Normal, depth)
    ensures Reads(s, from, k + |Write(b, inner)| + 2, b, Normal, depth)
    decreases inner, 1
  {
    var text := Write(b, inner);
    StandsBetween(s, k, b.opening, text, b.closing);
    ReadOne(s, from, k, b, Normal, depth);
    ReadPieces(s, from, k + 1, b, inner, depth + 1);
    ReadOne(s, from, k + 1 + |text|, b, Normal, depth + 1);
  }

  lemma {:induction false} ReadPieces(s: seq<char>, from: nat, k: nat, b: Pair, pieces: List<Piece>, depth: int)
    requires IsPair(b) && PiecesFit(b, pieces) && Stands(s, k, Write(b, pieces))
    requires Reads(s, from, k, b, Normal, depth)
    ensures Reads(s, from, k + |Write(b, pieces)|, b, Normal, depth)
    decreases pieces, 0
  {
    if pieces.Cons? {
      var text := WritePiece(b, pieces.head);
      StandsInParts(s, k, text, Write(b, pieces.tail));
      match pieces.head {
        case Single(c) => ReadOne(s, from, k, b, Normal, depth);
        case Literal(quote, items) => ReadLiteral(s, from, k, b, quote, items, depth);
        case Nested(inner) => ReadNested(s, from, k, b, inner, depth);
      }
      ReadPieces(s, from, k + |text|, b, pieces.tail, depth);
    }
  }

  /** What the search promises of its answer. */
  ghost predicate IsAnswer(s: seq<char>, open: nat, b: Pair, r: Option<nat>) {
    if r.Some? then
      open < r.value < |s| && Closes(s, open, r.value, b.opening, b.closing)
      && OpenUntil(s, open, r.value, b.opening, b.closing)
    else open < |s| && s[open] == b.opening ==> OpenUntil(s, open, |s|, b.opening, b.closing)
  }

  /** There is one answer. */
  lemma {:induction false} OneAnswer(s: seq<char>, open: nat, b: Pair, k: nat, r: Option<nat>)
    requires open < k < |s| && s[open] == b.opening
    requires Closes(s, open, k, b.opening, b.closing) && OpenUntil(s, open, k, b.opening, b.closing)
    requires IsAnswer(s, open, b, r)
    ensures r == Some(k)
  {
  }

  lemma {:induction false} FirstBracket(s: seq<char>, open: nat, b: Pair)
    requires IsPair(b) && open < |s| && s[open] == b.opening
    ensures Reads(s, open, open + 1, b, Normal, 1)
  {
    assert ModeAt(Normal, s, open, open) == Normal && Net(s, open, open, b.opening, b.closing) == 0;
  }

  lemma {:induction false} LastBracket(s: seq<char>, open: nat, b: Pair, k: nat)
    requires IsPair(b) && Reads(s, open, k, b, Normal, 1) && k < |s| && s[k] == b.closing
    ensures Closes(s, open, k, b.opening, b.closing)
  {
  }

  /**
   For every nesting of brackets and literals between two brackets, wherever it stands, the one answer to a search from
   the first bracket is the second.
   */
  lemma {:induction false} WrittenBracketIsFound(s: seq<char>, open: nat, b: Pair, pieces: List<Piece>, r: Option<nat>)
    requires IsPair(b) && PiecesFit(b, pieces) && Stands(s, open, [b.opening] + Write(b, pieces) + [b.closing])
    requires IsAnswer(s, open, b, r)
    ensures r == Some(open + 1 + |Write(b, pieces)|)
  {
    var k := open + 1 + |Write(b, pieces)|;
    StandsBetween(s, open, b.opening, Write(b, pieces), b.closing);
    FirstBracket(s, open, b);
    ReadPieces(s, open, open + 1, b, pieces, 1);
    LastBracket(s, open, b, k);
    OneAnswer(s, open, b, k, r);
  }
}
