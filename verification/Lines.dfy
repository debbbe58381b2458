/** Texts as lists of lines: `str::lines`, and `join` with a line break. */
module Lines {
  import opened Prelude

  /** The characters up to the first line break. */
  function FirstLine(t: Text): Text {
    if t.Nil? || t.head == '\n' then Nil else Cons(t.head, FirstLine(t.tail))
  }

  /** What follows the first line, from its line break on. */
  function FromBreak(t: Text): (r: Text)
    ensures Size(r) <= Size(t)
  {
    if t.Nil? || t.head == '\n' then t else FromBreak(t.tail)
  }

  /** A line that ends in a line break also loses one carriage return before it. */
  function WithoutReturn(line: Text): Text {
    if line.Nil? || line == Cons('\r', Nil) then Nil else Cons(line.head, WithoutReturn(line.tail))
  }

  function LinesOf(t: Text): List<Text>
    decreases Size(t)
  {
    if t.Nil? then Nil
    else
      var rest := FromBreak(t);
      if rest.Nil? then Cons(FirstLine(t), Nil) else Cons(WithoutReturn(FirstLine(t)), LinesOf(rest.tail))
  }

  function JoinLines(lines: List<Text>): Text {
    if lines.Nil? then Nil
    else if lines.tail.Nil? then lines.head
    else Append(lines.head, Cons('\n', JoinLines(lines.tail)))
  }

  function Take<T>(l: List<T>, n: nat): List<T> {
    if n == 0 || l.Nil? then Nil else Cons(l.head, Take(l.tail, n - 1))
  }

  function Drop<T>(l: List<T>, n: nat): List<T> {
    if n == 0 || l.Nil? then l else Drop(l.tail, n - 1)
  }

  /** No line breaks, so a single line. */
  predicate OneLine(t: Text) {
    !Has(t, '\n')
  }

  predicate AllOneLine(lines: List<Text>) {
    lines.Cons? ==> OneLine(lines.head) && AllOneLine(lines.tail)
  }

  lemma {:induction false} WithoutReturnIsOneLine(t: Text)
    requires OneLine(t)
    ensures OneLine(WithoutReturn(t))
  {
    if t.Cons? {
      WithoutReturnIsOneLine(t.tail);
    }
  }

  lemma {:induction false} FirstLineIsOneLine(t: Text)
    ensures OneLine(FirstLine(t))
  {
    if t.Cons? {
      FirstLineIsOneLine(t.tail);
    }
  }

  lemma {:induction false} LinesAreOneLine(t: Text)
    ensures AllOneLine(LinesOf(t))
    decreases Size(t)
  {
    if t.Cons? {
      FirstLineIsOneLine(t);
      WithoutReturnIsOneLine(FirstLine(t));
      if FromBreak(t).Cons? {
        LinesAreOneLine(FromBreak(t).tail);
      }
    }
  }

  lemma {:induction false} TakeFacts<T>(l: List<T>, n: nat)
    ensures Size(Take(l, n)) == (if n < Size(l) then n else Size(l))
    ensures n >= Size(l) ==> Take(l, n) == l
    ensures Size(Drop(l, n)) == (if n < Size(l) then Size(l) - n else 0)
    ensures Append(Take(l, n), Drop(l, n)) == l
  {
    if n > 0 && l.Cons? {
      TakeFacts(l.tail, n - 1);
    }
  }

  lemma {:induction false} PartsAreOneLine(lines: List<Text>, n: nat)
    requires AllOneLine(lines)
    ensures AllOneLine(Take(lines, n)) && AllOneLine(Drop(lines, n))
  {
    if n > 0 && lines.Cons? {
      PartsAreOneLine(lines.tail, n - 1);
    }
  }

  lemma {:induction false} FirstLineOfJoin(line: Text, more: Text)
    requires OneLine(line)
    ensures FirstLine(line) == line && FromBreak(line) == Nil
    ensures FirstLine(Append(line, Cons('\n', more))) == line
    ensures FromBreak(Append(line, Cons('\n', more))) == Cons('\n', more)
  {
    if line.Cons? {
      FirstLineOfJoin(line.tail, more);
    }
  }

  lemma {:induction false} SplitJoined(line: Text, more: Text)
    requires OneLine(line)
    ensures LinesOf(Append(line, Cons('\n', more))) == Cons(WithoutReturn(line), LinesOf(more))
    ensures LinesOf(line) == if line.Nil? then Nil else Cons(line, Nil)
  {
    FirstLineOfJoin(line, more);
  }

  /** Splitting joined lines never finds more of them. */
  lemma {:induction false} JoinAddsNoLines(lines: List<Text>)
    requires AllOneLine(lines)
    ensures Size(LinesOf(JoinLines(lines))) <= Size(lines)
  {
    if lines.Cons? {
      SplitJoined(lines.head, JoinLines(lines.tail));
      JoinAddsNoLines(lines.tail);
    }
  }

  predicate EndsInReturn(line: Text) {
    line.Cons? && (line == Cons('\r', Nil) || EndsInReturn(line.tail))
  }

  predicate NoReturns(lines: List<Text>) {
    lines.Cons? ==> !EndsInReturn(lines.head) && NoReturns(lines.tail)
  }

  /** The list without a blank last line. */
  function WithoutBlankEnd(lines: List<Text>): List<Text> {
    if lines.Nil? || lines == Cons(Nil, Nil) then Nil else Cons(lines.head, WithoutBlankEnd(lines.tail))
  }

  lemma {:induction false} NothingToStrip(line: Text)
    requires !EndsInReturn(line)
    ensures WithoutReturn(line) == line
  {
    if line.Cons? {
      NothingToStrip(line.tail);
    }
  }

  /** Splitting undoes joining, up to a blank last line. */
  lemma {:induction false} SplitUndoesJoin(lines: List<Text>)
    requires AllOneLine(lines) && NoReturns(lines)
    ensures LinesOf(JoinLines(lines)) == WithoutBlankEnd(lines)
  {
    if lines.Cons? {
      SplitJoined(lines.head, JoinLines(lines.tail));
      NothingToStrip(lines.head);
      SplitUndoesJoin(lines.tail);
    }
  }
}
