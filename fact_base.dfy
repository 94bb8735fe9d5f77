/**
 * SimpleFactBaseGenerator: writes a Prova fact base of numbered terms, each term `i > 1` being
 * a subclass of term `i / 2`, followed by a fixed block of rules.
 */
module FactBase {
  import opened Text

  /** Bounds of Java's `int`. */
  const IntMin: int := -0x8000_0000
  const IntMax: int := 0x7fff_ffff

  predicate IsInt(i: int) {
    IntMin <= i <= IntMax
  }

  /** A BufferedWriter used only through `append(text)` followed by `newLine()`, so the file it
      produces is exactly a sequence of lines. */
  class LineWriter {
    var lines: seq<string>

    constructor ()
      ensures lines == []
    {
      lines := [];
    }

    /** `append(text); newLine();` (a bare `newLine()` is an empty line). */
    method WriteLine(text: string)
      modifies this
      ensures lines == old(lines) + [text]
    {
      lines := lines + [text];
    }
  }

  /** The `term(...)` fact of term `i`, worded and spelled as `SimpleFactBaseGenerator` writes it. */
  function TermFact(i: int): string
  {
    var id := IntToString(i);
    "term('ID:" + id + "','Label for " + id + "','Textual defintion for " + id + "')."
  }

  /** The parent of term `i`: `i / 2` in Java's int division, which for `i > 1` is Dafny's. */
  function Parent(i: int): (p: int)
    requires i > 1
    ensures 1 <= p < i && (p * 2 == i || p * 2 + 1 == i)
  {
    i / 2
  }

  /** The `isTriple(..., subClassOf, ...)` fact linking term `i` to its parent. */
  function SubClassFact(i: int): string
    requires i > 1
  {
    "isTriple('ID:" + IntToString(i) + "', subClassOf,'ID:" + IntToString(Parent(i)) + "')."
  }

  /** The lines one loop iteration writes for term `i`. */
  function FactsFor(i: int): seq<string>
  {
    if i > 1 then [TermFact(i), SubClassFact(i)] else [TermFact(i)]
  }

  /** The lines `createFactbase(start, end, writer)` writes: the facts of `start`, ..., `end` in order. */
  function FactLines(start: int, end: int): seq<string>
    decreases end - start
  {
    if end < start then [] else FactLines(start, end - 1) + FactsFor(end)
  }

  /** How many of `start`, ..., `end` are greater than 1. */
  function CountAboveOne(start: int, end: int): nat
  {
    var from := if start > 2 then start else 2;
    if end < from then 0 else end - from + 1
  }

  /** `createFactbase(startCount, endCount, writer)`. The counter is a Java int: at
      `endCount == Integer.MAX_VALUE` the increment wraps and the loop never ends, so that
      value is excluded. */
  method CreateFactbase(startCount: int, endCount: int, writer: LineWriter)
    requires IsInt(startCount) && IsInt(endCount) && endCount < IntMax
    modifies writer
    ensures writer.lines == old(writer.lines) + FactLines(startCount, endCount)
  {
    var i := startCount;
    ghost var done := startCount - 1;
    while i <= endCount
      invariant startCount <= i && (startCount <= endCount ==> i <= endCount + 1)
      invariant startCount > endCount ==> i == startCount
      invariant IsInt(i) && done == i - 1
      invariant writer.lines == old(writer.lines) + FactLines(startCount, done)
      decreases endCount - i
    {
      WriteFacts(i, writer);
      FactLinesStep(startCount, i, done);
      done := i;
      i := i + 1;
    }
    assert FactLines(startCount, done) == FactLines(startCount, endCount);
  }

  /** The body of the loop of `createFactbase`: the term fact of `i` and, for `i > 1`, its
      subclass fact. */
  method WriteFacts(i: int, writer: LineWriter)
    modifies writer
    ensures writer.lines == old(writer.lines) + FactsFor(i)
  {
    writer.WriteLine(TermFact(i));
    if i > 1 {
      writer.WriteLine(SubClassFact(i));
    }
  }

  /** The range up to `i` adds the facts of `i` to the range before it. */
  lemma FactLinesStep(start: int, i: int, before: int)
    requires start <= i && before == i - 1
    ensures FactLines(start, i) == FactLines(start, before) + FactsFor(i)
  {
  }

  /** Extending the range by `end` adds one to the count exactly when `end > 1`. */
  lemma CountAboveOneStep(start: int, end: int)
    requires start <= end
    ensures CountAboveOne(start, end) == CountAboveOne(start, end - 1) + (if end > 1 then 1 else 0)
  {
  }

  /** One line per term and one more per term above 1. */
  lemma {:induction false} FactLinesLength(start: int, end: int)
    ensures |FactLines(start, end)| == (if end < start then 0 else end - start + 1) + CountAboveOne(start, end)
    decreases end - start
  {
    if end >= start {
      FactLinesLength(start, end - 1);
      CountAboveOneStep(start, end);
      assert |FactsFor(end)| == if end > 1 then 2 else 1;
    }
  }

  /** Where the facts of term `i` start: after one line per earlier term and one more per earlier
      term above 1. */
  function Offset(start: int, i: int): nat
    requires start <= i
  {
    (i - start) + CountAboveOne(start, i - 1)
  }

  /** The lines of a shorter range are a prefix of those of a longer one. */
  lemma {:induction false} FactLinesPrefix(start: int, m: int, end: int)
    requires start - 1 <= m <= end
    ensures FactLines(start, m) <= FactLines(start, end)
    decreases end - m
  {
    if m < end {
      FactLinesPrefix(start, m, end - 1);
      PrefixExtends(FactLines(start, m), FactLines(start, end - 1), FactsFor(end));
    }
  }

  lemma PrefixExtends<T>(x: seq<T>, a: seq<T>, b: seq<T>)
    requires x <= a
    ensures x <= a + b
  {
    assert (a + b)[..|a|] == a;
  }

  /** The term fact of each `i` in range stands at `Offset(start, i)`, and the subclass fact
      follows it exactly when `i > 1`; otherwise the next term's fact (or the end) follows. */
  lemma FactLinesAt(start: int, end: int, i: int)
    requires start <= i <= end
    ensures Offset(start, i) < |FactLines(start, end)|
    ensures FactLines(start, end)[Offset(start, i)] == TermFact(i)
    ensures i > 1 ==> Offset(start, i) + 1 < |FactLines(start, end)|
                      && FactLines(start, end)[Offset(start, i) + 1] == SubClassFact(i)
    ensures i <= 1 && i < end ==> Offset(start, i) + 1 < |FactLines(start, end)|
                                  && FactLines(start, end)[Offset(start, i) + 1] == TermFact(i + 1)
    ensures i <= 1 && i == end ==> Offset(start, i) + 1 == |FactLines(start, end)|
  {
    var lines := FactLines(start, end);
    var upTo := FactLines(start, i);
    var n := Offset(start, i);
    FactLinesLength(start, i - 1);
    assert |FactLines(start, i - 1)| == n;
    assert upTo == FactLines(start, i - 1) + FactsFor(i);
    FactLinesPrefix(start, i, end);
    assert lines[n] == upTo[n] == TermFact(i);
    if i > 1 {
      assert lines[n + 1] == upTo[n + 1] == SubClassFact(i);
    } else if i < end {
      assert |upTo| == n + 1;
      assert FactLines(start, i + 1) == upTo + FactsFor(i + 1);
      FactLinesPrefix(start, i + 1, end);
      assert lines[n + 1] == FactLines(start, i + 1)[n + 1] == TermFact(i + 1);
    }
  }

  // The rules `generateRules` writes.
  const IdRule: string := "isID(ID) :- term(ID,Label,TextDef)."
  const LabelRule: string := "isLabel(Label) :- term(ID,Label,TextDef)."
  const TextDefRule: string := "isTextDef(TextDef) :- term(ID,Label,TextDef)."
  const SubClassTransitive: string := "isTransitive(subClassOf)."
  const SuperClassTransitive: string := "isTransitive(superClassOf)."
  const TransitiveBase: string := "isTTriple(A, Relation, B) :- isTriple(A, Relation, B), isTransitive(Relation)."
  const TransitiveStep: string := "isTTriple(A, Relation, C) :- isTriple(A, Relation, B), isTTriple(B, Relation, C), isTransitive(Relation)."
  const SuperClassInverse: string := "isTriple(Subject, superClassOf, Object) :- isTriple(Object, subClassOf, Subject)."

  /** The block `generateRules` writes: two empty lines, then the rules in groups separated by
      empty lines; it depends on no input. */
  function Rules(): seq<string>
  {
    [ "", "", IdRule, LabelRule, TextDefRule, "", SubClassTransitive, SuperClassTransitive, "", TransitiveBase, TransitiveStep, "", SuperClassInverse, "" ]
  }

  /** `generateRules(writer)`: its fourteen writes, taken in the four groups the empty
      lines separate. */
  method GenerateRules(writer: LineWriter)
    modifies writer
    ensures writer.lines == old(writer.lines) + Rules()
  {
    WriteTermRules(writer);
    WriteTransitiveRelations(writer);
    WriteClosureRules(writer);
    WriteInverseRule(writer);
    assert Rules() == TermRules() + TransitiveRelations() + ClosureRules() + InverseRule();
  }

  /** The two empty lines and the rules naming the parts of a term fact. */
  function TermRules(): seq<string> {
    ["", "", IdRule, LabelRule, TextDefRule]
  }

  method WriteTermRules(writer: LineWriter)
    modifies writer
    ensures writer.lines == old(writer.lines) + TermRules()
  {
    writer.WriteLine("");
    writer.WriteLine("");
    writer.WriteLine(IdRule);
    writer.WriteLine(LabelRule);
    writer.WriteLine(TextDefRule);
  }

  /** An empty line and the facts that both class relations are transitive. */
  function TransitiveRelations(): seq<string> {
    ["", SubClassTransitive, SuperClassTransitive]
  }

  method WriteTransitiveRelations(writer: LineWriter)
    modifies writer
    ensures writer.lines == old(writer.lines) + TransitiveRelations()
  {
    writer.WriteLine("");
    writer.WriteLine(SubClassTransitive);
    writer.WriteLine(SuperClassTransitive);
  }

  /** An empty line and the two rules of the transitive closure. */
  function ClosureRules(): seq<string> {
    ["", TransitiveBase, TransitiveStep]
  }

  method WriteClosureRules(writer: LineWriter)
    modifies writer
    ensures writer.lines == old(writer.lines) + ClosureRules()
  {
    writer.WriteLine("");
    writer.WriteLine(TransitiveBase);
    writer.WriteLine(TransitiveStep);
  }

  /** An empty line, the rule deriving superclass triples, and a last empty line. */
  function InverseRule(): seq<string> {
    ["", SuperClassInverse, ""]
  }

  method WriteInverseRule(writer: LineWriter)
    modifies writer
    ensures writer.lines == old(writer.lines) + InverseRule()
  {
    writer.WriteLine("");
    writer.WriteLine(SuperClassInverse);
    writer.WriteLine("");
  }
}
