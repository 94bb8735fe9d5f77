/**
 * TermCreationToolsMDef: renders the logical definitions of a new term and turns them into OWL
 * axioms. A definition is a Manchester-syntax expression with `?name` placeholders and a map
 * from placeholder name to value. The OWL data factory, the Manchester parser and the reasoner
 * are collaborators, seen here as fixed functions.
 */
module TermCreationTools {
  import opened Wrappers
  import opened Text
  import opened OrderedMap

  /** An MDef: an expression and its parameters, in the order the parameter map iterates. */
  datatype MDef = MDef(expression: string, parameters: seq<Entry<string>>)

  /** The placeholder a parameter is written as. */
  function Placeholder(key: string): (p: string)
    ensures |p| == |key| + 1 && p[0] == '?'
  {
    "?" + key
  }

  /** Every parameter from the first on replaces its placeholder in the expression, one after
      the other. */
  function Substituted(expression: string, parameters: seq<Entry<string>>): string
    decreases |parameters|
  {
    if parameters == [] then expression
    else Substituted(ReplaceAll(expression, Placeholder(parameters[0].key), parameters[0].value), parameters[1..])
  }

  /** `getFullExpression(mDef)`. */
  function FullExpression(d: MDef): string {
    Substituted(d.expression, d.parameters)
  }

  /** An occurrence of a placeholder is an occurrence of `?`. */
  lemma PlaceholderMark(s: string, key: string)
    requires Contains(s, Placeholder(key))
    ensures Contains(s, "?")
  {
    var p := Placeholder(key);
    var i: nat :| i + |p| <= |s| && OccursAt(s, p, i);
    assert s[i] == s[i..i + |p|][0] == '?';
    assert s[i..i + 1] == "?";
    assert OccursAt(s, "?", i);
  }

  /** An expression in which no parameter's placeholder occurs is left as it is. */
  lemma {:induction false} SubstitutedNoPlaceholder(expression: string, parameters: seq<Entry<string>>)
    requires forall e | e in parameters :: !Contains(expression, Placeholder(e.key))
    ensures Substituted(expression, parameters) == expression
    decreases |parameters|
  {
    if parameters != [] {
      assert parameters[0] in parameters;
      ReplaceAllAbsent(expression, Placeholder(parameters[0].key), parameters[0].value);
      assert forall e | e in parameters[1..] :: e in parameters;
      SubstitutedNoPlaceholder(expression, parameters[1..]);
    }
  }

  /** With no parameters the expression is unchanged. */
  lemma NoParameters(expression: string)
    ensures FullExpression(MDef(expression, [])) == expression
  {
  }

  /** One placeholder, in text with no other `?`, is replaced by the parameter's value. */
  lemma SubstituteSingle(before: string, key: string, after: string, value: string)
    requires !Contains(before, "?") && !Contains(after, "?")
    ensures FullExpression(MDef(before + Placeholder(key) + after, [Entry(key, value)])) == before + value + after
  {
    var p := Placeholder(key);
    var front := before + p[..|p| - 1];
    forall i: nat | i <= |front| ensures !OccursAt(front, p, i) {
      if i + |p| <= |front| {
        assert !OccursAt(before, "?", i);
        assert before[i..i + 1] == [before[i]];
        assert front[i..i + |p|][0] == before[i];
      }
    }
    assert !Contains(front, p);
    ReplaceAllFirst(before, p, after, value);
    if Contains(after, p) {
      PlaceholderMark(after, key);
    }
    ReplaceAllAbsent(after, p, value);
    var ps := [Entry(key, value)];
    assert ps[1..] == [];
    assert Substituted(before + p + after, ps) == ReplaceAll(before + p + after, p, value);
  }

  // ---------------------------------------------------------------- placeholders in general

  /** A piece of an expression: literal text, or the placeholder of a parameter. */
  datatype Segment = Literal(text: string) | Slot(key: string)

  /** How a segment is written in the expression. */
  function SegmentText(g: Segment): string {
    match g
    case Literal(x) => x
    case Slot(k) => Placeholder(k)
  }

  /** The expression the segments are written as. */
  function Written(t: seq<Segment>): string
    decreases |t|
  {
    if t == [] then "" else SegmentText(t[0]) + Written(t[1..])
  }

  /** What the expression stands for: every placeholder of a parameter replaced by that
      parameter's value (`map.get`), a placeholder of no parameter left as written. */
  function Instantiated(t: seq<Segment>, parameters: seq<Entry<string>>): string
    decreases |t|
  {
    if t == [] then ""
    else
      var head := match t[0]
        case Literal(x) => x
        case Slot(k) => (match Get(parameters, k) case Some(v) => v case None => Placeholder(k));
      head + Instantiated(t[1..], parameters)
  }

  /** Segments with no `?` of their own besides the one that starts each placeholder. */
  predicate Plain(t: seq<Segment>) {
    forall i | 0 <= i < |t| :: '?' !in (match t[i] case Literal(x) => x case Slot(k) => k)
  }

  /** No placeholder in the segments is a proper prefix of parameter `k`'s, or the other way
      round, so that `?k` can start only at a placeholder of `k` itself. */
  predicate Separated(t: seq<Segment>, k: string) {
    forall i | 0 <= i < |t| && t[i].Slot? && t[i].key != k :: !(k <= t[i].key) && !(t[i].key <= k)
  }

  /** The segments once every placeholder of `k` has become the literal `v`. */
  function Filled(t: seq<Segment>, k: string, v: string): (r: seq<Segment>)
    ensures |r| == |t|
    ensures forall i | 0 <= i < |t| :: r[i] == if t[i] == Slot(k) then Literal(v) else t[i]
    decreases |t|
  {
    if t == [] then [] else [if t[0] == Slot(k) then Literal(v) else t[0]] + Filled(t[1..], k, v)
  }

  /** Literal text without `?` passes through `replaceAll` of a placeholder unchanged. */
  lemma {:induction false} LiteralFront(x: string, rest: string, p: string, r: string)
    requires |p| > 0 && p[0] == '?' && '?' !in x
    ensures ReplaceAll(x + rest, p, r) == x + ReplaceAll(rest, p, r)
    decreases |x|
  {
    if x != [] {
      var s := x + rest;
      assert s[1..] == x[1..] + rest;
      LiteralFront(x[1..], rest, p, r);
      if |s| >= |p| {
        assert s[..|p|][0] == x[0];
      }
    } else {
      assert x + rest == rest;
    }
  }

  /** A placeholder of `k` itself is replaced, and the scan goes on after it. */
  lemma SlotSame(k: string, rest: string, v: string)
    ensures ReplaceAll(Placeholder(k) + rest, Placeholder(k), v) == v + ReplaceAll(rest, Placeholder(k), v)
  {
    var p := Placeholder(k);
    assert (p + rest)[..|p|] == p && (p + rest)[|p|..] == rest;
  }

  /** A key that is neither a prefix of `a` nor extended by it does not start `a + rest`. */
  lemma OtherKeyNotPrefix(a: string, k: string, rest: string)
    requires !(k <= a) && !(a <= k)
    ensures !(k <= a + rest)
  {
    if |k| <= |a| + |rest| {
      if |k| <= |a| {
        assert (a + rest)[..|k|] == a[..|k|];
      } else {
        assert (a + rest)[..|k|][..|a|] == a;
      }
    }
  }

  /** A placeholder of another key, neither a prefix of `k` nor extended by it, is kept. */
  lemma SlotOther(a: string, k: string, rest: string, v: string)
    requires '?' !in a && a != k && !(k <= a) && !(a <= k)
    ensures ReplaceAll(Placeholder(a) + rest, Placeholder(k), v) == Placeholder(a) + ReplaceAll(rest, Placeholder(k), v)
  {
    var p := Placeholder(k);
    var s := Placeholder(a) + rest;
    assert s[0] == '?' && s[1..] == a + rest;
    if |s| >= |p| {
      OtherKeyNotPrefix(a, k, rest);
      assert s[..|p|] != p by {
        assert s[..|p|][1..] == (a + rest)[..|k|] && p[1..] == k;
      }
      assert ReplaceAll(s, p, v) == [s[0]] + ReplaceAll(s[1..], p, v);
    }
    LiteralFront(a, rest, p, v);
    assert [s[0]] + (a + ReplaceAll(rest, p, v)) == Placeholder(a) + ReplaceAll(rest, p, v);
  }

  /** `replaceAll` of `?k` on the written segments replaces exactly the placeholders of `k`. */
  lemma {:induction false} ReplaceSegments(t: seq<Segment>, k: string, v: string)
    requires '?' !in k && Plain(t) && Separated(t, k)
    ensures ReplaceAll(Written(t), Placeholder(k), v) == Written(Filled(t, k, v))
    decreases |t|
  {
    if t != [] {
      var p := Placeholder(k);
      var rest := Written(t[1..]);
      assert Plain(t[1..]) && Separated(t[1..], k) by {
        assert forall i | 0 <= i < |t| - 1 :: t[1..][i] == t[i + 1];
      }
      ReplaceSegments(t[1..], k, v);
      var f := Filled(t, k, v);
      assert f[1..] == Filled(t[1..], k, v);
      assert Written(f) == SegmentText(f[0]) + Written(f[1..]);
      assert '?' !in (match t[0] case Literal(x) => x case Slot(a) => a);
      match t[0]
      case Literal(x) =>
        LiteralFront(x, rest, p, v);
      case Slot(a) =>
        if a == k {
          SlotSame(k, rest, v);
        } else {
          SlotOther(a, k, rest, v);
        }
    }
  }

  /** With no parameters every placeholder stays as written. */
  lemma {:induction false} InstantiatedNone(t: seq<Segment>)
    ensures Instantiated(t, []) == Written(t)
    decreases |t|
  {
    if t != [] {
      InstantiatedNone(t[1..]);
    }
  }

  /** Filling in the first parameter and instantiating with the others is instantiating with
      all of them. */
  lemma {:induction false} InstantiatedFilled(t: seq<Segment>, parameters: seq<Entry<string>>)
    requires parameters != []
    ensures Instantiated(Filled(t, parameters[0].key, parameters[0].value), parameters[1..]) == Instantiated(t, parameters)
    decreases |t|
  {
    if t != [] {
      var e := parameters[0];
      var f := Filled(t, e.key, e.value);
      assert f[1..] == Filled(t[1..], e.key, e.value);
      InstantiatedFilled(t[1..], parameters);
      if t[0].Slot? {
        GetFront(parameters, t[0].key);
      }
    }
  }

  /** `getFullExpression` replaces each placeholder of a parameter by that parameter's value,
      and leaves everything else as written, when the literal text, the keys and the values have
      no `?` of their own and no key is a proper prefix of another one in use. */
  lemma {:induction false} FullExpressionInstantiates(t: seq<Segment>, parameters: seq<Entry<string>>)
    requires Plain(t)
    requires forall e | e in parameters :: '?' !in e.key && '?' !in e.value && Separated(t, e.key)
    ensures FullExpression(MDef(Written(t), parameters)) == Instantiated(t, parameters)
    decreases |parameters|
  {
    if parameters == [] {
      InstantiatedNone(t);
    } else {
      var e := parameters[0];
      assert e in parameters;
      var f := Filled(t, e.key, e.value);
      ReplaceSegments(t, e.key, e.value);
      assert Plain(f);
      forall e2 | e2 in parameters[1..]
        ensures '?' !in e2.key && '?' !in e2.value && Separated(f, e2.key)
      {
        assert e2 in parameters;
      }
      FullExpressionInstantiates(f, parameters[1..]);
      InstantiatedFilled(t, parameters);
    }
  }

  /** Why the literal text must hold no `?`: a value can complete a placeholder whose `?` stood
      just before it in the text, and the next parameter then replaces that placeholder too. */
  lemma QuestionMarkBeforePlaceholder()
    ensures FullExpression(MDef("??a", [Entry("a", "b"), Entry("b", "X")])) == "X"
    ensures Instantiated([Literal("?"), Slot("a")], [Entry("a", "b"), Entry("b", "X")]) == "?b"
    ensures Written([Literal("?"), Slot("a")]) == "??a"
  {
    assert ("??a")[..2] != "?a" by { assert ("??a")[..2][1] == '?' != ("?a")[1]; }
    assert ("??a")[1..] == "?a";
    assert ("?a")[..2] == "?a" && ("?a")[2..] == "";
    assert ReplaceAll("??a", "?a", "b") == "?b";
    assert ("?b")[..2] == "?b" && ("?b")[2..] == "";
    assert Written([Slot("a")]) == "?a";
  }

  /** `"?a ?b"` with `a` set to `?b` and then `b` set to `X`: the second replacement also takes
      the `?b` that the first one wrote. */
  lemma ReplacedAgain()
    ensures FullExpression(MDef("?a ?b", [Entry("a", "?b"), Entry("b", "X")])) == "X X"
  {
    assert ReplaceAll("?b", "?a", "?b") == "?b" by {
      assert ("?b")[..2][1] == 'b' != ("?a")[1];
      assert ("?b")[1..] == "b";
    }
    assert ReplaceAll("?a ?b", "?a", "?b") == "?b ?b" by {
      assert ("?a ?b")[..2] == "?a" && ("?a ?b")[2..] == " ?b";
      assert (" ?b")[..2] != "?a" && (" ?b")[1..] == "?b";
    }
    assert ReplaceAll("?b ?b", "?b", "X") == "X X" by {
      assert ("?b ?b")[..2] == "?b" && ("?b ?b")[2..] == " ?b";
      assert (" ?b")[..2] != "?b" && (" ?b")[1..] == "?b";
      assert ("?b")[..2] == "?b" && ("?b")[2..] == "";
    }
    var parameters := [Entry("a", "?b"), Entry("b", "X")];
    assert Placeholder("a") == "?a" && Placeholder("b") == "?b";
    assert parameters[1..] == [Entry("b", "X")] && parameters[1..][1..] == [];
    assert Substituted("?a ?b", parameters) == Substituted("?b ?b", [Entry("b", "X")]);
    assert Substituted("?b ?b", [Entry("b", "X")]) == Substituted("X X", []);
  }

  /** `[Slot("a"), Literal(" "), Slot("b")]` is written `"?a ?b"` and, with `a` set to `?b` and
      `b` set to `X`, stands for `"?b X"`. */
  lemma EachValueOnce()
    ensures Instantiated([Slot("a"), Literal(" "), Slot("b")], [Entry("a", "?b"), Entry("b", "X")]) == "?b X"
    ensures Written([Slot("a"), Literal(" "), Slot("b")]) == "?a ?b"
  {
    var parameters := [Entry("a", "?b"), Entry("b", "X")];
    var t := [Slot("a"), Literal(" "), Slot("b")];
    assert t[1..] == [Literal(" "), Slot("b")] && t[1..][1..] == [Slot("b")];
    assert Get(parameters, "a") == Some("?b");
    assert Get(parameters, "b") == Some("X") by { assert parameters[1..] == [Entry("b", "X")]; }
  }

  /** Why the values must hold no `?`: a value that is itself a placeholder of a later parameter
      is replaced again, which `map.get` would not do. */
  lemma QuestionMarkInValue()
    ensures FullExpression(MDef("?a ?b", [Entry("a", "?b"), Entry("b", "X")])) == "X X"
    ensures Instantiated([Slot("a"), Literal(" "), Slot("b")], [Entry("a", "?b"), Entry("b", "X")]) == "?b X"
    ensures Written([Slot("a"), Literal(" "), Slot("b")]) == "?a ?b"
  {
    ReplacedAgain();
    EachValueOnce();
  }

  /** An expression in the double quotes the rendering puts around it. */
  function Quote(e: string): (q: string)
    ensures |q| == |e| + 2 && q[0] == '"' && q[|q| - 1] == '"' && q[1..|q| - 1] == e
  {
    "\"" + e + "\""
  }

  /** The quoted full expressions of the definitions, in order. */
  function QuotedExpressions(defs: seq<MDef>): (qs: seq<string>)
    ensures |qs| == |defs| && forall i :: 0 <= i < |defs| ==> qs[i] == Quote(FullExpression(defs[i]))
  {
    if defs == [] then [] else QuotedExpressions(defs[..|defs| - 1]) + [Quote(FullExpression(defs[|defs| - 1]))]
  }

  /** The rendering of no definitions is empty, and of one its quoted full expression. */
  lemma RenderFewDefinitions(defs: seq<MDef>)
    ensures defs == [] ==> Join(QuotedExpressions(defs), ", ") == ""
    ensures |defs| == 1 ==> Join(QuotedExpressions(defs), ", ") == Quote(FullExpression(defs[0]))
  {
  }

  /** A rendering of several definitions starts with the first quoted expression and ends with
      the last, with the separator in front of the last. */
  lemma {:induction false} RenderEnds(defs: seq<MDef>)
    requires |defs| >= 2
    ensures var r := Join(QuotedExpressions(defs), ", ");
      var first := Quote(FullExpression(defs[0]));
      var last := ", " + Quote(FullExpression(defs[|defs| - 1]));
      && |r| >= |first| + |last|
      && r[..|first|] == first && r[|r| - |last|..] == last
  {
    var qs := QuotedExpressions(defs);
    var first := Quote(FullExpression(defs[0]));
    var front := Join(qs[..|qs| - 1], ", ");
    assert qs[..|qs| - 1] == QuotedExpressions(defs[..|defs| - 1]);
    JoinStartsWith(qs[..|qs| - 1], ", ");
    assert front[..|first|] == first;
  }

  /** One more definition adds its quoted expression, after the separator unless it is the first. */
  lemma QuotedStep(defs: seq<MDef>, i: nat, sb: string, expression: string)
    requires i < |defs|
    requires sb == Join(QuotedExpressions(defs[..i]), ", ") && expression == FullExpression(defs[i])
    ensures Join(QuotedExpressions(defs[..i + 1]), ", ") == (if i > 0 then sb + ", " else sb) + Quote(expression)
  {
    var q := Quote(expression);
    var qs := QuotedExpressions(defs[..i + 1]);
    assert qs == QuotedExpressions(defs[..i]) + [q] by {
      assert defs[..i + 1][..i] == defs[..i];
    }
    if i == 0 {
      assert Join(qs, ", ") == q by {
        assert qs == [q];
      }
      assert sb + q == q;
    } else {
      assert qs[..|qs| - 1] == QuotedExpressions(defs[..i]);
    }
  }

  /** A non-empty join starts with its first part. */
  lemma {:induction false} JoinStartsWith(parts: seq<string>, sep: string)
    requires parts != []
    ensures |Join(parts, sep)| >= |parts[0]| && Join(parts, sep)[..|parts[0]|] == parts[0]
  {
    if |parts| > 1 {
      JoinStartsWith(parts[..|parts| - 1], sep);
    }
  }

  // ---------------------------------------------------------------- axioms

  /** A parsed Manchester class expression. */
  datatype ClassExpression = ClassExpression(text: string)

  /** The axioms this model distinguishes; `Relation` stands for any axiom the reasoner infers. */
  datatype Axiom = Declaration(iri: string) | Label(iri: string, literal: string)
                 | Equivalent(iri: string, expression: ClassExpression) | Relation(text: string)

  /** InferredRelations, as far as `createRelations` touches it: the class-relation axioms,
      possibly null. */
  datatype InferredRelations = InferredRelations(classRelationAxioms: Option<set<Axiom>>)

  /** `InferredRelations.EMPTY`. */
  const EmptyRelations := InferredRelations(None)

  /** The Manchester parser (none for a ParserException) and the reasoner task, which sees the
      new class and the changes applied so far and either infers relations or finds the
      reasoner invalid. */
  datatype Reasoner = Reasoner(parse: string -> Option<ClassExpression>,
                               infer: (string, seq<Axiom>) -> Result<InferredRelations, string>)

  /** The result of `createRelations` with the changes applied to the tracker. */
  datatype Created = Created(result: Result<InferredRelations, string>, applied: seq<Axiom>)

  /** The equivalence axioms of definitions `i` on, applied one by one; a definition that does
      not parse stops the loop with its message, keeping what was applied before it. */
  function EquivalencesFrom(reasoner: Reasoner, iri: string, defs: seq<MDef>, i: nat, applied: seq<Axiom>): Created
    requires i <= |defs|
    decreases |defs| - i
  {
    if i == |defs| then Created(Ok(EmptyRelations), applied)
    else
      var expression := FullExpression(defs[i]);
      match reasoner.parse(expression)
      case None => Created(Throw("Could not create OWL class expressions from expression: " + expression), applied)
      case Some(e) => EquivalencesFrom(reasoner, iri, defs, i + 1, applied + [Equivalent(iri, e)])
  }

  /** The inferred relations with a defensive copy of their class-relation axioms (empty when
      null) to which the declaration axiom is added. */
  function WithDeclaration(relations: InferredRelations, iri: string): InferredRelations {
    var inferred := if relations.classRelationAxioms.Some? then relations.classRelationAxioms.value else {};
    relations.(classRelationAxioms := Some(inferred + {Declaration(iri)}))
  }

  /** `createRelations(logicalDefinitions, newId, label, changeTracker)`. */
  function CreatedRelations(reasoner: Reasoner, defs: Option<seq<MDef>>, newId: string, labelText: string,
                            applied: seq<Axiom>): Created
  {
    if defs.None? || defs.value == [] then Created(Ok(EmptyRelations), applied)
    else
      var declared := applied + [Declaration(newId), Label(newId, labelText)];
      var added := EquivalencesFrom(reasoner, newId, defs.value, 0, declared);
      if added.result.Throw? then added
      else match reasoner.infer(newId, added.applied)
        case Throw(_) => Created(Throw("Could not create releations due to an invalid reasoner."), added.applied)
        case Ok(relations) => Created(Ok(WithDeclaration(relations, newId)), added.applied)
  }

  /** Without definitions nothing is applied and the empty relations are returned. */
  lemma NoDefinitions(reasoner: Reasoner, defs: Option<seq<MDef>>, newId: string, labelText: string, applied: seq<Axiom>)
    requires defs.None? || defs.value == []
    ensures CreatedRelations(reasoner, defs, newId, labelText, applied) == Created(Ok(EmptyRelations), applied)
  {
  }

  /** The returned class relations are exactly the inferred ones plus the declaration of the
      new class. */
  lemma RelationAxioms(reasoner: Reasoner, defs: seq<MDef>, newId: string, labelText: string, applied: seq<Axiom>)
    requires defs != []
    ensures var c := CreatedRelations(reasoner, Some(defs), newId, labelText, applied);
      c.result.Ok? ==>
        && c.result.value.classRelationAxioms.Some?
        && Declaration(newId) in c.result.value.classRelationAxioms.value
        && (reasoner.infer(newId, c.applied).value.classRelationAxioms.Some? ==>
              reasoner.infer(newId, c.applied).value.classRelationAxioms.value <= c.result.value.classRelationAxioms.value)
        && forall a | a in c.result.value.classRelationAxioms.value ::
             a == Declaration(newId) || (reasoner.infer(newId, c.applied).value.classRelationAxioms.Some? &&
                                         a in reasoner.infer(newId, c.applied).value.classRelationAxioms.value)
  {
    var declared := applied + [Declaration(newId), Label(newId, labelText)];
    var added := EquivalencesFrom(reasoner, newId, defs, 0, declared);
    EquivalencesApplied(reasoner, newId, defs, 0, declared);
  }

  /** Definitions that all parse add one equivalence axiom each, in order, after what was
      applied before; otherwise the first that does not parse is reported and the ones after it
      add nothing. */
  lemma {:induction false} EquivalencesApplied(reasoner: Reasoner, iri: string, defs: seq<MDef>, i: nat, applied: seq<Axiom>)
    requires i <= |defs|
    ensures var c := EquivalencesFrom(reasoner, iri, defs, i, applied);
      && (c.result.Ok? ==> c.result.value == EmptyRelations)
      && |applied| <= |c.applied| <= |applied| + |defs| - i
      && c.applied[..|applied|] == applied
      && (c.result.Ok? <==> forall k | i <= k < |defs| :: reasoner.parse(FullExpression(defs[k])).Some?)
      && (c.result.Ok? ==> |c.applied| == |applied| + |defs| - i)
      && (c.result.Ok? ==>
            forall k | i <= k < |defs| :: c.applied[|applied| + k - i] == Equivalent(iri, reasoner.parse(FullExpression(defs[k])).value))
    decreases |defs| - i
  {
    if i < |defs| {
      var expression := FullExpression(defs[i]);
      match reasoner.parse(expression)
      case None =>
      case Some(e) =>
        var next := applied + [Equivalent(iri, e)];
        EquivalencesApplied(reasoner, iri, defs, i + 1, next);
        var c := EquivalencesFrom(reasoner, iri, defs, i + 1, next);
        assert c.applied[..|next|] == next;
        assert c.applied[..|next|][..|applied|] == c.applied[..|applied|];
        assert c.applied[|applied|] == next[|applied|];
    }
  }

  // ---------------------------------------------------------------- the objects

  /** The OWLChangeTracker: the changes applied, in order. */
  class ChangeTracker {
    var applied: seq<Axiom>

    constructor ()
      ensures applied == []
    {
      applied := [];
    }

    /** `apply(new AddAxiom(ontology, axiom))`. */
    method Apply(axiom: Axiom)
      modifies this
      ensures applied == old(applied) + [axiom]
    {
      applied := applied + [axiom];
    }
  }

  /** The tools for one term, with the parser and reasoner of the target ontology. */
  class TermCreationToolsMDef {
    const reasoner: Reasoner

    constructor (reasoner: Reasoner)
      ensures this.reasoner == reasoner
    {
      this.reasoner := reasoner;
    }

    /** `renderLogicalDefinition(logicalDefinitions)`: the quoted full expressions separated by
        `", "`, with no separator at either end. */
    method RenderLogicalDefinition(logicalDefinitions: seq<MDef>) returns (r: string)
      ensures r == Join(QuotedExpressions(logicalDefinitions), ", ")
    {
      var sb := "";
      for i := 0 to |logicalDefinitions|
        invariant sb == Join(QuotedExpressions(logicalDefinitions[..i]), ", ")
      {
        var expression := GetFullExpression(logicalDefinitions[i]);
        QuotedStep(logicalDefinitions, i, sb, expression);
        if i > 0 {
          sb := sb + ", ";
        }
        sb := sb + ("\"" + expression + "\"");
      }
      assert logicalDefinitions[..|logicalDefinitions|] == logicalDefinitions;
      r := sb;
    }

    /** `getFullExpression(mDef)`: one `replaceAll` per parameter. */
    method GetFullExpression(mDef: MDef) returns (expression: string)
      ensures expression == FullExpression(mDef)
    {
      expression := mDef.expression;
      var parameters := mDef.parameters;
      for i := 0 to |parameters|
        invariant FullExpression(mDef) == Substituted(expression, parameters[i..])
      {
        assert parameters[i..][1..] == parameters[i + 1..];
        expression := ReplaceAll(expression, "?" + parameters[i].key, parameters[i].value);
      }
    }

    /** `createRelations(logicalDefinitions, newId, label, changeTracker)`: declares and labels
        the new class, adds an equivalence axiom per definition, runs the reasoner and adds the
        declaration to the inferred class relations. */
    method CreateRelations(logicalDefinitions: Option<seq<MDef>>, newId: string, labelText: string, changeTracker: ChangeTracker)
      returns (r: Result<InferredRelations, string>)
      modifies changeTracker
      ensures Created(r, changeTracker.applied) == CreatedRelations(reasoner, logicalDefinitions, newId, labelText, old(changeTracker.applied))
    {
      if logicalDefinitions.None? || logicalDefinitions.value == [] {
        return Ok(EmptyRelations);
      }
      var defs := logicalDefinitions.value;
      changeTracker.Apply(Declaration(newId));
      changeTracker.Apply(Label(newId, labelText));
      ghost var declared := changeTracker.applied;
      assert declared == old(changeTracker.applied) + [Declaration(newId), Label(newId, labelText)];
      for i := 0 to |defs|
        invariant EquivalencesFrom(reasoner, newId, defs, 0, declared) == EquivalencesFrom(reasoner, newId, defs, i, changeTracker.applied)
      {
        var expression := GetFullExpression(defs[i]);
        var owlClassExpression := reasoner.parse(expression);
        if owlClassExpression.None? {
          assert EquivalencesFrom(reasoner, newId, defs, i, changeTracker.applied)
                 == Created(Throw("Could not create OWL class expressions from expression: " + expression), changeTracker.applied);
          return Throw("Could not create OWL class expressions from expression: " + expression);
        }
        changeTracker.Apply(Equivalent(newId, owlClassExpression.value));
      }
      var task := reasoner.infer(newId, changeTracker.applied);
      if task.Throw? {
        return Throw("Could not create releations due to an invalid reasoner.");
      }
      var inferredRelations := task.value;
      var classRelationAxioms: set<Axiom>;
      if inferredRelations.classRelationAxioms.Some? {
        classRelationAxioms := inferredRelations.classRelationAxioms.value;
      } else {
        classRelationAxioms := {};
      }
      classRelationAxioms := classRelationAxioms + {Declaration(newId)};
      return Ok(inferredRelations.(classRelationAxioms := Some(classRelationAxioms)));
    }
  }
}
