/**
 * What the settings parser promises, stated against independent descriptions of a section:
 * where it ends, and which of its lines determine the ontology or branch it adds.
 */
module ConfigurationProperties {
  import opened Wrappers
  import opened Text
  import opened OrderedMap
  import opened OntologyConfiguration

  /** The first line at or after `i` that ends a section, or the end of the input. */
  function BlockEnd(lines: seq<string>, i: nat): (e: nat)
    requires i <= |lines|
    ensures i <= e <= |lines|
    ensures forall k | i <= k < e :: !ShortLine(lines[k])
    ensures e < |lines| ==> ShortLine(lines[e])
    decreases |lines| - i
  {
    if i == |lines| || ShortLine(lines[i]) then i else BlockEnd(lines, i + 1)
  }

  /** The line, trimmed, is a field with this prefix. */
  predicate IsField(line: string, prefix: string) {
    StartsWith(Trim(line), prefix)
  }

  /** The values of the fields with this prefix among lines `a` to `e` (exclusive), in order. */
  function Values(lines: seq<string>, a: nat, e: nat, prefix: string): seq<string>
    requires a <= e <= |lines|
    decreases e - a
  {
    if a == e then []
    else (if IsField(lines[a], prefix) then [GetValue(Trim(lines[a]), prefix)] else []) + Values(lines, a + 1, e, prefix)
  }

  /** The value of the last field with this prefix among lines `a` to `e`, if there is one. */
  function LastValue(lines: seq<string>, a: nat, e: nat, prefix: string): Option<string>
    requires a <= e <= |lines|
    decreases e - a
  {
    if a == e then None
    else
      var later := LastValue(lines, a + 1, e, prefix);
      if later.Some? then later
      else if IsField(lines[a], prefix) then Some(GetValue(Trim(lines[a]), prefix))
      else None
  }

  /** The index of the last `name: ` line among lines `a` to `e`, or -1. */
  function LastNameAt(lines: seq<string>, a: nat, e: nat): (r: int)
    requires a <= e <= |lines|
    ensures r == -1 || (a <= r < e && IsField(lines[r], NamePrefix))
    decreases e - a
  {
    if a == e then -1
    else
      var later := LastNameAt(lines, a + 1, e);
      if later >= 0 then later else if IsField(lines[a], NamePrefix) then a else -1
  }

  function Or<T>(x: Option<T>, y: Option<T>): Option<T> {
    if x.Some? then x else y
  }

  /** An ontology after the fields of lines `a` to `e`: the last source wins, supports and
      requires are appended in order. */
  function Extend(current: Option<ConfiguredOntology>, lines: seq<string>, a: nat, e: nat): Option<ConfiguredOntology>
    requires a <= e <= |lines|
  {
    match current
    case None => None
    case Some(o) => Some(o.(source := Or(LastValue(lines, a, e, SourcePrefix), o.source),
                            supports := o.supports + Values(lines, a, e, SupportPrefix),
                            required := o.required + Values(lines, a, e, RequiresPrefix)))
  }

  /** The ontology a section from `i` to `e` leaves: the one its last `name: ` line started,
      extended by the fields after that line, or the one it started with, extended by all. */
  function SectionOntology(lines: seq<string>, i: nat, e: nat, current: Option<ConfiguredOntology>): Option<ConfiguredOntology>
    requires i <= e <= |lines|
  {
    var n := LastNameAt(lines, i, e);
    if n < 0 then Extend(current, lines, i, e)
    else Extend(Some(NewOntology(GetValue(Trim(lines[n]), NamePrefix))), lines, n + 1, e)
  }

  /** The line prefixes the parser tests cannot both match one line. */
  lemma PrefixesExclusive(t: string)
    ensures StartsWith(t, "!") ==> (!StartsWith(t, NamePrefix) && !StartsWith(t, SourcePrefix)
      && !StartsWith(t, SupportPrefix) && !StartsWith(t, RequiresPrefix)
      && !StartsWith(t, OntologyPrefix) && !StartsWith(t, ParentPrefix))
    ensures StartsWith(t, NamePrefix) ==> (!StartsWith(t, SourcePrefix) && !StartsWith(t, SupportPrefix)
      && !StartsWith(t, RequiresPrefix) && !StartsWith(t, OntologyPrefix) && !StartsWith(t, ParentPrefix))
    ensures StartsWith(t, SourcePrefix) ==> !StartsWith(t, SupportPrefix) && !StartsWith(t, RequiresPrefix)
    ensures StartsWith(t, SupportPrefix) ==> !StartsWith(t, RequiresPrefix)
    ensures StartsWith(t, OntologyPrefix) ==> !StartsWith(t, ParentPrefix)
  {
    if |t| >= 2 {
      assert StartsWith(t, "!") ==> t[0] == '!';
      assert StartsWith(t, NamePrefix) ==> t[0] == 'n';
      assert StartsWith(t, SourcePrefix) ==> t[0] == 's' && t[1] == 'o';
      assert StartsWith(t, SupportPrefix) ==> t[0] == 's' && t[1] == 'u';
      assert StartsWith(t, RequiresPrefix) ==> t[0] == 'r';
      assert StartsWith(t, OntologyPrefix) ==> t[0] == 'o';
      assert StartsWith(t, ParentPrefix) ==> t[0] == 'p';
    }
  }

  /** A line that is not a `name: ` line extends the ontology as the step function does. */
  lemma ExtendStep(lines: seq<string>, i: nat, e: nat, current: Option<ConfiguredOntology>)
    requires i < e <= |lines| && !ShortLine(lines[i]) && !IsField(lines[i], NamePrefix)
    ensures Extend(current, lines, i, e) == Extend(OntologyStep(current, Trim(lines[i])), lines, i + 1, e)
  {
    var t := Trim(lines[i]);
    PrefixesExclusive(t);
    if current.Some? {
      if StartsWith(t, "!") {
        ValuesSkip(lines, i, e, current.value, t);
      } else if StartsWith(t, SourcePrefix) {
        ValuesSource(lines, i, e, current.value, t);
      } else if StartsWith(t, SupportPrefix) {
        ValuesSupport(lines, i, e, current.value, t);
      } else if StartsWith(t, RequiresPrefix) {
        ValuesRequires(lines, i, e, current.value, t);
      } else {
        ValuesSkip(lines, i, e, current.value, t);
      }
    }
  }

  /** A line that is none of the three fields leaves the ontology as it is. */
  lemma ValuesSkip(lines: seq<string>, i: nat, e: nat, o: ConfiguredOntology, t: string)
    requires i < e <= |lines| && t == Trim(lines[i])
    requires !StartsWith(t, SourcePrefix) && !StartsWith(t, SupportPrefix) && !StartsWith(t, RequiresPrefix)
    requires !StartsWith(t, NamePrefix)
    ensures Extend(Some(o), lines, i, e) == Extend(OntologyStep(Some(o), t), lines, i + 1, e)
  {
    assert OntologyStep(Some(o), t) == Some(o);
    assert LastValue(lines, i, e, SourcePrefix) == LastValue(lines, i + 1, e, SourcePrefix);
    assert Values(lines, i, e, SupportPrefix) == Values(lines, i + 1, e, SupportPrefix);
    assert Values(lines, i, e, RequiresPrefix) == Values(lines, i + 1, e, RequiresPrefix);
  }

  /** A `source: ` line sets the source unless a later one overrides it. */
  lemma ValuesSource(lines: seq<string>, i: nat, e: nat, o: ConfiguredOntology, t: string)
    requires i < e <= |lines| && t == Trim(lines[i])
    requires StartsWith(t, SourcePrefix) && !StartsWith(t, SupportPrefix) && !StartsWith(t, RequiresPrefix)
    requires !StartsWith(t, "!") && !StartsWith(t, NamePrefix)
    ensures Extend(Some(o), lines, i, e) == Extend(OntologyStep(Some(o), t), lines, i + 1, e)
  {
    var v := GetValue(t, SourcePrefix);
    var lv := LastValue(lines, i + 1, e, SourcePrefix);
    assert OntologyStep(Some(o), t) == Some(o.(source := Some(v)));
    assert LastValue(lines, i, e, SourcePrefix) == Or(lv, Some(v));
    assert Values(lines, i, e, SupportPrefix) == Values(lines, i + 1, e, SupportPrefix);
    assert Values(lines, i, e, RequiresPrefix) == Values(lines, i + 1, e, RequiresPrefix);
  }

  /** A `support: ` line appends its value before those of the later lines. */
  lemma ValuesSupport(lines: seq<string>, i: nat, e: nat, o: ConfiguredOntology, t: string)
    requires i < e <= |lines| && t == Trim(lines[i])
    requires !StartsWith(t, SourcePrefix) && StartsWith(t, SupportPrefix) && !StartsWith(t, RequiresPrefix)
    requires !StartsWith(t, "!") && !StartsWith(t, NamePrefix)
    ensures Extend(Some(o), lines, i, e) == Extend(OntologyStep(Some(o), t), lines, i + 1, e)
  {
    var v := GetValue(t, SupportPrefix);
    var sv := Values(lines, i + 1, e, SupportPrefix);
    assert OntologyStep(Some(o), t) == Some(o.(supports := o.supports + [v]));
    assert LastValue(lines, i, e, SourcePrefix) == LastValue(lines, i + 1, e, SourcePrefix);
    assert Values(lines, i, e, SupportPrefix) == [v] + sv;
    assert o.supports + ([v] + sv) == (o.supports + [v]) + sv;
    assert Values(lines, i, e, RequiresPrefix) == Values(lines, i + 1, e, RequiresPrefix);
  }

  /** A `requires: ` line appends its value before those of the later lines. */
  lemma ValuesRequires(lines: seq<string>, i: nat, e: nat, o: ConfiguredOntology, t: string)
    requires i < e <= |lines| && t == Trim(lines[i])
    requires !StartsWith(t, SourcePrefix) && !StartsWith(t, SupportPrefix) && StartsWith(t, RequiresPrefix)
    requires !StartsWith(t, "!") && !StartsWith(t, NamePrefix)
    ensures Extend(Some(o), lines, i, e) == Extend(OntologyStep(Some(o), t), lines, i + 1, e)
  {
    var v := GetValue(t, RequiresPrefix);
    var rv := Values(lines, i + 1, e, RequiresPrefix);
    assert OntologyStep(Some(o), t) == Some(o.(required := o.required + [v]));
    assert LastValue(lines, i, e, SourcePrefix) == LastValue(lines, i + 1, e, SourcePrefix);
    assert Values(lines, i, e, SupportPrefix) == Values(lines, i + 1, e, SupportPrefix);
    assert Values(lines, i, e, RequiresPrefix) == [v] + rv;
    assert o.required + ([v] + rv) == (o.required + [v]) + rv;
  }

  /** One long line of an ontology section moves the description forward by one line. */
  lemma SectionOntologyStep(lines: seq<string>, i: nat, e: nat, current: Option<ConfiguredOntology>)
    requires i < e <= |lines| && !ShortLine(lines[i])
    ensures SectionOntology(lines, i, e, current) == SectionOntology(lines, i + 1, e, OntologyStep(current, Trim(lines[i])))
  {
    var t := Trim(lines[i]);
    var later := LastNameAt(lines, i + 1, e);
    if later >= 0 {
      assert LastNameAt(lines, i, e) == later;
    } else if IsField(lines[i], NamePrefix) {
      PrefixesExclusive(t);
      assert LastNameAt(lines, i, e) == i;
      assert OntologyStep(current, t) == Some(NewOntology(GetValue(t, NamePrefix)));
    } else {
      assert LastNameAt(lines, i, e) == -1;
      ExtendStep(lines, i, e, current);
    }
  }

  /** An empty range of lines changes nothing. */
  lemma ExtendEmpty(lines: seq<string>, i: nat, current: Option<ConfiguredOntology>)
    requires i <= |lines|
    ensures SectionOntology(lines, i, i, current) == current
  {
    if current.Some? {
      assert current.value.supports + [] == current.value.supports;
      assert current.value.required + [] == current.value.required;
    }
  }

  /** `parseOntology` from line `i` with a current ontology: the section ends at the first short
      line (which is consumed) or at the end of the input, and the ontology it leaves is stored
      under its name. */
  lemma {:induction false} OntologySectionFrom(lines: seq<string>, i: nat, current: Option<ConfiguredOntology>,
                                               m: seq<Entry<ConfiguredOntology>>)
    requires i <= |lines|
    ensures var e := BlockEnd(lines, i);
      ParseOntologyFrom(lines, i, current, m)
      == Parsed(Store(m, SectionOntology(lines, i, e, current)), if e < |lines| then e + 1 else e)
    decreases |lines| - i
  {
    if i < |lines| && !ShortLine(lines[i]) {
      OntologySectionFrom(lines, i + 1, OntologyStep(current, Trim(lines[i])), m);
      SectionOntologyStep(lines, i, BlockEnd(lines, i), current);
    } else {
      ExtendEmpty(lines, i, current);
    }
  }

  /** An `[Ontology]` section: without a `name: ` line it adds nothing (fields before any name
      are ignored); otherwise the ontology named by its last `name: ` line is put under that
      name, with the last source and the supports and requires that follow that line, in order.
      An earlier unfinished ontology of the same section is dropped. */
  lemma OntologySection(lines: seq<string>, i: nat, m: seq<Entry<ConfiguredOntology>>)
    requires i <= |lines|
    ensures var e := BlockEnd(lines, i);
      var n := LastNameAt(lines, i, e);
      var r := ParseOntologyFrom(lines, i, None, m);
      && r.next == (if e < |lines| then e + 1 else e)
      && (n < 0 ==> r.ontologies == m)
      && (n >= 0 ==>
            var name := GetValue(Trim(lines[n]), NamePrefix);
            r.ontologies == Put(m, name, ConfiguredOntology(name, None, LastValue(lines, n + 1, e, SourcePrefix),
                                                            Values(lines, n + 1, e, SupportPrefix),
                                                            Values(lines, n + 1, e, RequiresPrefix))))
  {
    OntologySectionFrom(lines, i, None, m);
    SectionOntologyFresh(lines, i, BlockEnd(lines, i));
  }

  lemma SectionOntologyFresh(lines: seq<string>, i: nat, e: nat)
    requires i <= e <= |lines|
    ensures var n := LastNameAt(lines, i, e);
      && (n < 0 ==> SectionOntology(lines, i, e, None) == None)
      && (n >= 0 ==>
            var name := GetValue(Trim(lines[n]), NamePrefix);
            SectionOntology(lines, i, e, None)
            == Some(ConfiguredOntology(name, None, LastValue(lines, n + 1, e, SourcePrefix),
                                       Values(lines, n + 1, e, SupportPrefix), Values(lines, n + 1, e, RequiresPrefix))))
  {
    var n := LastNameAt(lines, i, e);
    if n >= 0 {
      var lv := LastValue(lines, n + 1, e, SourcePrefix);
      var sv := Values(lines, n + 1, e, SupportPrefix);
      var rv := Values(lines, n + 1, e, RequiresPrefix);
      assert [] + sv == sv;
      assert [] + rv == rv;
      assert Or(lv, None) == lv;
    }
  }

  /** The fields a branch section has read by line `e`, starting from `f` at line `a`: the last
      value of each. */
  function BranchRead(lines: seq<string>, a: nat, e: nat, f: BranchFields): BranchFields
    requires a <= e <= |lines|
  {
    BranchFields(Or(LastValue(lines, a, e, NamePrefix), f.name),
                 Or(LastValue(lines, a, e, OntologyPrefix), f.ontology),
                 Or(LastValue(lines, a, e, ParentPrefix), f.parent))
  }

  lemma BranchReadStep(lines: seq<string>, i: nat, e: nat, f: BranchFields)
    requires i < e <= |lines| && !ShortLine(lines[i])
    ensures BranchRead(lines, i, e, f) == BranchRead(lines, i + 1, e, BranchStep(f, Trim(lines[i])))
  {
    PrefixesExclusive(Trim(lines[i]));
  }

  lemma {:induction false} BranchSectionFrom(lines: seq<string>, i: nat, f: BranchFields, m: seq<Entry<ConfiguredOntology>>)
    requires i <= |lines|
    ensures var e := BlockEnd(lines, i);
      ParseBranchFrom(lines, i, f, m)
      == Parsed(if e < |lines| then AddBranch(m, BranchRead(lines, i, e, f)) else m, if e < |lines| then e + 1 else e)
    decreases |lines| - i
  {
    if i < |lines| && !ShortLine(lines[i]) {
      BranchSectionFrom(lines, i + 1, BranchStep(f, Trim(lines[i])), m);
      BranchReadStep(lines, i, BlockEnd(lines, i), f);
    }
  }

  /** An `[OntologyBranch]` section adds a branch only when it is ended by a short line, has a
      name, an ontology and a parent, and the ontology is already in the map; the branch is put
      under its own name, copies that ontology's name, source, supports and requires, and
      carries the last name and parent read. */
  lemma BranchSection(lines: seq<string>, i: nat, m: seq<Entry<ConfiguredOntology>>)
    requires i <= |lines|
    ensures var e := BlockEnd(lines, i);
      var name := LastValue(lines, i, e, NamePrefix);
      var ontology := LastValue(lines, i, e, OntologyPrefix);
      var parent := LastValue(lines, i, e, ParentPrefix);
      var r := ParseBranchFrom(lines, i, BranchFields(None, None, None), m);
      && r.next == (if e < |lines| then e + 1 else e)
      && (if e < |lines| && name.Some? && ontology.Some? && parent.Some? && Get(m, ontology.value).Some? then
            var full := Get(m, ontology.value).value;
            r.ontologies == Put(m, name.value, ConfiguredOntology(full.name, Some(Branch(name.value, parent.value)),
                                                                  full.source, full.supports, full.required))
          else r.ontologies == m)
  {
    BranchSectionFrom(lines, i, BranchFields(None, None, None), m);
  }

  /** Input without section headers adds nothing and leaves the mapper as it is. */
  lemma {:induction false} LoadWithoutSections(lines: seq<string>, i: nat, m: seq<Entry<ConfiguredOntology>>, mapper: Option<IriMapper>)
    requires i <= |lines|
    requires forall k | i <= k < |lines| ::
      !StartsWith(lines[k], "[Ontology]") && !StartsWith(lines[k], "[OntologyBranch]") && !StartsWith(lines[k], "[IRIMapping]")
    ensures LoadFrom(lines, i, m, mapper) == Ok(Configuration(mapper, m))
    decreases |lines| - i
  {
    if i < |lines| {
      LoadWithoutSections(lines, i + 1, m, mapper);
    }
  }

  /** Putting keeps earlier keys in place and the keys unique. */
  lemma PutKeepsOrder<V>(m: seq<Entry<V>>, k: string, v: V)
    requires UniqueKeys(m)
    ensures Keys(m) <= Keys(Put(m, k, v)) && UniqueKeys(Put(m, k, v))
  {
    PutGet(m, k, v);
    PutKeys(m, k, v);
  }

  lemma OntologySectionKeepsOrder(lines: seq<string>, i: nat, m: seq<Entry<ConfiguredOntology>>)
    requires i <= |lines| && UniqueKeys(m)
    ensures var r := ParseOntologyFrom(lines, i, None, m);
      Keys(m) <= Keys(r.ontologies) && UniqueKeys(r.ontologies)
  {
    OntologySectionFrom(lines, i, None, m);
    var o := SectionOntology(lines, i, BlockEnd(lines, i), None);
    if o.Some? {
      PutKeepsOrder(m, o.value.name, o.value);
    }
  }

  lemma BranchSectionKeepsOrder(lines: seq<string>, i: nat, m: seq<Entry<ConfiguredOntology>>)
    requires i <= |lines| && UniqueKeys(m)
    ensures var r := ParseBranchFrom(lines, i, BranchFields(None, None, None), m);
      Keys(m) <= Keys(r.ontologies) && UniqueKeys(r.ontologies)
  {
    BranchSectionFrom(lines, i, BranchFields(None, None, None), m);
    var e := BlockEnd(lines, i);
    var f := BranchRead(lines, i, e, BranchFields(None, None, None));
    if e < |lines| && f.name.Some? && f.ontology.Some? && f.parent.Some? && Get(m, f.ontology.value).Some? {
      PutKeepsOrder(m, f.name.value, CreateBranch(Get(m, f.ontology.value).value, f.name.value, f.parent.value));
    }
  }

  /** Every section only puts: the names already in the map keep their places, new names come
      after them, and no name occurs twice. */
  lemma {:induction false} LoadKeepsOrder(lines: seq<string>, i: nat, m: seq<Entry<ConfiguredOntology>>, mapper: Option<IriMapper>)
    requires i <= |lines| && UniqueKeys(m)
    ensures KeepsOrder(m, LoadFrom(lines, i, m, mapper))
    decreases |lines| - i
  {
    if i < |lines| {
      var line := lines[i];
      if |line| > 0 && !StartsWith(line, "!") && StartsWith(line, "[Ontology]") {
        var r := ParseOntologyFrom(lines, i + 1, None, m);
        OntologySectionKeepsOrder(lines, i + 1, m);
        LoadKeepsOrder(lines, r.next, r.ontologies, mapper);
        KeepsOrderTrans(m, r.ontologies, LoadFrom(lines, r.next, r.ontologies, mapper));
      } else if |line| > 0 && !StartsWith(line, "!") && StartsWith(line, "[OntologyBranch]") {
        var r := ParseBranchFrom(lines, i + 1, BranchFields(None, None, None), m);
        BranchSectionKeepsOrder(lines, i + 1, m);
        LoadKeepsOrder(lines, r.next, r.ontologies, mapper);
        KeepsOrderTrans(m, r.ontologies, LoadFrom(lines, r.next, r.ontologies, mapper));
      } else if |line| > 0 && !StartsWith(line, "!") && StartsWith(line, "[IRIMapping]") {
        if i + 1 < |lines| {
          LoadKeepsOrder(lines, i + 2, m, ParseIriMapping(lines, i + 1).value);
        }
      } else {
        LoadKeepsOrder(lines, i + 1, m, mapper);
      }
    }
  }

  /** A load that succeeds keeps the names already in `m` in their places, after them the new
      names, none twice. */
  predicate KeepsOrder(m: seq<Entry<ConfiguredOntology>>, r: Result<Configuration, string>) {
    r.Ok? ==> Keys(m) <= Keys(r.value.ontologies) && UniqueKeys(r.value.ontologies)
  }

  /** Keeping the order through one section and then through the rest of the file keeps it
      through both. */
  lemma KeepsOrderTrans(m: seq<Entry<ConfiguredOntology>>, mid: seq<Entry<ConfiguredOntology>>, r: Result<Configuration, string>)
    requires Keys(m) <= Keys(mid) && KeepsOrder(mid, r)
    ensures KeepsOrder(m, r)
  {
  }

  /** An `[IRIMapping]` header as the last line makes the load fail; otherwise the next line
      alone decides the mapper, replacing any earlier one, and is consumed whatever it holds. */
  lemma IriMappingSection(lines: seq<string>, i: nat, m: seq<Entry<ConfiguredOntology>>, mapper: Option<IriMapper>)
    requires i < |lines| && StartsWith(lines[i], "[IRIMapping]")
    ensures i + 1 == |lines| ==> LoadFrom(lines, i, m, mapper) == Throw("NullPointerException")
    ensures i + 1 < |lines| ==>
      LoadFrom(lines, i, m, mapper)
      == LoadFrom(lines, i + 2, m, if StartsWith(lines[i + 1], LocalFilePrefix)
                                   then Some(LocalFileIriMapper(Trim(lines[i + 1][|LocalFilePrefix|..])))
                                   else None)
  {
    assert lines[i][0] == '[';
    assert !StartsWith(lines[i], "[Ontology]") by {
      assert lines[i][..12] == "[IRIMapping]";
      assert lines[i][1] == 'I';
    }
    assert !StartsWith(lines[i], "[OntologyBranch]") by {
      assert lines[i][1] == 'I';
    }
  }
}
