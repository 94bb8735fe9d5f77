/**
 * DefaultOntologyConfiguration: reads the ontology settings file line by line into an
 * insertion-ordered map from ontology name to ConfiguredOntology, and an optional IRI mapper.
 *
 * The file is a sequence of lines. At the top level, lines that are empty or start with `!`
 * are skipped, and the headers `[Ontology]`, `[OntologyBranch]` and `[IRIMapping]` start a
 * section. An ontology or branch section runs up to a line that is at most one character long
 * once trimmed; an IRI mapping section is the one line after its header.
 */
module OntologyConfiguration {
  import opened Wrappers
  import opened Text
  import opened OrderedMap

  /** The branch part of an Ontology: the sub-ontology name and its parent id. */
  datatype Branch = Branch(name: string, parentId: string)

  /** A ConfiguredOntology. `getUniqueName()` is the name it was created with; an unset
      `supports` or `requires` list (null) reads as empty, as its getters return (the field
      `requires` is called `required` here, `requires` being a Dafny keyword). */
  datatype ConfiguredOntology = ConfiguredOntology(
    name: string, branch: Option<Branch>, source: Option<string>, supports: seq<string>, required: seq<string>)

  /** `new ConfiguredOntology(name)`. */
  function NewOntology(name: string): ConfiguredOntology {
    ConfiguredOntology(name, None, None, [], [])
  }

  /** `addSupport(support)`: a null value is ignored, any other appended. */
  function AddSupport(o: ConfiguredOntology, support: Option<string>): (r: ConfiguredOntology)
    ensures r.supports == o.supports + (if support.Some? then [support.value] else [])
    ensures r == o.(supports := r.supports)
  {
    if support.None? then o else o.(supports := o.supports + [support.value])
  }

  /** `addRequires(requires)`: a null value is ignored, any other appended. */
  function AddRequires(o: ConfiguredOntology, value: Option<string>): (r: ConfiguredOntology)
    ensures r.required == o.required + (if value.Some? then [value.value] else [])
    ensures r == o.(required := r.required)
  {
    if value.None? then o else o.(required := o.required + [value.value])
  }

  /** `createBranch(subOntologyName, subOntologyParentId)`: a new ontology with the same name,
      sharing source, supports and requires, marked as the given branch. */
  function CreateBranch(o: ConfiguredOntology, subOntologyName: string, subOntologyParentId: string): (r: ConfiguredOntology)
    ensures r.name == o.name && r.source == o.source && r.supports == o.supports && r.required == o.required
    ensures r.branch == Some(Branch(subOntologyName, subOntologyParentId))
  {
    ConfiguredOntology(o.name, Some(Branch(subOntologyName, subOntologyParentId)), o.source, o.supports, o.required)
  }

  // ---------------------------------------------------------------- getValue

  const NamePrefix: string := "name: "
  const SourcePrefix: string := "source: "
  const SupportPrefix: string := "support: "
  const RequiresPrefix: string := "requires: "
  const OntologyPrefix: string := "ontology: "
  const ParentPrefix: string := "parent: "
  const LocalFilePrefix: string := "localfile:"

  /** `getValue(line, prefix)`: drop the prefix, cut at the first " !" when it is not at the
      very start, and trim. */
  function GetValue(line: string, prefix: string): string
    requires |prefix| <= |line|
  {
    var value := line[|prefix|..];
    var comment := IndexOf(value, " !");
    var cut := if comment > 0 then value[..comment] else value;
    Trim(cut)
  }

  /** Without a comment marker the value is the trimmed rest of the line. */
  lemma GetValuePlain(prefix: string, v: string)
    requires !Contains(v, " !")
    ensures GetValue(prefix + v, prefix) == Trim(v)
  {
    assert (prefix + v)[|prefix|..] == v;
    IndexOfSpec(v, " !");
  }

  /** A value followed by " !" and a comment is cut before the marker and trimmed. */
  lemma GetValueCommented(prefix: string, v: string, comment: string)
    requires |v| > 0 && !Contains(v, " !")
    ensures GetValue(prefix + v + " !" + comment, prefix) == Trim(v)
  {
    var line := prefix + v + " !" + comment;
    var value := v + " !" + comment;
    assert line[|prefix|..] == value;
    assert OccursAt(value, " !", |v|) by {
      assert value[|v|..|v| + 2] == " !";
    }
    forall j: nat | j < |v| ensures !OccursAt(value, " !", j) {
      if j + 2 <= |v| {
        assert value[j..j + 2] == v[j..j + 2];
        assert !OccursAt(v, " !", j);
      } else {
        assert value[j + 1] == ' ';
      }
    }
    IndexOfSpec(value, " !");
    var c := IndexOf(value, " !");
    assert c == |v|;
    assert value[..c] == v;
  }

  /** A marker right at the start of the value is not treated as a comment. */
  lemma GetValueLeadingMarker(prefix: string, comment: string)
    ensures GetValue(prefix + " !" + comment, prefix) == Trim(" !" + comment)
  {
    var value := " !" + comment;
    assert (prefix + " !" + comment)[|prefix|..] == value;
    assert OccursAt(value, " !", 0) by {
      assert value[0..2] == " !";
    }
  }

  // ---------------------------------------------------------------- sections, as functions

  /** An IRI mapper: only the local-file mapper is configurable. */
  datatype IriMapper = LocalFileIriMapper(resource: string)

  /** What `loadOntologyConfiguration` returns. */
  datatype Configuration = Configuration(iriMapper: Option<IriMapper>, ontologies: seq<Entry<ConfiguredOntology>>)

  /** A section parser's result: the map after it and the index of the next unread line. */
  datatype Parsed = Parsed(ontologies: seq<Entry<ConfiguredOntology>>, next: nat)

  /** A line that ends an ontology or branch section. */
  predicate ShortLine(line: string) {
    |Trim(line)| <= 1
  }

  /** `ontologies.put(current.getUniqueName(), current)` when there is a current ontology. */
  function Store(m: seq<Entry<ConfiguredOntology>>, current: Option<ConfiguredOntology>): seq<Entry<ConfiguredOntology>> {
    if current.Some? then Put(m, current.value.name, current.value) else m
  }

  /** What one trimmed, long line of an ontology section does to the current ontology. */
  function OntologyStep(current: Option<ConfiguredOntology>, t: string): Option<ConfiguredOntology> {
    if StartsWith(t, "!") then current
    else if StartsWith(t, NamePrefix) then Some(NewOntology(GetValue(t, NamePrefix)))
    else if current.Some? && StartsWith(t, SourcePrefix) then Some(current.value.(source := Some(GetValue(t, SourcePrefix))))
    else if current.Some? && StartsWith(t, SupportPrefix) then Some(AddSupport(current.value, Some(GetValue(t, SupportPrefix))))
    else if current.Some? && StartsWith(t, RequiresPrefix) then Some(AddRequires(current.value, Some(GetValue(t, RequiresPrefix))))
    else current
  }

  /** `parseOntology` from line `i` on, with `current` the ontology being built. */
  function ParseOntologyFrom(lines: seq<string>, i: nat, current: Option<ConfiguredOntology>,
                             m: seq<Entry<ConfiguredOntology>>): (r: Parsed)
    requires i <= |lines|
    ensures i <= r.next <= |lines|
    decreases |lines| - i
  {
    if i == |lines| then Parsed(Store(m, current), i)
    else
      var t := Trim(lines[i]);
      if |t| <= 1 then Parsed(Store(m, current), i + 1)
      else ParseOntologyFrom(lines, i + 1, OntologyStep(current, t), m)
  }

  /** The name, ontology and parent a branch section has read so far. */
  datatype BranchFields = BranchFields(name: Option<string>, ontology: Option<string>, parent: Option<string>)

  /** What one trimmed, long line of a branch section does to the fields read. */
  function BranchStep(f: BranchFields, t: string): BranchFields {
    if StartsWith(t, "!") then f
    else if StartsWith(t, NamePrefix) then f.(name := Some(GetValue(t, NamePrefix)))
    else if StartsWith(t, OntologyPrefix) then f.(ontology := Some(GetValue(t, OntologyPrefix)))
    else if StartsWith(t, ParentPrefix) then f.(parent := Some(GetValue(t, ParentPrefix)))
    else f
  }

  /** The end of a branch section: with all three fields set and the named ontology known, the
      branch is put under its own name. */
  function AddBranch(m: seq<Entry<ConfiguredOntology>>, f: BranchFields): seq<Entry<ConfiguredOntology>> {
    if f.name.Some? && f.ontology.Some? && f.parent.Some? then
      match Get(m, f.ontology.value)
      case Some(full) => Put(m, f.name.value, CreateBranch(full, f.name.value, f.parent.value))
      case None => m
    else m
  }

  /** `parseOntologyBranch` from line `i` on. At the end of the input nothing is added. */
  function ParseBranchFrom(lines: seq<string>, i: nat, f: BranchFields, m: seq<Entry<ConfiguredOntology>>): (r: Parsed)
    requires i <= |lines|
    ensures i <= r.next <= |lines|
    decreases |lines| - i
  {
    if i == |lines| then Parsed(m, i)
    else
      var t := Trim(lines[i]);
      if |t| <= 1 then Parsed(AddBranch(m, f), i + 1)
      else ParseBranchFrom(lines, i + 1, BranchStep(f, t), m)
  }

  /** `parseIRIMapperConfig` on line `i`; reading past the end gives null, which the method
      dereferences. */
  function ParseIriMapping(lines: seq<string>, i: nat): Result<Option<IriMapper>, string>
    requires i <= |lines|
  {
    if i == |lines| then Throw("NullPointerException")
    else if StartsWith(lines[i], LocalFilePrefix) then Ok(Some(LocalFileIriMapper(Trim(lines[i][|LocalFilePrefix|..]))))
    else Ok(None)
  }

  /** The top-level loop of `loadOntologyConfiguration` from line `i` on. Header lines are
      matched untrimmed. */
  function LoadFrom(lines: seq<string>, i: nat, m: seq<Entry<ConfiguredOntology>>, mapper: Option<IriMapper>): Result<Configuration, string>
    requires i <= |lines|
    decreases |lines| - i
  {
    if i == |lines| then Ok(Configuration(mapper, m))
    else
      var line := lines[i];
      if |line| > 0 && !StartsWith(line, "!") && StartsWith(line, "[Ontology]") then
        var r := ParseOntologyFrom(lines, i + 1, None, m);
        LoadFrom(lines, r.next, r.ontologies, mapper)
      else if |line| > 0 && !StartsWith(line, "!") && StartsWith(line, "[OntologyBranch]") then
        var r := ParseBranchFrom(lines, i + 1, BranchFields(None, None, None), m);
        LoadFrom(lines, r.next, r.ontologies, mapper)
      else if |line| > 0 && !StartsWith(line, "!") && StartsWith(line, "[IRIMapping]") then
        match ParseIriMapping(lines, i + 1)
        case Throw(e) => Throw(e)
        case Ok(mp) => LoadFrom(lines, i + 2, m, mp)
      else LoadFrom(lines, i + 1, m, mapper)
  }

  /** `loadOntologyConfiguration()` on the lines of the settings file. */
  function Load(lines: seq<string>): Result<Configuration, string> {
    LoadFrom(lines, 0, [], None)
  }
}
