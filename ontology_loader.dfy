/**
 * The reading loops of DefaultOntologyConfiguration as they run: a reader that hands out the
 * lines of the settings file one at a time, a LinkedHashMap updated in place, and the
 * `while ((line = reader.readLine()) != null)` loops of `loadOntologyConfiguration`,
 * `parseOntology`, `parseOntologyBranch` and `parseIRIMapperConfig`. Each method is proved to
 * leave exactly what the section functions of OntologyConfiguration describe.
 */
module OntologyLoader {
  import opened Wrappers
  import opened Text
  import opened OrderedMap
  import opened OntologyConfiguration

  /** A BufferedReader over the lines of the settings file. */
  class LineReader {
    const lines: seq<string>
    var position: nat

    ghost predicate Valid()
      reads this
    {
      position <= |lines|
    }

    constructor (lines: seq<string>)
      ensures Valid() && this.lines == lines && position == 0
    {
      this.lines := lines;
      position := 0;
    }

    /** `readLine()`: the next line, or null at the end of the input. */
    method ReadLine() returns (line: Option<string>)
      requires Valid()
      modifies this
      ensures Valid()
      ensures old(position) < |lines| ==> line == Some(lines[old(position)]) && position == old(position) + 1
      ensures old(position) == |lines| ==> line == None && position == old(position)
    {
      if position < |lines| {
        line := Some(lines[position]);
        position := position + 1;
      } else {
        line := None;
      }
    }
  }

  /** The `LinkedHashMap<String, ConfiguredOntology>` the settings are read into. */
  class OntologyMap {
    var entries: seq<Entry<ConfiguredOntology>>

    constructor ()
      ensures entries == []
    {
      entries := [];
    }

    /** `put(name, ontology)`: replaces the value of a known name in place, or appends. */
    method Put(name: string, ontology: ConfiguredOntology)
      modifies this
      ensures entries == OrderedMap.Put(old(entries), name, ontology)
    {
      entries := OrderedMap.Put(entries, name, ontology);
    }

    /** `get(name)`: null for an unknown name. */
    method Get(name: string) returns (r: Option<ConfiguredOntology>)
      ensures r == OrderedMap.Get(entries, name)
    {
      r := OrderedMap.Get(entries, name);
    }
  }

  /** `parseIRIMapperConfig(reader)`: one line; a missing line is dereferenced and throws. */
  method ParseIriMapperConfig(reader: LineReader) returns (r: Result<Option<IriMapper>, string>)
    requires reader.Valid()
    modifies reader
    ensures reader.Valid()
    ensures r == ParseIriMapping(reader.lines, old(reader.position))
    ensures reader.position == if old(reader.position) < |reader.lines| then old(reader.position) + 1 else old(reader.position)
  {
    var line := reader.ReadLine();
    if line.None? {
      return Throw("NullPointerException");
    }
    if StartsWith(line.value, LocalFilePrefix) {
      var resource := Trim(line.value[|LocalFilePrefix|..]);
      return Ok(Some(LocalFileIriMapper(resource)));
    }
    return Ok(None);
  }

  /** `parseOntology(reader, ontologies)`: reads up to and including the first short line, or to
      the end of the input, and stores the ontology being built, if any. */
  method ParseOntology(reader: LineReader, ontologies: OntologyMap)
    requires reader.Valid()
    modifies reader, ontologies
    ensures reader.Valid()
    ensures ParseOntologyFrom(reader.lines, old(reader.position), None, old(ontologies.entries))
            == Parsed(ontologies.entries, reader.position)
  {
    var current: Option<ConfiguredOntology> := None;
    while true
      invariant reader.Valid() && old(reader.position) <= reader.position
      invariant ontologies.entries == old(ontologies.entries)
      invariant ParseOntologyFrom(reader.lines, old(reader.position), None, old(ontologies.entries))
                == ParseOntologyFrom(reader.lines, reader.position, current, ontologies.entries)
      decreases |reader.lines| - reader.position
    {
      var read := reader.ReadLine();
      if read.None? {
        if current.Some? {
          ontologies.Put(current.value.name, current.value);
        }
        return;
      }
      var line := Trim(read.value);
      if |line| <= 1 {
        if current.Some? {
          ontologies.Put(current.value.name, current.value);
          current := None;
        }
        return;
      }
      ghost var before := current;
      if !StartsWith(line, "!") {
        if StartsWith(line, NamePrefix) {
          current := Some(NewOntology(GetValue(line, NamePrefix)));
        } else if current.Some? && StartsWith(line, SourcePrefix) {
          current := Some(current.value.(source := Some(GetValue(line, SourcePrefix))));
        } else if current.Some? && StartsWith(line, SupportPrefix) {
          current := Some(AddSupport(current.value, Some(GetValue(line, SupportPrefix))));
        } else if current.Some? && StartsWith(line, RequiresPrefix) {
          current := Some(AddRequires(current.value, Some(GetValue(line, RequiresPrefix))));
        }
      }
      assert current == OntologyStep(before, line);
    }
  }

  /** `parseOntologyBranch(reader, ontologies)`: collects the last name, ontology and parent up
      to the first short line; only there is the branch added. */
  method ParseOntologyBranch(reader: LineReader, ontologies: OntologyMap)
    requires reader.Valid()
    modifies reader, ontologies
    ensures reader.Valid()
    ensures ParseBranchFrom(reader.lines, old(reader.position), BranchFields(None, None, None), old(ontologies.entries))
            == Parsed(ontologies.entries, reader.position)
  {
    var name: Option<string> := None;
    var ontology: Option<string> := None;
    var parent: Option<string> := None;
    while true
      invariant reader.Valid() && old(reader.position) <= reader.position
      invariant ontologies.entries == old(ontologies.entries)
      invariant ParseBranchFrom(reader.lines, old(reader.position), BranchFields(None, None, None), old(ontologies.entries))
                == ParseBranchFrom(reader.lines, reader.position, BranchFields(name, ontology, parent), ontologies.entries)
      decreases |reader.lines| - reader.position
    {
      var read := reader.ReadLine();
      if read.None? {
        return;
      }
      var line := Trim(read.value);
      if |line| <= 1 {
        if name.Some? && ontology.Some? && parent.Some? {
          var full := ontologies.Get(ontology.value);
          if full.Some? {
            ontologies.Put(name.value, CreateBranch(full.value, name.value, parent.value));
          }
        }
        return;
      }
      ghost var before := BranchFields(name, ontology, parent);
      if !StartsWith(line, "!") {
        if StartsWith(line, NamePrefix) {
          name := Some(GetValue(line, NamePrefix));
        } else if StartsWith(line, OntologyPrefix) {
          ontology := Some(GetValue(line, OntologyPrefix));
        } else if StartsWith(line, ParentPrefix) {
          parent := Some(GetValue(line, ParentPrefix));
        }
      }
      assert BranchFields(name, ontology, parent) == BranchStep(before, line);
    }
  }

  /** `loadOntologyConfiguration()` on the lines of the settings file: the IRI mapper and the
      ordered map of ontologies, or the exception a missing IRI mapping line raises. */
  method LoadOntologyConfiguration(lines: seq<string>) returns (r: Result<Configuration, string>)
    ensures r == Load(lines)
  {
    var reader := new LineReader(lines);
    var ontologies := new OntologyMap();
    var iriMapper: Option<IriMapper> := None;
    while true
      invariant reader.Valid() && reader.lines == lines
      invariant Load(lines) == LoadFrom(lines, reader.position, ontologies.entries, iriMapper)
      decreases |lines| - reader.position
    {
      ghost var at := reader.position;
      var read := reader.ReadLine();
      if read.None? {
        return Ok(Configuration(iriMapper, ontologies.entries));
      }
      var line := read.value;
      if |line| > 0 && !StartsWith(line, "!") {
        if StartsWith(line, "[Ontology]") {
          ParseOntology(reader, ontologies);
        } else if StartsWith(line, "[OntologyBranch]") {
          ParseOntologyBranch(reader, ontologies);
        } else if StartsWith(line, "[IRIMapping]") {
          var mapping := ParseIriMapperConfig(reader);
          if mapping.Throw? {
            return Throw(mapping.error);
          }
          iriMapper := mapping.value;
          assert reader.position == at + 2;
        }
      }
    }
  }
}
