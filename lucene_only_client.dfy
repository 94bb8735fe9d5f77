/**
 * LuceneOnlyClient: builds one Lucene index per ontology name, over all ontologies of that
 * name (an ontology and its branches share one name), with the task manager registered under
 * the name, and answers term suggestions from the index of the ontology's name. Building an
 * index and searching it are left to BasicLuceneClient, seen here as fixed functions.
 */
module LuceneOnlyClient {
  import opened Wrappers

  /** An Ontology: its unique name and, for a branch, the branch name. */
  datatype Ontology = Ontology(uniqueName: string, branch: Option<string>)

  /** An OntologyTaskManager, told apart by an identity, with the ontology it manages. */
  datatype TaskManager = TaskManager(id: nat, ontology: Ontology)

  /** A BasicLuceneClient, as created from a group of ontologies and a manager. */
  datatype Index = Index(ontologies: seq<Ontology>, manager: TaskManager)

  /** An OntologyTerm as a suggestion returns it. */
  datatype OntologyTerm = OntologyTerm(id: string, name: string)

  /** The names of the given ontologies. */
  function Names(ontologies: seq<Ontology>): set<string> {
    set o | o in ontologies :: o.uniqueName
  }

  /** The ontologies with this name, in their order. */
  function Group(ontologies: seq<Ontology>, name: string): (g: seq<Ontology>)
    ensures |g| <= |ontologies|
    ensures forall o | o in g :: o in ontologies && o.uniqueName == name
  {
    if ontologies == [] then []
    else
      var last := ontologies[|ontologies| - 1];
      Group(ontologies[..|ontologies| - 1], name) + if last.uniqueName == name then [last] else []
  }

  /** Every ontology is in the group of its own name, and a name has a non-empty group exactly
      when some ontology carries it. */
  lemma {:induction false} GroupComplete(ontologies: seq<Ontology>, name: string)
    ensures forall o | o in ontologies && o.uniqueName == name :: o in Group(ontologies, name)
    ensures Group(ontologies, name) != [] <==> name in Names(ontologies)
  {
    if ontologies != [] {
      var front := ontologies[..|ontologies| - 1];
      GroupComplete(front, name);
      assert ontologies == front + [ontologies[|ontologies| - 1]];
      assert Names(ontologies) == Names(front) + {ontologies[|ontologies| - 1].uniqueName};
    }
  }

  /** The groups of two names share no ontology, and together the groups hold every ontology. */
  lemma GroupsPartition(ontologies: seq<Ontology>, a: string, b: string)
    requires a != b
    ensures forall o | o in Group(ontologies, a) :: o !in Group(ontologies, b)
    ensures forall o | o in ontologies :: o in Group(ontologies, o.uniqueName)
  {
    forall o | o in ontologies ensures o in Group(ontologies, o.uniqueName) {
      GroupComplete(ontologies, o.uniqueName);
    }
  }

  /** The last manager whose ontology has this name: a later one replaces an earlier one. */
  function LastManager(managers: seq<TaskManager>, name: string): (r: Option<TaskManager>)
    ensures r.Some? ==> r.value in managers && r.value.ontology.uniqueName == name
    ensures r.None? <==> forall m | m in managers :: m.ontology.uniqueName != name
  {
    if managers == [] then None
    else if managers[|managers| - 1].ontology.uniqueName == name then Some(managers[|managers| - 1])
    else
      var r := LastManager(managers[..|managers| - 1], name);
      assert managers == managers[..|managers| - 1] + [managers[|managers| - 1]];
      r
  }

  /** The message of the RuntimeException for a name without a manager. */
  function NoManagerMessage(name: string): string {
    "No OntologyTaskManager found for name: " + name
  }

  /** The index built for a name: over the name's group, with the name's last manager. */
  predicate IndexedAs(ontologies: seq<Ontology>, managers: seq<TaskManager>, indices: map<string, Index>, name: string) {
    && name in indices
    && LastManager(managers, name).Some?
    && indices[name] == Index(Group(ontologies, name), LastManager(managers, name).value)
  }

  /** `createIndices(ontologies, managers)`: fails, naming one such name, exactly when some
      ontology's name has no manager; otherwise one index per name, over that name's group and
      with its last manager. Which missing name is reported depends on the HashMap's order and
      is left open. */
  method CreateIndices(ontologies: seq<Ontology>, managers: seq<TaskManager>) returns (r: Result<map<string, Index>, string>)
    ensures r.Ok? <==> forall o | o in ontologies :: LastManager(managers, o.uniqueName).Some?
    ensures r.Ok? ==> r.value.Keys == Names(ontologies)
    ensures r.Ok? ==> forall name | name in r.value :: IndexedAs(ontologies, managers, r.value, name)
    ensures r.Throw? ==> exists o | o in ontologies ::
              LastManager(managers, o.uniqueName).None? && r.error == NoManagerMessage(o.uniqueName)
  {
    var groups := GroupOntologies(ontologies);
    var nameManagers := NameManagers(managers);
    var indices: map<string, Index> := map[];
    var names := groups.Keys;
    while names != {}
      invariant names <= groups.Keys
      invariant indices.Keys == groups.Keys - names
      invariant AllIndexed(ontologies, managers, indices)
      decreases names
    {
      var name :| name in names;
      if name !in nameManagers {
        var o :| o in ontologies && o.uniqueName == name;
        assert LastManager(managers, o.uniqueName).None?;
        return Throw(NoManagerMessage(name));
      }
      var manager := nameManagers[name];
      IndexedStep(ontologies, managers, indices, name);
      indices := indices[name := Index(groups[name], manager)];
      names := names - {name};
    }
    assert indices.Keys == Names(ontologies);
    AllManaged(ontologies, managers, indices);
    return Ok(indices);
  }

  /** Every index built so far is the one for its name. */
  predicate AllIndexed(ontologies: seq<Ontology>, managers: seq<TaskManager>, indices: map<string, Index>) {
    forall name | name in indices :: IndexedAs(ontologies, managers, indices, name)
  }

  /** Adding the index for one more name, over its group and with its last manager, keeps every
      index the one for its name. */
  lemma IndexedStep(ontologies: seq<Ontology>, managers: seq<TaskManager>, indices: map<string, Index>, name: string)
    requires AllIndexed(ontologies, managers, indices) && LastManager(managers, name).Some?
    ensures AllIndexed(ontologies, managers, indices[name := Index(Group(ontologies, name), LastManager(managers, name).value)])
  {
    var after := indices[name := Index(Group(ontologies, name), LastManager(managers, name).value)];
    forall other | other in after ensures IndexedAs(ontologies, managers, after, other) {
      if other != name {
        assert IndexedAs(ontologies, managers, indices, other);
      }
    }
  }

  /** With an index for every name, every ontology's name has a manager. */
  lemma AllManaged(ontologies: seq<Ontology>, managers: seq<TaskManager>, indices: map<string, Index>)
    requires indices.Keys == Names(ontologies) && AllIndexed(ontologies, managers, indices)
    ensures forall o | o in ontologies :: LastManager(managers, o.uniqueName).Some?
  {
    forall o | o in ontologies ensures LastManager(managers, o.uniqueName).Some? {
      assert o.uniqueName in Names(ontologies);
      assert IndexedAs(ontologies, managers, indices, o.uniqueName);
    }
  }

  /** The first loop of `createIndices`: every manager put under its ontology's name. */
  method NameManagers(managers: seq<TaskManager>) returns (nameManagers: map<string, TaskManager>)
    ensures forall name :: name in nameManagers <==> LastManager(managers, name).Some?
    ensures forall name | name in nameManagers :: nameManagers[name] == LastManager(managers, name).value
  {
    nameManagers := map[];
    for i := 0 to |managers|
      invariant forall name :: name in nameManagers <==> LastManager(managers[..i], name).Some?
      invariant forall name | name in nameManagers :: nameManagers[name] == LastManager(managers[..i], name).value
    {
      assert managers[..i + 1][..i] == managers[..i];
      nameManagers := nameManagers[managers[i].ontology.uniqueName := managers[i]];
    }
    assert managers[..|managers|] == managers;
  }

  /** The second loop of `createIndices`: every ontology appended to the group of its name. */
  method GroupOntologies(ontologies: seq<Ontology>) returns (groups: map<string, seq<Ontology>>)
    ensures groups.Keys == Names(ontologies)
    ensures forall name | name in groups :: groups[name] == Group(ontologies, name)
  {
    groups := map[];
    for i := 0 to |ontologies|
      invariant Grouped(ontologies[..i], groups)
    {
      var ontology := ontologies[i];
      var name := ontology.uniqueName;
      // the group list is shared with the map, so adding to it updates the map's entry
      var group := if name in groups then groups[name] else [];
      GroupedStep(ontologies, i, groups, group);
      groups := groups[name := group + [ontology]];
    }
    assert ontologies[..|ontologies|] == ontologies;
  }

  /** The groups of `ontologies`, as the second loop of `createIndices` builds them. */
  predicate Grouped(ontologies: seq<Ontology>, groups: map<string, seq<Ontology>>) {
    groups.Keys == Names(ontologies) && forall name | name in groups :: groups[name] == Group(ontologies, name)
  }

  /** Appending ontology `i` to the group of its name, opened empty when the name is new, keeps
      the groups those of the ontologies up to it. */
  lemma GroupedStep(ontologies: seq<Ontology>, i: nat, groups: map<string, seq<Ontology>>, group: seq<Ontology>)
    requires i < |ontologies| && Grouped(ontologies[..i], groups)
    requires group == if ontologies[i].uniqueName in groups then groups[ontologies[i].uniqueName] else []
    ensures Grouped(ontologies[..i + 1], groups[ontologies[i].uniqueName := group + [ontologies[i]]])
  {
    assert ontologies[..i + 1] == ontologies[..i] + [ontologies[i]];
    GroupedAppend(ontologies[..i], ontologies[i], groups, group);
  }

  lemma GroupedAppend(front: seq<Ontology>, ontology: Ontology, groups: map<string, seq<Ontology>>, group: seq<Ontology>)
    requires Grouped(front, groups)
    requires group == if ontology.uniqueName in groups then groups[ontology.uniqueName] else []
    ensures Grouped(front + [ontology], groups[ontology.uniqueName := group + [ontology]])
  {
    var name := ontology.uniqueName;
    var after := groups[name := group + [ontology]];
    NamesAppend(front, ontology);
    if name !in groups {
      GroupComplete(front, name);
    }
    forall other | other in after ensures after[other] == Group(front + [ontology], other) {
      GroupAppend(front, ontology, other);
    }
  }

  lemma GroupAppend(front: seq<Ontology>, ontology: Ontology, name: string)
    ensures Group(front + [ontology], name) == Group(front, name) + if ontology.uniqueName == name then [ontology] else []
  {
    assert (front + [ontology])[..|front|] == front;
  }

  lemma NamesAppend(front: seq<Ontology>, ontology: Ontology)
    ensures Names(front + [ontology]) == Names(front) + {ontology.uniqueName}
  {
    var all := front + [ontology];
    forall n | n in Names(all) ensures n in Names(front) + {ontology.uniqueName} {
      var o :| o in all && o.uniqueName == n;
      if o != ontology {
        assert o in front;
      }
    }
    assert ontology in all;
  }

  /** The client, with its indices and the search of BasicLuceneClient. */
  class Client {
    const luceneIndices: map<string, Index>
    const search: (Index, string, Ontology, int) -> Option<seq<OntologyTerm>>

    constructor (luceneIndices: map<string, Index>, search: (Index, string, Ontology, int) -> Option<seq<OntologyTerm>>)
      ensures this.luceneIndices == luceneIndices && this.search == search
    {
      this.luceneIndices := luceneIndices;
      this.search := search;
    }

    /** `suggestTerms(query, ontology, maxCount)`: null when there is no index for the
        ontology's name, otherwise whatever that index answers, null included. */
    method SuggestTerms(query: string, ontology: Ontology, maxCount: int) returns (r: Option<seq<OntologyTerm>>)
      ensures ontology.uniqueName !in luceneIndices ==> r.None?
      ensures ontology.uniqueName in luceneIndices ==> r == search(luceneIndices[ontology.uniqueName], query, ontology, maxCount)
    {
      if ontology.uniqueName in luceneIndices {
        var index := luceneIndices[ontology.uniqueName];
        return search(index, query, ontology, maxCount);
      }
      return None;
    }
  }

  /** `new LuceneOnlyClient(ontologies, managers)`, with the RuntimeException of
      `createIndices` as an error. */
  method NewClient(ontologies: seq<Ontology>, managers: seq<TaskManager>, search: (Index, string, Ontology, int) -> Option<seq<OntologyTerm>>)
    returns (r: Result<Client, string>)
    ensures r.Ok? <==> forall o | o in ontologies :: LastManager(managers, o.uniqueName).Some?
    ensures r.Ok? ==> fresh(r.value) && r.value.luceneIndices.Keys == Names(ontologies)
    ensures r.Ok? ==> forall name | name in r.value.luceneIndices :: IndexedAs(ontologies, managers, r.value.luceneIndices, name)
    ensures r.Ok? ==> r.value.search == search
  {
    var indices := CreateIndices(ontologies, managers);
    if indices.Throw? {
      return Throw(indices.error);
    }
    var client := new Client(indices.value, search);
    return Ok(client);
  }

  /** Once built, a suggestion for any ontology that was given is answered by its name's index,
      which covers exactly the ontologies of that name and uses that name's manager. */
  lemma SuggestionIndex(ontologies: seq<Ontology>, managers: seq<TaskManager>, indices: map<string, Index>, o: Ontology)
    requires indices.Keys == Names(ontologies)
    requires forall name | name in indices :: IndexedAs(ontologies, managers, indices, name)
    requires o in ontologies
    ensures o.uniqueName in indices
    ensures o in indices[o.uniqueName].ontologies
    ensures forall p | p in indices[o.uniqueName].ontologies :: p.uniqueName == o.uniqueName
    ensures indices[o.uniqueName].manager.ontology.uniqueName == o.uniqueName
  {
    assert o.uniqueName in Names(ontologies);
    assert IndexedAs(ontologies, managers, indices, o.uniqueName);
    GroupComplete(ontologies, o.uniqueName);
  }
}
