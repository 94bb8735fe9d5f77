/**
 * GenerateTermsServiceImpl: the template cache shared by all requests (ontology name → template
 * name → template, filled from the ontology tools on a miss), the template listing sorted by
 * name, the auto-complete lists built from user data, the checks `generateTerms` makes on a
 * request before any term is generated, and the conversion of the submitted parameters.
 */
module GenerateTermsService {
  import opened Wrappers
  import opened Text
  import opened OrderedMap

  // ---------------------------------------------------------------- templates

  /** A TermTemplate, with the parts that are copied to the client. */
  datatype TermTemplate = TermTemplate(name: string, displayName: string, description: string,
                                       hint: Option<string>, categories: seq<string>)

  /** A JsonTermTemplate: what the client receives, or sends back, for a template. */
  datatype JsonTermTemplate = JsonTermTemplate(name: string, display: string, description: string,
                                               hint: Option<string>, categories: seq<string>)

  /** `jsonTools.createJsonTermTemplate(template)`, without the fields. */
  function CreateJsonTermTemplate(t: TermTemplate): (j: JsonTermTemplate)
    ensures j.name == t.name && j.display == t.displayName && j.description == t.description
    ensures j.hint == t.hint && j.categories == t.categories
  {
    JsonTermTemplate(t.name, t.displayName, t.description, t.hint, t.categories)
  }

  /** The templates converted one by one, in order. */
  function JsonTemplates(ts: seq<TermTemplate>): (js: seq<JsonTermTemplate>)
    ensures |js| == |ts| && forall i :: 0 <= i < |ts| ==> js[i] == CreateJsonTermTemplate(ts[i])
  {
    if ts == [] then [] else JsonTemplates(ts[..|ts| - 1]) + [CreateJsonTermTemplate(ts[|ts| - 1])]
  }

  // ---------------------------------------------------------------- sorting by name

  /** Sorted by `JsonTermTempleSorter`: names ascending under `compareTo`. */
  predicate SortedByName(s: seq<JsonTermTemplate>) {
    forall i, j | 0 <= i < j < |s| :: CompareTo(s[i].name, s[j].name) <= 0
  }

  /** Inserts `x` after every element whose name is not greater than its own. */
  function Insert(x: JsonTermTemplate, s: seq<JsonTermTemplate>): (r: seq<JsonTermTemplate>)
    ensures multiset(r) == multiset(s) + multiset{x}
  {
    if s == [] then [x]
    else if CompareTo(x.name, s[0].name) < 0 then [x] + s
    else
      assert s == [s[0]] + s[1..];
      [s[0]] + Insert(x, s[1..])
  }

  /** `Collections.sort(list, JsonTermTempleSorter.instance)`, as an insertion sort. */
  function SortByName(s: seq<JsonTermTemplate>): (r: seq<JsonTermTemplate>)
    ensures multiset(r) == multiset(s)
  {
    if s == [] then []
    else
      assert s == s[..|s| - 1] + [s[|s| - 1]];
      Insert(s[|s| - 1], SortByName(s[..|s| - 1]))
  }

  /** A template whose name is not greater than any name of a sorted list can go in front. */
  lemma SortedCons(h: JsonTermTemplate, t: seq<JsonTermTemplate>)
    requires SortedByName(t)
    requires forall y | y in t :: CompareTo(h.name, y.name) <= 0
    ensures SortedByName([h] + t)
  {
    var r := [h] + t;
    forall i, j | 0 <= i < j < |r| ensures CompareTo(r[i].name, r[j].name) <= 0 {
      if i > 0 {
        assert r[i] == t[i - 1] && r[j] == t[j - 1];
      } else {
        assert r[j] in t;
      }
    }
  }

  /** A name not greater than `x`'s and every name of `s` is not greater than any name after
      inserting `x`. */
  lemma {:induction false} InsertBounded(x: JsonTermTemplate, s: seq<JsonTermTemplate>, lo: string)
    requires CompareTo(lo, x.name) <= 0
    requires forall y | y in s :: CompareTo(lo, y.name) <= 0
    ensures forall y | y in Insert(x, s) :: CompareTo(lo, y.name) <= 0
  {
    if s != [] && CompareTo(x.name, s[0].name) >= 0 {
      assert forall y | y in s[1..] :: y in s;
      InsertBounded(x, s[1..], lo);
    }
  }

  /** The first name of a sorted list is not greater than any of its names. */
  lemma SortedFirst(s: seq<JsonTermTemplate>)
    requires SortedByName(s) && s != []
    ensures forall y | y in s[1..] :: CompareTo(s[0].name, y.name) <= 0
  {
    forall y | y in s[1..] ensures CompareTo(s[0].name, y.name) <= 0 {
      var k :| 0 <= k < |s[1..]| && s[1..][k] == y;
      assert s[k + 1] == y;
    }
  }

  lemma {:induction false} InsertSorted(x: JsonTermTemplate, s: seq<JsonTermTemplate>)
    requires SortedByName(s)
    ensures SortedByName(Insert(x, s))
  {
    if s == [] {
    } else if CompareTo(x.name, s[0].name) < 0 {
      SortedFirst(s);
      forall y | y in s ensures CompareTo(x.name, y.name) <= 0 {
        if y != s[0] {
          assert y in s[1..] by { assert s == [s[0]] + s[1..]; }
          CompareToTransitive(x.name, s[0].name, y.name);
        }
      }
      SortedCons(x, s);
    } else {
      assert SortedByName(s[1..]) by {
        forall i, j | 0 <= i < j < |s[1..]| ensures CompareTo(s[1..][i].name, s[1..][j].name) <= 0 {
          assert s[1..][i] == s[i + 1] && s[1..][j] == s[j + 1];
        }
      }
      InsertSorted(x, s[1..]);
      CompareToAntisymmetric(x.name, s[0].name);
      SortedFirst(s);
      InsertBounded(x, s[1..], s[0].name);
      SortedCons(s[0], Insert(x, s[1..]));
    }
  }

  /** The sorted list is ordered by name and holds exactly the templates given. */
  lemma {:induction false} SortByNameSorted(s: seq<JsonTermTemplate>)
    ensures SortedByName(SortByName(s)) && multiset(SortByName(s)) == multiset(s)
  {
    if s != [] {
      SortByNameSorted(s[..|s| - 1]);
      InsertSorted(s[|s| - 1], SortByName(s[..|s| - 1]));
    }
  }

  // ---------------------------------------------------------------- the cache, as values

  /** The per-ontology index `TemplateCache.put` builds: every template under its name, a later
      one replacing an earlier one of the same name. The inner HashMap is taken to iterate in
      insertion order, one of the orders it may have. */
  function NamedValues(ts: seq<TermTemplate>): seq<Entry<TermTemplate>>
  {
    if ts == [] then [] else Put(NamedValues(ts[..|ts| - 1]), ts[|ts| - 1].name, ts[|ts| - 1])
  }

  /** The last template in `ts` with this name, or none. */
  function LastNamed(ts: seq<TermTemplate>, name: string): (r: Option<TermTemplate>)
    ensures r.Some? ==> r.value in ts && r.value.name == name
  {
    if ts == [] then None
    else if ts[|ts| - 1].name == name then Some(ts[|ts| - 1])
    else LastNamed(ts[..|ts| - 1], name)
  }

  /** The index finds, under each name, the last template of that name, and holds no name twice. */
  lemma {:induction false} NamedValuesGet(ts: seq<TermTemplate>, name: string)
    ensures UniqueKeys(NamedValues(ts))
    ensures Get(NamedValues(ts), name) == LastNamed(ts, name)
  {
    if ts != [] {
      var front := ts[..|ts| - 1];
      var last := ts[|ts| - 1];
      NamedValuesGet(front, name);
      PutSame(NamedValues(front), last.name, last);
      if last.name != name {
        PutOther(NamedValues(front), last.name, last, name);
      }
    }
  }

  /** The cache: ontology name → template index. The outer map is only read by key. */
  type Index = map<string, seq<Entry<TermTemplate>>>

  /** `getTemplates(ontology)`: null for an ontology not cached, otherwise the templates of its index. */
  function TemplatesOf(cache: Index, ontology: string): (r: Option<seq<TermTemplate>>)
    ensures r.None? <==> ontology !in cache
    ensures r.Some? ==> |r.value| == |cache[ontology]|
  {
    if ontology in cache then Some(Values(cache[ontology])) else None
  }

  /** `getTemplate(ontology, name)`: null for an ontology not cached or a name not in its index. */
  function TemplateOf(cache: Index, ontology: string, name: string): (r: Option<TermTemplate>)
    ensures ontology !in cache ==> r.None?
  {
    if ontology in cache then Get(cache[ontology], name) else None
  }

  /** The cache after a lookup of `ontology`: as it was when the ontology is cached, otherwise
      with the index of the requested templates added. */
  function Filled(cache: Index, ontology: string, requested: seq<TermTemplate>): (c: Index)
    ensures ontology in c && c.Keys == cache.Keys + {ontology}
    ensures forall o | o in cache :: c[o] == cache[o]
    ensures ontology !in cache ==> c[ontology] == NamedValues(requested)
  {
    if ontology in cache then cache else cache[ontology := NamedValues(requested)]
  }

  /** After a lookup an ontology is cached for good, and a template is found under a name
      exactly when the cached index has it; for a fresh ontology that is the last requested
      template of that name. */
  lemma LookupAfterFill(cache: Index, ontology: string, requested: seq<TermTemplate>, name: string)
    ensures var c := Filled(cache, ontology, requested);
      && Filled(c, ontology, requested) == c
      && TemplatesOf(c, ontology).Some?
      && TemplateOf(c, ontology, name) == (if ontology in cache then TemplateOf(cache, ontology, name) else LastNamed(requested, name))
  {
    NamedValuesGet(requested, name);
  }

  // ---------------------------------------------------------------- the service's collaborators

  /** A user-data record: a screen name and an xref or ORCID, either possibly null. */
  datatype UserData = UserData(screenname: Option<string>, value: Option<string>)

  /** An AutoCompleteEntry: a name (possibly null) and a value. */
  datatype AutoCompleteEntry = AutoCompleteEntry(name: Option<string>, value: string)

  /** A JsonOntologyTermIdentifier. */
  datatype TermIdentifier = TermIdentifier(ontology: string, termId: string)

  /** A JsonTermGenerationParameter: term identifiers and strings per field, either map possibly null. */
  datatype GenerationParameter = GenerationParameter(terms: Option<map<string, seq<TermIdentifier>>>,
                                                     strings: Option<map<string, seq<string>>>)

  /** A JsonTermGenerationInput: a template and a parameter, either possibly null. */
  datatype GenerationInput = GenerationInput(template: Option<JsonTermTemplate>, parameter: Option<GenerationParameter>)

  /** A JsonValidationHint. */
  datatype ValidationHint = ValidationHint(template: JsonTermTemplate, field: int, hint: string)

  /** TermGenerationParameters: the values set per field. */
  datatype TermGenerationParameters = TermGenerationParameters(termValues: map<string, seq<string>>,
                                                               stringValues: map<string, seq<string>>)

  /** The error messages of a response, `UnknownTemplate` carrying the name it reports. */
  datatype Message = NoOntology | NoTermGenerationParameters | UnexpectedNullValue | UnknownTemplate(name: string) | InternalError

  /** A TermGenerationInput handed to the generation engine. */
  datatype Task = Task(template: Option<TermTemplate>, parameters: TermGenerationParameters)

  /** What `generateTerms` answers: an error message, validation errors, or the tasks it goes on
      to generate terms for. */
  datatype Response = Error(message: Message) | Errors(hints: seq<ValidationHint>) | Generate(tasks: seq<Task>)

  /** The injected collaborators, seen as fixed functions: the ontology tools' templates per
      ontology (possibly null) and whether a manager exists, the field validator, and the user
      data of the two auto-complete resources (possibly null). */
  datatype Tools = Tools(termTemplates: string -> Option<seq<TermTemplate>>,
                         hasManager: string -> bool,
                         validate: (TermTemplate, JsonTermTemplate, GenerationParameter) -> seq<ValidationHint>,
                         xrefUserData: Option<seq<UserData>>,
                         orcidUserData: Option<seq<UserData>>)

  /** `requestTemplates(ontology)`: the tools' list, or an empty one for null; never null. */
  function Requested(tools: Tools, ontology: string): (r: seq<TermTemplate>)
    ensures tools.termTemplates(ontology).Some? ==> r == tools.termTemplates(ontology).value
    ensures tools.termTemplates(ontology).None? ==> r == []
  {
    match tools.termTemplates(ontology)
    case Some(ts) => ts
    case None => []
  }

  /** What `getTermTemplates(ontology)` returns: the cached templates, or on a miss the requested
      list itself (not its index). */
  function ListedTemplates(tools: Tools, cache: Index, ontology: string): seq<TermTemplate> {
    if ontology in cache then Values(cache[ontology]) else Requested(tools, ontology)
  }

  /** `availableTermTemplates(sessionId, ontologyName)`: empty for a null name, otherwise the
      listed templates converted and sorted by name. */
  function Available(tools: Tools, cache: Index, ontologyName: Option<string>): seq<JsonTermTemplate> {
    if ontologyName.None? then []
    else
      var ts := ListedTemplates(tools, cache, ontologyName.value);
      if ts == [] then [] else SortByName(JsonTemplates(ts))
  }

  /** The listing is ordered by name and holds exactly one converted template per listed one;
      a null name or a fresh ontology without templates gives an empty list. */
  lemma AvailableSorted(tools: Tools, cache: Index, ontologyName: Option<string>)
    ensures var r := Available(tools, cache, ontologyName);
      && SortedByName(r)
      && (ontologyName.None? ==> r == [])
      && (ontologyName.Some? ==> multiset(r) == multiset(JsonTemplates(ListedTemplates(tools, cache, ontologyName.value))))
  {
    if ontologyName.Some? {
      SortByNameSorted(JsonTemplates(ListedTemplates(tools, cache, ontologyName.value)));
    }
  }

  // ---------------------------------------------------------------- auto-complete

  /** The entries of the user data whose value is not null, in order. */
  function Entries(data: seq<UserData>): (es: seq<AutoCompleteEntry>)
    ensures |es| <= |data|
  {
    if data == [] then []
    else
      var u := data[|data| - 1];
      Entries(data[..|data| - 1]) + if u.value.Some? then [AutoCompleteEntry(u.screenname, u.value.value)] else []
  }

  /** Every entry comes from a record with that name and value, and there is none exactly
      when every value is null. */
  lemma {:induction false} EntriesSpec(data: seq<UserData>)
    ensures forall e | e in Entries(data) :: exists u | u in data :: u.value == Some(e.value) && u.screenname == e.name
    ensures Entries(data) == [] <==> forall u | u in data :: u.value.None?
  {
    if data != [] {
      var front := data[..|data| - 1];
      EntriesSpec(front);
      assert forall u | u in front :: u in data;
      assert data == front + [data[|data| - 1]];
    }
  }

  /** The entries of one resource: null for missing or empty user data or when no value survives. */
  function ResourceEntries(data: Option<seq<UserData>>): Option<seq<AutoCompleteEntry>> {
    if data.None? || data.value == [] then None
    else
      var es := Entries(data.value);
      if es == [] then None else Some(es)
  }

  /** `getAutoCompleteResource(sessionId, resource, session)`. */
  function AutoComplete(tools: Tools, resource: Option<string>): Option<seq<AutoCompleteEntry>> {
    if resource == Some("xref") then ResourceEntries(tools.xrefUserData)
    else if resource == Some("orcid") then ResourceEntries(tools.orcidUserData)
    else None
  }

  /** Only `xref` and `orcid` have entries; an answer is never an empty array, holds only
      records with a value, and there is none exactly when every record's value is null. */
  lemma AutoCompleteSpec(tools: Tools, resource: Option<string>)
    ensures var r := AutoComplete(tools, resource);
      && (resource != Some("xref") && resource != Some("orcid") ==> r.None?)
      && (r.Some? ==> r.value != [])
      && (resource == Some("xref") ==>
            (r.None? <==> tools.xrefUserData.None? || forall u | u in tools.xrefUserData.value :: u.value.None?))
      && (resource == Some("orcid") ==>
            (r.None? <==> tools.orcidUserData.None? || forall u | u in tools.orcidUserData.value :: u.value.None?))
  {
    if tools.xrefUserData.Some? {
      EntriesSpec(tools.xrefUserData.value);
    }
    if tools.orcidUserData.Some? {
      EntriesSpec(tools.orcidUserData.value);
    }
  }

  // ---------------------------------------------------------------- parameters

  /** `getTerms(jsonTerms)`: the term ids, in order. */
  function TermIds(ids: seq<TermIdentifier>): (r: seq<string>)
    ensures |r| == |ids| && forall k :: 0 <= k < |ids| ==> r[k] == ids[k].termId
  {
    if ids == [] then [] else TermIds(ids[..|ids| - 1]) + [ids[|ids| - 1].termId]
  }

  /** `createTermGenerationParameters(json)`: the term ids of every term field, and the string
      values when there are any; a null term map is dereferenced and throws. */
  function ParametersOf(json: GenerationParameter): (r: Result<TermGenerationParameters, string>)
    ensures r.Ok? <==> json.terms.Some?
    ensures r.Ok? ==> r.value.termValues.Keys == json.terms.value.Keys
    ensures r.Ok? ==> forall f | f in json.terms.value :: r.value.termValues[f] == TermIds(json.terms.value[f])
    ensures r.Ok? ==> r.value.stringValues == if json.strings.Some? then json.strings.value else map[]
  {
    match json.terms
    case None => Throw("NullPointerException")
    case Some(terms) =>
      Ok(TermGenerationParameters(map f | f in terms :: TermIds(terms[f]),
                                  if json.strings.Some? then json.strings.value else map[]))
  }

  // ---------------------------------------------------------------- generateTerms, as values

  /** The cache after the checks, the first failure met, and the validation errors collected. */
  datatype Checked = Checked(cache: Index, failure: Option<Message>, errors: seq<ValidationHint>)

  /** The parameter-validation loop of `generateTerms` from input `i` on. */
  function CheckFrom(tools: Tools, cache: Index, ontology: string, inputs: seq<Option<GenerationInput>>,
                     i: nat, errors: seq<ValidationHint>): Checked
    requires i <= |inputs|
    decreases |inputs| - i
  {
    if i == |inputs| then Checked(cache, None, errors)
    else
      var input := inputs[i];
      if input.None? || input.value.template.None? || input.value.parameter.None? then
        Checked(cache, Some(UnexpectedNullValue), errors)
      else
        var name := input.value.template.value.name;
        var filled := Filled(cache, ontology, Requested(tools, ontology));
        match TemplateOf(filled, ontology, name)
        case None => Checked(filled, Some(UnknownTemplate(name)), errors)
        case Some(template) =>
          CheckFrom(tools, filled, ontology, inputs, i + 1,
                    errors + tools.validate(template, CreateJsonTermTemplate(template), input.value.parameter.value))
  }

  /** What is wrong with one input, given the cache: a null part, or a template name the server
      does not know. */
  function Problem(cache: Index, ontology: string, input: Option<GenerationInput>): Option<Message> {
    if input.None? || input.value.template.None? || input.value.parameter.None? then Some(UnexpectedNullValue)
    else if TemplateOf(cache, ontology, input.value.template.value.name).None? then Some(UnknownTemplate(input.value.template.value.name))
    else None
  }

  /** The first problem among inputs `i` on. */
  function FirstProblem(cache: Index, ontology: string, inputs: seq<Option<GenerationInput>>, i: nat): Option<Message>
    requires i <= |inputs|
    decreases |inputs| - i
  {
    if i == |inputs| then None
    else if Problem(cache, ontology, inputs[i]).Some? then Problem(cache, ontology, inputs[i])
    else FirstProblem(cache, ontology, inputs, i + 1)
  }

  /** The validator's errors for one input without a problem, checked against the server's own
      template rather than the submitted one. */
  function InputHints(tools: Tools, cache: Index, ontology: string, input: Option<GenerationInput>): seq<ValidationHint> {
    if Problem(cache, ontology, input).Some? then []
    else
      var template := TemplateOf(cache, ontology, input.value.template.value.name).value;
      tools.validate(template, CreateJsonTermTemplate(template), input.value.parameter.value)
  }

  /** The validation errors of inputs `i` on, in input order. */
  function Hints(tools: Tools, cache: Index, ontology: string, inputs: seq<Option<GenerationInput>>, i: nat): seq<ValidationHint>
    requires i <= |inputs|
    decreases |inputs| - i
  {
    if i == |inputs| then [] else InputHints(tools, cache, ontology, inputs[i]) + Hints(tools, cache, ontology, inputs, i + 1)
  }

  /** With the ontology cached, the loop stops at the first input with a problem and otherwise
      collects every input's validation errors, in order, before deciding. */
  lemma CheckFromSplit(tools: Tools, cache: Index, ontology: string, inputs: seq<Option<GenerationInput>>,
                       i: nat, errors: seq<ValidationHint>)
    requires i <= |inputs| && ontology in cache
    ensures var c := CheckFrom(tools, cache, ontology, inputs, i, errors);
      && c.cache == cache
      && c.failure == FirstProblem(cache, ontology, inputs, i)
      && (c.failure.None? ==> c.errors == errors + Hints(tools, cache, ontology, inputs, i))
  {
    CheckFromFailure(tools, cache, ontology, inputs, i, errors);
    if FirstProblem(cache, ontology, inputs, i).None? {
      NoFirstProblem(cache, ontology, inputs, i);
      CheckFromErrors(tools, cache, ontology, inputs, i, errors);
    }
  }

  /** The loop keeps the cache and ends with the first problem, if any. */
  lemma {:induction false} CheckFromFailure(tools: Tools, cache: Index, ontology: string, inputs: seq<Option<GenerationInput>>,
                                            i: nat, errors: seq<ValidationHint>)
    requires i <= |inputs| && ontology in cache
    ensures CheckFrom(tools, cache, ontology, inputs, i, errors).cache == cache
    ensures CheckFrom(tools, cache, ontology, inputs, i, errors).failure == FirstProblem(cache, ontology, inputs, i)
    decreases |inputs| - i
  {
    if i < |inputs| {
      if Problem(cache, ontology, inputs[i]).Some? {
        CheckFromStops(tools, cache, ontology, inputs, i, errors);
      } else {
        CheckFromPasses(tools, cache, ontology, inputs, i, errors);
        CheckFromFailure(tools, cache, ontology, inputs, i + 1, errors + InputHints(tools, cache, ontology, inputs[i]));
      }
    }
  }

  /** Without a problem, the errors are every input's validation errors, in order. */
  lemma {:induction false} CheckFromErrors(tools: Tools, cache: Index, ontology: string, inputs: seq<Option<GenerationInput>>,
                                           i: nat, errors: seq<ValidationHint>)
    requires i <= |inputs| && ontology in cache
    requires forall k | i <= k < |inputs| :: Problem(cache, ontology, inputs[k]).None?
    ensures CheckFrom(tools, cache, ontology, inputs, i, errors).errors == errors + Hints(tools, cache, ontology, inputs, i)
    decreases |inputs| - i
  {
    if i < |inputs| {
      var h := InputHints(tools, cache, ontology, inputs[i]);
      var rest := Hints(tools, cache, ontology, inputs, i + 1);
      CheckFromPasses(tools, cache, ontology, inputs, i, errors);
      CheckFromErrors(tools, cache, ontology, inputs, i + 1, errors + h);
      assert errors + h + rest == errors + (h + rest);
    }
  }

  /** No first problem means no problem at all. */
  lemma {:induction false} NoFirstProblem(cache: Index, ontology: string, inputs: seq<Option<GenerationInput>>, i: nat)
    requires i <= |inputs| && FirstProblem(cache, ontology, inputs, i).None?
    ensures forall k | i <= k < |inputs| :: Problem(cache, ontology, inputs[k]).None?
    decreases |inputs| - i
  {
    if i < |inputs| {
      NoFirstProblem(cache, ontology, inputs, i + 1);
    }
  }

  /** An input with a problem ends the loop with that problem and the cache as it is. */
  lemma CheckFromStops(tools: Tools, cache: Index, ontology: string, inputs: seq<Option<GenerationInput>>,
                       i: nat, errors: seq<ValidationHint>)
    requires i < |inputs| && ontology in cache && Problem(cache, ontology, inputs[i]).Some?
    ensures CheckFrom(tools, cache, ontology, inputs, i, errors) == Checked(cache, Problem(cache, ontology, inputs[i]), errors)
  {
    assert Filled(cache, ontology, Requested(tools, ontology)) == cache;
  }

  /** An input without a problem adds its validation errors and the loop goes on. */
  lemma CheckFromPasses(tools: Tools, cache: Index, ontology: string, inputs: seq<Option<GenerationInput>>,
                        i: nat, errors: seq<ValidationHint>)
    requires i < |inputs| && ontology in cache && Problem(cache, ontology, inputs[i]).None?
    ensures CheckFrom(tools, cache, ontology, inputs, i, errors)
         == CheckFrom(tools, cache, ontology, inputs, i + 1, errors + InputHints(tools, cache, ontology, inputs[i]))
  {
    assert Filled(cache, ontology, Requested(tools, ontology)) == cache;
  }

  /** The whole loop: it stops at the first problem, judged against the cache as the first
      lookup leaves it, and otherwise returns all validation errors; the cache only ever gains
      the requested ontology. */
  lemma CheckInputs(tools: Tools, cache: Index, ontology: string, inputs: seq<Option<GenerationInput>>)
    ensures var c := CheckFrom(tools, cache, ontology, inputs, 0, []);
      var filled := Filled(cache, ontology, Requested(tools, ontology));
      && (c.cache == cache || c.cache == filled)
      && c.failure == FirstProblem(filled, ontology, inputs, 0)
      && (c.failure.None? ==> c.errors == Hints(tools, filled, ontology, inputs, 0))
  {
    var filled := Filled(cache, ontology, Requested(tools, ontology));
    if inputs == [] {
    } else if inputs[0].None? || inputs[0].value.template.None? || inputs[0].value.parameter.None? {
      assert Problem(filled, ontology, inputs[0]) == Some(UnexpectedNullValue);
    } else {
      CheckFromFills(tools, cache, ontology, inputs);
      CheckFromSplit(tools, filled, ontology, inputs, 0, []);
      assert [] + Hints(tools, filled, ontology, inputs, 0) == Hints(tools, filled, ontology, inputs, 0);
    }
  }

  /** An input without a null part fills the cache first, so the loop runs as if the ontology
      had been cached from the start. */
  lemma CheckFromFills(tools: Tools, cache: Index, ontology: string, inputs: seq<Option<GenerationInput>>)
    requires inputs != [] && inputs[0].Some? && inputs[0].value.template.Some? && inputs[0].value.parameter.Some?
    ensures CheckFrom(tools, cache, ontology, inputs, 0, [])
         == CheckFrom(tools, Filled(cache, ontology, Requested(tools, ontology)), ontology, inputs, 0, [])
  {
    var filled := Filled(cache, ontology, Requested(tools, ontology));
    assert Filled(filled, ontology, Requested(tools, ontology)) == filled;
  }

  /** The task `createGenerationTasks` builds for one input (it looks the template up again),
      or none when converting its parameter throws. */
  function TaskOf(cache: Index, ontology: string, input: GenerationInput): Option<Task>
    requires input.template.Some? && input.parameter.Some?
  {
    match ParametersOf(input.parameter.value)
    case Throw(_) => None
    case Ok(p) => Some(Task(TemplateOf(cache, ontology, input.template.value.name), p))
  }

  /** A response together with the cache it leaves. */
  datatype Served = Served(response: Response, cache: Index)

  /** `createGenerationTasks` from input `i` on. A dereferenced null part or a throwing
      conversion is caught by `generateTerms` and answered with the internal-error message. */
  function TasksFrom(tools: Tools, cache: Index, ontology: string, inputs: seq<Option<GenerationInput>>,
                     i: nat, tasks: seq<Task>): Served
    requires i <= |inputs|
    decreases |inputs| - i
  {
    if i == |inputs| then Served(Generate(tasks), cache)
    else
      var input := inputs[i];
      if input.None? || input.value.template.None? then Served(Error(InternalError), cache)
      else
        var filled := Filled(cache, ontology, Requested(tools, ontology));
        var template := TemplateOf(filled, ontology, input.value.template.value.name);
        if input.value.parameter.None? then Served(Error(InternalError), filled)
        else match ParametersOf(input.value.parameter.value)
          case Throw(_) => Served(Error(InternalError), filled)
          case Ok(p) => TasksFrom(tools, filled, ontology, inputs, i + 1, tasks + [Task(template, p)])
  }

  /** An input that passed the checks and whose term map is present. */
  predicate Ready(cache: Index, ontology: string, input: Option<GenerationInput>) {
    && input.Some? && input.value.template.Some? && input.value.parameter.Some?
    && TemplateOf(cache, ontology, input.value.template.value.name).Some?
    && input.value.parameter.value.terms.Some?
  }

  /** An input is ready exactly when it passes the checks and its term map is present. */
  lemma ReadyIffChecked(cache: Index, ontology: string, input: Option<GenerationInput>)
    ensures Ready(cache, ontology, input) <==>
            Problem(cache, ontology, input).None? && input.value.parameter.value.terms.Some?
  {
  }

  /** An input with all its parts and its term map present: a ready input is one. */
  predicate Complete(input: Option<GenerationInput>) {
    input.Some? && input.value.template.Some? && input.value.parameter.Some? && input.value.parameter.value.terms.Some?
  }

  /** The loop's tasks `s` from input `i` on: the tasks before, then one per input, in order. */
  predicate TasksAfter(cache: Index, ontology: string, inputs: seq<Option<GenerationInput>>, i: nat,
                       tasks: seq<Task>, s: seq<Task>)
    requires i <= |inputs|
  {
    && |s| == |tasks| + |inputs| - i
    && s[..|tasks|] == tasks
    && forall k | i <= k < |inputs| && Complete(inputs[k]) :: s[|tasks| + k - i] == TaskOf(cache, ontology, inputs[k].value).value
  }

  /** Complete inputs (every input that passed the checks and has a term map) become one task
      each, in order, with the template the cache holds under its name. */
  lemma {:induction false} TasksInOrder(tools: Tools, cache: Index, ontology: string, inputs: seq<Option<GenerationInput>>,
                                        i: nat, tasks: seq<Task>)
    requires i <= |inputs| && ontology in cache
    requires forall k | i <= k < |inputs| :: Complete(inputs[k])
    ensures var s := TasksFrom(tools, cache, ontology, inputs, i, tasks);
      && s.cache == cache && s.response.Generate?
      && TasksAfter(cache, ontology, inputs, i, tasks, s.response.tasks)
    decreases |inputs| - i
  {
    if i < |inputs| {
      assert Complete(inputs[i]);
      var t := TaskOf(cache, ontology, inputs[i].value).value;
      TasksFromPasses(tools, cache, ontology, inputs, i, tasks);
      TasksInOrder(tools, cache, ontology, inputs, i + 1, tasks + [t]);
      var s := TasksFrom(tools, cache, ontology, inputs, i + 1, tasks + [t]).response.tasks;
      TasksAfterStep(cache, ontology, inputs, i, tasks, s);
    } else {
      assert TasksFrom(tools, cache, ontology, inputs, i, tasks).response.tasks == tasks;
    }
  }

  /** One task more in front: the tasks for inputs `i + 1` on after `tasks + [t]`, with `t` the
      task of input `i`, are the tasks for inputs `i` on after `tasks`. */
  lemma TasksAfterStep(cache: Index, ontology: string, inputs: seq<Option<GenerationInput>>, i: nat,
                       tasks: seq<Task>, s: seq<Task>)
    requires i < |inputs| && Complete(inputs[i])
    requires TasksAfter(cache, ontology, inputs, i + 1, tasks + [TaskOf(cache, ontology, inputs[i].value).value], s)
    ensures TasksAfter(cache, ontology, inputs, i, tasks, s)
  {
    var t := TaskOf(cache, ontology, inputs[i].value).value;
    PrefixOfAppended(s, tasks, t);
  }

  /** A ready input adds its task and the loop goes on. */
  lemma TasksFromPasses(tools: Tools, cache: Index, ontology: string, inputs: seq<Option<GenerationInput>>,
                        i: nat, tasks: seq<Task>)
    requires i < |inputs| && ontology in cache && Complete(inputs[i])
    ensures TaskOf(cache, ontology, inputs[i].value).Some?
    ensures TasksFrom(tools, cache, ontology, inputs, i, tasks)
         == TasksFrom(tools, cache, ontology, inputs, i + 1, tasks + [TaskOf(cache, ontology, inputs[i].value).value])
  {
    assert Filled(cache, ontology, Requested(tools, ontology)) == cache;
  }

  /** A sequence that starts with `tasks + [t]` starts with `tasks`, followed by `t`. */
  lemma PrefixOfAppended<T>(s: seq<T>, tasks: seq<T>, t: T)
    requires |tasks| < |s| && s[..|tasks| + 1] == tasks + [t]
    ensures s[..|tasks|] == tasks && s[|tasks|] == t
  {
    assert s[..|tasks| + 1][..|tasks|] == s[..|tasks|];
    assert s[|tasks|] == s[..|tasks| + 1][|tasks|];
  }

  /** `generateTerms(sessionId, ontologyName, allParameters, processState)` up to the hand-over
      to the generation engine. */
  function GenerateResponse(tools: Tools, cache: Index, ontologyName: Option<string>,
                            allParameters: Option<seq<Option<GenerationInput>>>): Served
  {
    if ontologyName.None? || ontologyName.value == [] then Served(Error(NoOntology), cache)
    else if allParameters.None? then Served(Error(NoTermGenerationParameters), cache)
    else if !tools.hasManager(ontologyName.value) then Served(Error(NoOntology), cache)
    else
      var c := CheckFrom(tools, cache, ontologyName.value, allParameters.value, 0, []);
      if c.failure.Some? then Served(Error(c.failure.value), c.cache)
      else if c.errors != [] then Served(Errors(c.errors), c.cache)
      else TasksFrom(tools, c.cache, ontologyName.value, allParameters.value, 0, [])
  }

  /** The checks come in the order `GenerateTermsServiceImpl` tests them: a missing name,
      missing parameters, an unknown manager (each before the cache is touched); then the first
      bad input; then all validation errors together; only a request that passes them all
      reaches the engine. */
  lemma GenerateTermsChecks(tools: Tools, cache: Index, ontologyName: Option<string>,
                            allParameters: Option<seq<Option<GenerationInput>>>)
    ensures var s := GenerateResponse(tools, cache, ontologyName, allParameters);
      && (ontologyName.None? || ontologyName.value == [] ==> s == Served(Error(NoOntology), cache))
      && (ontologyName.Some? && ontologyName.value != [] && allParameters.None? ==>
            s == Served(Error(NoTermGenerationParameters), cache))
      && (ontologyName.Some? && ontologyName.value != [] && allParameters.Some? && !tools.hasManager(ontologyName.value) ==>
            s == Served(Error(NoOntology), cache))
      && (ontologyName.Some? && ontologyName.value != [] && allParameters.Some? && tools.hasManager(ontologyName.value) ==>
            var o := ontologyName.value;
            var filled := Filled(cache, o, Requested(tools, o));
            var p := FirstProblem(filled, o, allParameters.value, 0);
            var h := Hints(tools, filled, o, allParameters.value, 0);
            && (p.Some? ==> s.response == Error(p.value))
            && (p.None? && h != [] ==> s.response == Errors(h))
            && (p.None? && h == [] ==> s.response.Generate? || s.response == Error(InternalError)))
  {
    if ontologyName.Some? && ontologyName.value != [] && allParameters.Some? && tools.hasManager(ontologyName.value) {
      var o := ontologyName.value;
      var inputs := allParameters.value;
      CheckInputs(tools, cache, o, inputs);
      var c := CheckFrom(tools, cache, o, inputs, 0, []);
      if c.failure.None? && c.errors == [] {
        TasksShape(tools, c.cache, o, inputs, 0, []);
      }
    }
  }

  /** `createGenerationTasks` either hands tasks on or fails with the internal error. */
  lemma {:induction false} TasksShape(tools: Tools, cache: Index, ontology: string, inputs: seq<Option<GenerationInput>>,
                                      i: nat, tasks: seq<Task>)
    requires i <= |inputs|
    ensures var s := TasksFrom(tools, cache, ontology, inputs, i, tasks);
      s.response.Generate? || s.response == Error(InternalError)
    decreases |inputs| - i
  {
    if i < |inputs| && inputs[i].Some? && inputs[i].value.template.Some? && inputs[i].value.parameter.Some? {
      var filled := Filled(cache, ontology, Requested(tools, ontology));
      match ParametersOf(inputs[i].value.parameter.value)
      case Throw(_) =>
      case Ok(p) =>
        TasksShape(tools, filled, ontology, inputs, i + 1,
                   tasks + [Task(TemplateOf(filled, ontology, inputs[i].value.template.value.name), p)]);
    }
  }

  // ---------------------------------------------------------------- the objects

  /** The TemplateCache singleton. */
  class TemplateCache {
    var templates: Index

    constructor ()
      ensures templates == map[]
    {
      templates := map[];
    }

    /** `put(ontology, templates)`: indexes the templates by name and replaces the ontology's index. */
    method Put(ontology: string, ts: seq<TermTemplate>)
      modifies this
      ensures templates == old(templates)[ontology := NamedValues(ts)]
    {
      var namedValues: seq<Entry<TermTemplate>> := [];
      for i := 0 to |ts|
        invariant namedValues == NamedValues(ts[..i])
      {
        assert ts[..i + 1][..i] == ts[..i];
        namedValues := OrderedMap.Put(namedValues, ts[i].name, ts[i]);
      }
      assert ts[..|ts|] == ts;
      templates := templates[ontology := namedValues];
    }

    /** `getTemplates(ontology)`. */
    method GetTemplates(ontology: string) returns (r: Option<seq<TermTemplate>>)
      ensures r == TemplatesOf(templates, ontology)
    {
      if ontology !in templates {
        return None;
      }
      return Some(Values(templates[ontology]));
    }

    /** `getTemplate(ontology, templateName)`. */
    method GetTemplate(ontology: string, templateName: string) returns (r: Option<TermTemplate>)
      ensures r == TemplateOf(templates, ontology, templateName)
    {
      if ontology !in templates {
        return None;
      }
      return Get(templates[ontology], templateName);
    }
  }

  /** The service, with its collaborators and the shared cache. `requests` records, for the
      proofs only, every ontology whose templates were requested from the ontology tools. */
  class TermService {
    const tools: Tools
    const cache: TemplateCache
    ghost var requests: seq<string>

    constructor (tools: Tools, cache: TemplateCache)
      ensures this.tools == tools && this.cache == cache && requests == []
    {
      this.tools := tools;
      this.cache := cache;
      requests := [];
    }

    /** `requestTemplates(ontology)`. */
    method RequestTemplates(ontology: string) returns (r: seq<TermTemplate>)
      modifies this
      ensures r == Requested(tools, ontology) && requests == old(requests) + [ontology]
    {
      requests := requests + [ontology];
      match tools.termTemplates(ontology)
      case Some(ts) => r := ts;
      case None => r := [];
    }

    /** `getTermTemplates(ontology)`: the templates are requested, and cached, only on a miss. */
    method GetTermTemplates(ontology: string) returns (r: seq<TermTemplate>)
      modifies this, cache
      ensures cache.templates == Filled(old(cache.templates), ontology, Requested(tools, ontology))
      ensures r == ListedTemplates(tools, old(cache.templates), ontology)
      ensures requests == old(requests) + if ontology in old(cache.templates) then [] else [ontology]
    {
      var templates := cache.GetTemplates(ontology);
      if templates.None? {
        r := RequestTemplates(ontology);
        cache.Put(ontology, r);
      } else {
        r := templates.value;
      }
    }

    /** `getTermTemplate(ontology, name)`: a hit needs no request; on a miss the templates are
      requested only when the ontology is not cached at all. */
    method GetTermTemplate(ontology: string, name: string) returns (template: Option<TermTemplate>)
      modifies this, cache
      ensures cache.templates == Filled(old(cache.templates), ontology, Requested(tools, ontology))
      ensures template == TemplateOf(cache.templates, ontology, name)
      ensures requests == old(requests) + if ontology in old(cache.templates) then [] else [ontology]
    {
      template := cache.GetTemplate(ontology, name);
      if template.None? {
        var templates := cache.GetTemplates(ontology);
        if templates.None? {
          var requested := RequestTemplates(ontology);
          cache.Put(ontology, requested);
        }
        template := cache.GetTemplate(ontology, name);
      }
    }

    /** `availableTermTemplates(sessionId, ontologyName)`. */
    method AvailableTermTemplates(ontologyName: Option<string>) returns (r: seq<JsonTermTemplate>)
      modifies this, cache
      ensures r == Available(tools, old(cache.templates), ontologyName)
      ensures ontologyName.None? ==> cache.templates == old(cache.templates)
      ensures ontologyName.Some? ==> cache.templates == Filled(old(cache.templates), ontologyName.value, Requested(tools, ontologyName.value))
    {
      if ontologyName.None? {
        return [];
      }
      var templates := GetTermTemplates(ontologyName.value);
      if templates == [] {
        return [];
      }
      var jsonTemplates: seq<JsonTermTemplate> := [];
      for i := 0 to |templates|
        invariant jsonTemplates == JsonTemplates(templates[..i])
      {
        assert templates[..i + 1][..i] == templates[..i];
        jsonTemplates := jsonTemplates + [CreateJsonTermTemplate(templates[i])];
      }
      assert templates[..|templates|] == templates;
      r := SortByName(jsonTemplates);
    }

    /** `getAutoCompleteResource(sessionId, resource, session)`. */
    method GetAutoCompleteResource(resource: Option<string>) returns (r: Option<seq<AutoCompleteEntry>>)
      ensures r == AutoComplete(tools, resource)
    {
      if resource == Some("xref") {
        var userData := tools.xrefUserData;
        if userData.Some? && userData.value != [] {
          var xrefStrings := CollectEntries(userData.value);
          if xrefStrings != [] {
            return Some(xrefStrings);
          }
        }
      } else if resource == Some("orcid") {
        var userData := tools.orcidUserData;
        if userData.Some? && userData.value != [] {
          var xrefStrings := CollectEntries(userData.value);
          if xrefStrings != [] {
            return Some(xrefStrings);
          }
        }
      }
      return None;
    }

    /** `generateTerms(sessionId, ontologyName, allParameters, processState)` up to the call of
        the generation engine, which receives the tasks of a successful response. */
    method GenerateTerms(ontologyName: Option<string>, allParameters: Option<seq<Option<GenerationInput>>>)
      returns (r: Response)
      modifies this, cache
      ensures Served(r, cache.templates) == GenerateResponse(tools, old(cache.templates), ontologyName, allParameters)
    {
      if ontologyName.None? || ontologyName.value == [] {
        return Error(NoOntology);
      }
      if allParameters.None? {
        return Error(NoTermGenerationParameters);
      }
      var ontology := ontologyName.value;
      if !tools.hasManager(ontology) {
        return Error(NoOntology);
      }
      var inputs := allParameters.value;
      ghost var start := cache.templates;
      var allErrors: seq<ValidationHint> := [];
      for i := 0 to |inputs|
        invariant CheckFrom(tools, start, ontology, inputs, 0, []) == CheckFrom(tools, cache.templates, ontology, inputs, i, allErrors)
      {
        var input := inputs[i];
        if input.None? {
          return Error(UnexpectedNullValue);
        }
        var one := input.value.template;
        var parameter := input.value.parameter;
        if one.None? || parameter.None? {
          return Error(UnexpectedNullValue);
        }
        var template := GetTermTemplate(ontology, one.value.name);
        if template.None? {
          return Error(UnknownTemplate(one.value.name));
        }
        var jsonTermTemplate := CreateJsonTermTemplate(template.value);
        var simpleErrors := tools.validate(template.value, jsonTermTemplate, parameter.value);
        allErrors := allErrors + simpleErrors;
      }
      if allErrors != [] {
        return Errors(allErrors);
      }
      r := CreateGenerationTasks(ontology, inputs);
    }

    /** `createGenerationTasks(ontologyName, allParameters)`, with the exception handler of
        `generateTerms` around it. */
    method CreateGenerationTasks(ontology: string, inputs: seq<Option<GenerationInput>>) returns (r: Response)
      modifies this, cache
      ensures Served(r, cache.templates) == TasksFrom(tools, old(cache.templates), ontology, inputs, 0, [])
    {
      var result: seq<Task> := [];
      for i := 0 to |inputs|
        invariant TasksFrom(tools, old(cache.templates), ontology, inputs, 0, [])
                  == TasksFrom(tools, cache.templates, ontology, inputs, i, result)
      {
        var jsonInput := inputs[i];
        if jsonInput.None? || jsonInput.value.template.None? {
          return Error(InternalError);
        }
        var template := GetTermTemplate(ontology, jsonInput.value.template.value.name);
        if jsonInput.value.parameter.None? {
          return Error(InternalError);
        }
        var parameters := CreateTermGenerationParameters(jsonInput.value.parameter.value);
        if parameters.Throw? {
          return Error(InternalError);
        }
        result := result + [Task(template, parameters.value)];
      }
      return Generate(result);
    }
  }

  /** The loop of `getAutoCompleteResource` over one resource's user data. */
  method CollectEntries(userData: seq<UserData>) returns (entries: seq<AutoCompleteEntry>)
    ensures entries == Entries(userData)
  {
    entries := [];
    for i := 0 to |userData|
      invariant entries == Entries(userData[..i])
    {
      assert userData[..i + 1][..i] == userData[..i];
      var value := userData[i].value;
      if value.Some? {
        entries := entries + [AutoCompleteEntry(userData[i].screenname, value.value)];
      }
    }
    assert userData[..|userData|] == userData;
  }

  /** `getTerms(jsonTerms)`. */
  method GetTerms(jsonTerms: seq<TermIdentifier>) returns (terms: seq<string>)
    ensures terms == TermIds(jsonTerms)
  {
    terms := [];
    for i := 0 to |jsonTerms|
      invariant terms == TermIds(jsonTerms[..i])
    {
      assert jsonTerms[..i + 1][..i] == jsonTerms[..i];
      terms := terms + [jsonTerms[i].termId];
    }
    assert jsonTerms[..|jsonTerms|] == jsonTerms;
  }

  /** The loop of `createTermGenerationParameters` over the term fields, in whatever order the
      map hands out its keys. */
  method TermValues(terms: map<string, seq<TermIdentifier>>) returns (termValues: map<string, seq<string>>)
    ensures termValues == map f | f in terms :: TermIds(terms[f])
  {
    termValues := map[];
    var fields := terms.Keys;
    while fields != {}
      invariant fields <= terms.Keys
      invariant termValues.Keys == terms.Keys - fields
      invariant forall f | f in termValues :: termValues[f] == TermIds(terms[f])
      decreases fields
    {
      var field :| field in fields;
      var ids := GetTerms(terms[field]);
      termValues := termValues[field := ids];
      fields := fields - {field};
    }
  }

  /** The loop of `createTermGenerationParameters` over the string fields. */
  method StringValues(strings: map<string, seq<string>>) returns (stringValues: map<string, seq<string>>)
    ensures stringValues == strings
  {
    stringValues := map[];
    var keys := strings.Keys;
    while keys != {}
      invariant keys <= strings.Keys
      invariant stringValues.Keys == strings.Keys - keys
      invariant forall f | f in stringValues :: stringValues[f] == strings[f]
      decreases keys
    {
      var field :| field in keys;
      stringValues := stringValues[field := strings[field]];
      keys := keys - {field};
    }
  }

  /** `createTermGenerationParameters(json)`: every term field, then every string field when
      the string map is present and not empty. */
  method CreateTermGenerationParameters(json: GenerationParameter) returns (r: Result<TermGenerationParameters, string>)
    ensures r == ParametersOf(json)
  {
    if json.terms.None? {
      return Throw("NullPointerException");
    }
    var termValues := TermValues(json.terms.value);
    var stringValues: map<string, seq<string>> := map[];
    if json.strings.Some? && |json.strings.value| > 0 {
      stringValues := StringValues(json.strings.value);
    } else if json.strings.Some? {
      assert json.strings.value.Keys == {};
      assert json.strings.value == map[];
    }
    assert stringValues == if json.strings.Some? then json.strings.value else map[];
    var expected := ParametersOf(json);
    assert expected.value.termValues == termValues;
    return Ok(TermGenerationParameters(termValues, stringValues));
  }
}
