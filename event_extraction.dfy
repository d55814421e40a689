/** `GDACSXmlDtaCrawler.extract_event_information`: the fixed field mapping
    from one RSS `<item>` to the flat property map of a feature. */
module EventExtraction {
  import opened Wrappers
  import opened GeoJson

  /** An XML element as `find` returns it: its text (`None` when it has none)
      and its attributes. */
  datatype Element = Element(text: Option<string>, attrib: map<string, string>)

  /** A parsed `<item>`: for every path the mapping queries, the first matching
      element; a path without an entry is one for which `find` returns `None`. */
  type Item = map<string, Element>

  /** How a field's value is read off its element. */
  datatype Read =
    | Text                          // `.text`
    | Attribute(name: string)       // `.attrib[name]`
    | AttributeTuple(name: string)  // `(.attrib[name],)`, a one-element tuple

  /** One assignment `event_dict[key] = <read of find(path)>`. A guarded step
      lies inside an `if elem is not None:` block and is skipped when the
      element is absent; an unguarded one dereferences `None` and raises. */
  datatype Step = Step(key: string, path: string, read: Read, guarded: bool)

  datatype ExtractError =
    | NoElement(path: string)                 // AttributeError on `None.text` / `None.attrib`
    | NoAttribute(path: string, name: string) // KeyError on `attrib[name]`

  const Severity := ".//gdacs:severity"
  const Population := ".//gdacs:population"
  const GeoRssPointPath := ".//georss:point"
  const Guid := "./guid"

  /** The assignments of `extract_event_information`, in source order. */
  const EventSteps: seq<Step> := [
    Step("Title", "title", Text, false),
    Step("Description", "description", Text, false),
    Step("Link", "link", Text, false),
    Step("Publication Date", "pubDate", Text, false),
    Step("Severity unit", Severity, AttributeTuple("unit"), true),
    Step("Severity value", Severity, AttributeTuple("value"), true),
    Step("Severity text", Severity, Text, true),
    Step("Population unit", Population, AttributeTuple("unit"), true),
    Step("Population value", Population, AttributeTuple("value"), true),
    Step("Population text", Population, Text, true),
    Step("Date Added", ".//gdacs:dateadded", Text, false),
    Step("Date Modified", ".//gdacs:datemodified", Text, false),
    Step("Is Current", ".//gdacs:iscurrent", Text, false),
    Step("From Date", ".//gdacs:fromdate", Text, false),
    Step("To Date", ".//gdacs:todate", Text, false),
    Step("Duration in Week", ".//gdacs:durationinweek", Text, false),
    Step("Year", ".//gdacs:year", Text, false),
    Step("Subject", ".//dc:subject", Text, false),
    Step("Is PermaLink", Guid, Attribute("isPermaLink"), false),
    Step("Bbox", ".//gdacs:bbox", Text, false),
    Step("GeoRSS Point", GeoRssPointPath, Text, false),
    Step("Event Type", ".//gdacs:eventtype", Text, false),
    Step("Alert Level", ".//gdacs:alertlevel", Text, false),
    Step("Alert Score", ".//gdacs:alertscore", Text, false),
    Step("Episode Alert Level", ".//gdacs:episodealertlevel", Text, false),
    Step("Episode Alert Score", ".//gdacs:episodealertscore", Text, false),
    Step("Event ID", ".//gdacs:eventid", Text, false),
    Step("Episode ID", ".//gdacs:episodeid", Text, false),
    Step("Calculation Type", ".//gdacs:calculationtype", Text, false),
    Step("Severity", Severity, Text, false),
    Step("Population", Population, Text, false),
    Step("Vulnerability", ".//gdacs:vulnerability", Text, false),
    Step("Country", ".//gdacs:country", Text, false)
  ]

  function TextValue(e: Element): PropValue {
    if e.text.Some? then Str(e.text.value) else Null
  }

  function ReadElement(path: string, e: Element, read: Read): Result<PropValue, ExtractError> {
    match read
    case Text => Ok(TextValue(e))
    case Attribute(name) => if name in e.attrib then Ok(Str(e.attrib[name])) else Err(NoAttribute(path, name))
    case AttributeTuple(name) => if name in e.attrib then Ok(Tuple1(e.attrib[name])) else Err(NoAttribute(path, name))
  }

  /** One assignment: `None` when a guarded step is skipped. */
  function RunStep(item: Item, s: Step): (r: Result<Option<PropValue>, ExtractError>)
    // a value is stored only from a present element; a missing element is skipped only when guarded
    ensures r.Ok? && r.value.Some? ==> s.path in item
    ensures r.Ok? && r.value.None? ==> s.path !in item && s.guarded
    ensures r.Err? ==> !s.guarded || s.path in item
  {
    if s.path !in item then
      if s.guarded then Ok(None) else Err(NoElement(s.path))
    else
      var v :- ReadElement(s.path, item[s.path], s.read);
      Ok(Some(v))
  }

  /** The assignments `steps` performed in order on the dictionary `acc`;
      the first one that raises ends the extraction. */
  function ExtractFrom(item: Item, steps: seq<Step>, acc: Properties): Result<Properties, ExtractError>
    decreases |steps|
  {
    if steps == [] then Ok(acc)
    else
      var v :- RunStep(item, steps[0]);
      ExtractFrom(item, steps[1..], if v.Some? then acc[steps[0].key := v.value] else acc)
  }

  function ExtractEventInformation(item: Item): (r: Result<Properties, ExtractError>)
    ensures r.Ok? ==> r.value.Keys <= EventKeys
  {
    var r := ExtractFrom(item, EventSteps, map[]);
    if r.Ok? then
      ExtractKeys(item, EventSteps, map[]);
      r
    else r
  }

  // ---- the reference description of a step ----

  /** The step does not raise: its element is present and carries the
      attribute it reads, or the step is guarded and its element absent. */
  predicate StepOk(item: Item, s: Step) {
    if s.path in item then s.read.Text? || s.read.name in item[s.path].attrib
    else s.guarded
  }

  /** The exception a step that is not `StepOk` raises. */
  function StepError(item: Item, s: Step): ExtractError {
    if s.path !in item then NoElement(s.path)
    else if s.read.Text? then NoElement(s.path)
    else NoAttribute(s.path, s.read.name)
  }

  /** The value a step that runs stores. */
  function StepValue(e: Element, read: Read): PropValue
    requires read.Text? || read.name in e.attrib
  {
    match read
    case Text => TextValue(e)
    case Attribute(name) => Str(e.attrib[name])
    case AttributeTuple(name) => Tuple1(e.attrib[name])
  }

  lemma RunStepSpec(item: Item, s: Step)
    ensures RunStep(item, s).Ok? <==> StepOk(item, s)
    ensures RunStep(item, s).Err? ==> RunStep(item, s).error == StepError(item, s)
    ensures RunStep(item, s).Ok? ==>
              (RunStep(item, s).value.Some? <==> s.path in item) &&
              (s.path in item ==> RunStep(item, s).value.value == StepValue(item[s.path], s.read))
  {
  }

  /** The extraction succeeds exactly when no step raises. */
  lemma {:induction false} ExtractSucceedsIff(item: Item, steps: seq<Step>, acc: Properties)
    ensures ExtractFrom(item, steps, acc).Ok? <==> forall i :: 0 <= i < |steps| ==> StepOk(item, steps[i])
    decreases |steps|
  {
    if steps != [] {
      RunStepSpec(item, steps[0]);
      var v := RunStep(item, steps[0]);
      if v.Ok? {
        var acc' := if v.value.Some? then acc[steps[0].key := v.value.value] else acc;
        ExtractSucceedsIff(item, steps[1..], acc');
        assert forall i :: 1 <= i < |steps| ==> steps[i] == steps[1..][i - 1];
      }
    }
  }

  /** A failing extraction raises the exception of the first step that raises. */
  lemma {:induction false} ExtractFirstError(item: Item, steps: seq<Step>, acc: Properties, i: nat)
    requires i < |steps| && !StepOk(item, steps[i])
    requires forall j :: 0 <= j < i ==> StepOk(item, steps[j])
    ensures ExtractFrom(item, steps, acc) == Err(StepError(item, steps[i]))
    decreases i
  {
    RunStepSpec(item, steps[0]);
    if i > 0 {
      var v := RunStep(item, steps[0]);
      var acc' := if v.value.Some? then acc[steps[0].key := v.value.value] else acc;
      ExtractFirstError(item, steps[1..], acc', i - 1);
    }
  }

  /** The keys of a successful extraction: those already in `acc`, plus the key
      of every step whose element is present. A guarded step whose element is
      absent adds nothing. */
  lemma {:induction false} ExtractKeys(item: Item, steps: seq<Step>, acc: Properties)
    requires ExtractFrom(item, steps, acc).Ok?
    ensures ExtractFrom(item, steps, acc).value.Keys ==
            acc.Keys + (set i | 0 <= i < |steps| && steps[i].path in item :: steps[i].key)
    decreases |steps|
  {
    if steps != [] {
      RunStepSpec(item, steps[0]);
      var v := RunStep(item, steps[0]);
      var acc' := if v.value.Some? then acc[steps[0].key := v.value.value] else acc;
      ExtractKeys(item, steps[1..], acc');
      var tail := set i | 0 <= i < |steps[1..]| && steps[1..][i].path in item :: steps[1..][i].key;
      var all := set i | 0 <= i < |steps| && steps[i].path in item :: steps[i].key;
      assert all == tail + (if steps[0].path in item then {steps[0].key} else {}) by {
        forall k | k in all ensures k in tail + (if steps[0].path in item then {steps[0].key} else {}) {
          var i :| 0 <= i < |steps| && steps[i].path in item && steps[i].key == k;
          if i > 0 {
            assert steps[1..][i - 1] == steps[i];
          }
        }
        forall k | k in tail ensures k in all {
          var i :| 0 <= i < |steps[1..]| && steps[1..][i].path in item && steps[1..][i].key == k;
          assert steps[i + 1] == steps[1..][i];
        }
      }
    }
  }

  /** A key no step writes keeps the value it had in `acc`. */
  lemma {:induction false} ExtractUntouched(item: Item, steps: seq<Step>, acc: Properties, k: string)
    requires ExtractFrom(item, steps, acc).Ok?
    requires forall j :: 0 <= j < |steps| ==> steps[j].key != k
    ensures k in ExtractFrom(item, steps, acc).value <==> k in acc
    ensures k in acc ==> ExtractFrom(item, steps, acc).value[k] == acc[k]
    decreases |steps|
  {
    if steps != [] {
      var v := RunStep(item, steps[0]);
      var acc' := if v.value.Some? then acc[steps[0].key := v.value.value] else acc;
      assert forall j :: 0 <= j < |steps[1..]| ==> steps[1..][j] == steps[j + 1];
      ExtractUntouched(item, steps[1..], acc', k);
    }
  }

  /** A step whose element is present and whose key no later step rewrites
      leaves exactly its read value under its key. */
  lemma {:induction false} ExtractLastWrite(item: Item, steps: seq<Step>, acc: Properties, i: nat)
    requires ExtractFrom(item, steps, acc).Ok?
    requires i < |steps| && steps[i].path in item
    requires forall j :: i < j < |steps| ==> steps[j].key != steps[i].key
    ensures StepOk(item, steps[i])
    ensures && steps[i].key in ExtractFrom(item, steps, acc).value
            && ExtractFrom(item, steps, acc).value[steps[i].key] == StepValue(item[steps[i].path], steps[i].read)
    decreases i
  {
    ExtractSucceedsIff(item, steps, acc);
    RunStepSpec(item, steps[0]);
    var v := RunStep(item, steps[0]);
    var acc' := if v.value.Some? then acc[steps[0].key := v.value.value] else acc;
    if i == 0 {
      assert forall j :: 0 <= j < |steps[1..]| ==> steps[1..][j] == steps[j + 1];
      ExtractUntouched(item, steps[1..], acc', steps[0].key);
    } else {
      assert forall j :: i - 1 < j < |steps[1..]| ==> steps[1..][j] == steps[j + 1];
      ExtractLastWrite(item, steps[1..], acc', i - 1);
    }
  }

  // ---- the GDACS mapping ----

  /** Every element the mapping dereferences without a presence check. The
      severity and population elements are among them: their guarded blocks
      come first, but `Severity` and `Population` read them unguarded later. */
  const RequiredPaths: set<string> := {
    "title", "description", "link", "pubDate",
    ".//gdacs:dateadded", ".//gdacs:datemodified", ".//gdacs:iscurrent", ".//gdacs:fromdate",
    ".//gdacs:todate", ".//gdacs:durationinweek", ".//gdacs:year", ".//dc:subject",
    Guid, ".//gdacs:bbox", GeoRssPointPath, ".//gdacs:eventtype", ".//gdacs:alertlevel",
    ".//gdacs:alertscore", ".//gdacs:episodealertlevel", ".//gdacs:episodealertscore",
    ".//gdacs:eventid", ".//gdacs:episodeid", ".//gdacs:calculationtype",
    Severity, Population, ".//gdacs:vulnerability", ".//gdacs:country"
  }

  /** An item `extract_event_information` accepts: every required element is
      present, `<guid>` has `isPermaLink`, and the severity and population
      elements have `unit` and `value` attributes. */
  predicate WellFormedItem(item: Item) {
    && (forall p :: p in RequiredPaths ==> p in item)
    && Guid in item && "isPermaLink" in item[Guid].attrib
    && Severity in item && "unit" in item[Severity].attrib && "value" in item[Severity].attrib
    && Population in item && "unit" in item[Population].attrib && "value" in item[Population].attrib
  }

  /** The extraction succeeds exactly on well-formed items; anything missing
      raises instead of skipping the field. */
  lemma ExtractEventInformationOkIff(item: Item)
    ensures ExtractEventInformation(item).Ok? <==> WellFormedItem(item)
  {
    ExtractSucceedsIff(item, EventSteps, map[]);
    if WellFormedItem(item) {
      forall i | 0 <= i < |EventSteps| ensures StepOk(item, EventSteps[i]) {
        WellFormedStepOk(item, i);
      }
    } else if ExtractEventInformation(item).Ok? {
      OkIsWellFormed(item);
    }
  }

  lemma WellFormedStepOk(item: Item, i: nat)
    requires WellFormedItem(item) && i < |EventSteps|
    ensures StepOk(item, EventSteps[i])
  {
    var s := EventSteps[i];
    if s.guarded {
      assert s.path == Severity || s.path == Population;
    } else {
      assert s.path in RequiredPaths;
    }
  }

  lemma OkIsWellFormed(item: Item)
    requires forall i :: 0 <= i < |EventSteps| ==> StepOk(item, EventSteps[i])
    ensures WellFormedItem(item)
  {
    forall p | p in RequiredPaths ensures p in item {
      var i := RequiredIndex(p);
      assert StepOk(item, EventSteps[i]);
    }
    assert StepOk(item, EventSteps[18]) && StepOk(item, EventSteps[4]) && StepOk(item, EventSteps[5]);
    assert StepOk(item, EventSteps[7]) && StepOk(item, EventSteps[8]);
  }

  /** The unguarded step that reads a required element. */
  function RequiredIndex(p: string): (i: nat)
    requires p in RequiredPaths
    ensures i < |EventSteps| && EventSteps[i].path == p && !EventSteps[i].guarded
  {
    if p == "title" then 0 else if p == "description" then 1 else if p == "link" then 2
    else if p == "pubDate" then 3 else if p == ".//gdacs:dateadded" then 10
    else if p == ".//gdacs:datemodified" then 11 else if p == ".//gdacs:iscurrent" then 12
    else if p == ".//gdacs:fromdate" then 13 else if p == ".//gdacs:todate" then 14
    else if p == ".//gdacs:durationinweek" then 15 else if p == ".//gdacs:year" then 16
    else if p == ".//dc:subject" then 17 else if p == Guid then 18
    else if p == ".//gdacs:bbox" then 19 else if p == GeoRssPointPath then 20
    else if p == ".//gdacs:eventtype" then 21 else if p == ".//gdacs:alertlevel" then 22
    else if p == ".//gdacs:alertscore" then 23 else if p == ".//gdacs:episodealertlevel" then 24
    else if p == ".//gdacs:episodealertscore" then 25 else if p == ".//gdacs:eventid" then 26
    else if p == ".//gdacs:episodeid" then 27 else if p == ".//gdacs:calculationtype" then 28
    else if p == Severity then 29 else if p == Population then 30
    else if p == ".//gdacs:vulnerability" then 31 else 32
  }

  /** No two assignments of the mapping write the same key. */
  lemma EventKeysDistinct(i: nat, j: nat)
    requires i < j < |EventSteps|
    ensures EventSteps[i].key != EventSteps[j].key
  {
  }

  /** The keys the mapping writes, one per assignment (33 in all). */
  const EventKeys: set<string> := set i | 0 <= i < |EventSteps| :: EventSteps[i].key

  /** An accepted item's property map has exactly the 33 keys. */
  lemma ExtractedKeys(item: Item)
    requires ExtractEventInformation(item).Ok?
    ensures ExtractEventInformation(item).value.Keys == EventKeys
  {
    ExtractEventInformationOkIff(item);
    ExtractKeys(item, EventSteps, map[]);
    WrittenKeys(item);
  }

  lemma WrittenKeys(item: Item)
    requires WellFormedItem(item)
    ensures (set i | 0 <= i < |EventSteps| && EventSteps[i].path in item :: EventSteps[i].key) == EventKeys
  {
    forall i | 0 <= i < |EventSteps| ensures EventSteps[i].path in item {
      WellFormedStepPresent(item, i);
    }
  }

  /** In an accepted item's property map, each assignment's key holds the
      value that assignment read from the item. */
  lemma ExtractedValue(item: Item, i: nat)
    requires ExtractEventInformation(item).Ok? && i < |EventSteps|
    ensures EventSteps[i].path in item && StepOk(item, EventSteps[i])
    ensures EventSteps[i].key in ExtractEventInformation(item).value
    ensures ExtractEventInformation(item).value[EventSteps[i].key] ==
            StepValue(item[EventSteps[i].path], EventSteps[i].read)
  {
    ExtractEventInformationOkIff(item);
    WellFormedStepPresent(item, i);
    forall j | i < j < |EventSteps| ensures EventSteps[j].key != EventSteps[i].key {
      EventKeysDistinct(i, j);
    }
    ExtractLastWrite(item, EventSteps, map[], i);
  }

  lemma WellFormedStepPresent(item: Item, i: nat)
    requires WellFormedItem(item) && i < |EventSteps|
    ensures EventSteps[i].path in item
  {
    var s := EventSteps[i];
    assert s.path in RequiredPaths;
  }

  /** The severity and population attributes are stored as one-element
      tuples; the point text is stored as read. */
  lemma TupleValuedAttributes(item: Item)
    requires ExtractEventInformation(item).Ok?
    ensures Severity in item && "unit" in item[Severity].attrib && "value" in item[Severity].attrib
    ensures Population in item && "unit" in item[Population].attrib && "value" in item[Population].attrib
    ensures "Severity unit" in ExtractEventInformation(item).value
    ensures ExtractEventInformation(item).value["Severity unit"] == Tuple1(item[Severity].attrib["unit"])
    ensures "Severity value" in ExtractEventInformation(item).value
    ensures ExtractEventInformation(item).value["Severity value"] == Tuple1(item[Severity].attrib["value"])
    ensures "Population unit" in ExtractEventInformation(item).value
    ensures ExtractEventInformation(item).value["Population unit"] == Tuple1(item[Population].attrib["unit"])
    ensures "Population value" in ExtractEventInformation(item).value
    ensures ExtractEventInformation(item).value["Population value"] == Tuple1(item[Population].attrib["value"])
  {
    var steps := EventSteps;
    assert steps[4] == Step("Severity unit", Severity, AttributeTuple("unit"), true);
    assert steps[5] == Step("Severity value", Severity, AttributeTuple("value"), true);
    assert steps[7] == Step("Population unit", Population, AttributeTuple("unit"), true);
    assert steps[8] == Step("Population value", Population, AttributeTuple("value"), true);
    ExtractedValue(item, 4);
    ExtractedValue(item, 5);
    ExtractedValue(item, 7);
    ExtractedValue(item, 8);
  }

  /** A required element missing from an item makes the extraction raise. */
  lemma MissingRequiredElementRaises(item: Item, p: string)
    requires p in RequiredPaths && p !in item
    ensures ExtractEventInformation(item).Err?
  {
    ExtractEventInformationOkIff(item);
  }
}
