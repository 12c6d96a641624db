/**
 * The records exchanged between the planner, architect and coder stages
 * (`File`, `Plan`, `ImplementationTask`, `TaskPlan`, `CoderState`) and what
 * happens when one is built from a set of named field values: required
 * fields must be present with the declared shape, optional fields take their
 * default, unknown fields are dropped except on `TaskPlan`, which keeps them.
 */
module States {
  import opened Wrappers

  /** A field value as it is handed to a record constructor. */
  datatype Value = VStr(s: string) | VInt(i: int) | VNull | VList(items: seq<Value>) | VObj(fields: map<string, Value>)

  datatype File = File(path: string, purpose: string)

  datatype Plan = Plan(
    name: string,
    description: string,
    framework: Option<string>,
    language: Option<string>,
    techstack: string,
    features: seq<string>,
    files: seq<File>)

  datatype ImplementationTask = ImplementationTask(filepath: string, taskDescription: string)

  /** The ordered steps, plus every field the caller supplied beyond them. */
  datatype TaskPlan = TaskPlan(implementationSteps: seq<ImplementationTask>, extra: map<string, Value>)

  datatype CoderState = CoderState(taskPlan: TaskPlan, currentStepIdx: int, currentFileContent: Option<string>)

  /** Where a validation error sits: a field name or a list position, outermost first. */
  datatype LocItem = Key(name: string) | Index(i: nat)
  datatype ErrorKind = Missing | WrongType
  datatype FieldError = FieldError(loc: seq<LocItem>, kind: ErrorKind)

  type Parsed<T> = Result<T, seq<FieldError>>

  /** A failed parse always says why. */
  ghost predicate Reports<T>(parse: Value -> Parsed<T>) {
    forall v :: parse(v).Err? ==> parse(v).error != []
  }

  function Errors<T>(r: Parsed<T>): seq<FieldError> {
    if r.Err? then r.error else []
  }

  /** Puts `item` in front of the location of every error. */
  function Under(item: LocItem, errs: seq<FieldError>): (r: seq<FieldError>)
    ensures |r| == |errs|
  {
    seq(|errs|, i requires 0 <= i < |errs| => FieldError([item] + errs[i].loc, errs[i].kind))
  }

  function At<T>(item: LocItem, r: Parsed<T>): (out: Parsed<T>)
    ensures out.Ok? == r.Ok? && (r.Ok? ==> out == r)
    ensures out.Err? ==> |out.error| == |r.error|
  {
    match r
    case Ok(_) => r
    case Err(e) => Err(Under(item, e))
  }

  /** A field without a default: absent means a `Missing` error at that field. */
  function Required<T>(m: map<string, Value>, key: string, parse: Value -> Parsed<T>): (r: Parsed<T>)
    requires Reports(parse)
    ensures r.Ok? <==> key in m && parse(m[key]).Ok?
    ensures r.Ok? ==> r.value == parse(m[key]).value
    ensures r.Err? ==> r.error != []
    ensures key !in m ==> r == Err([FieldError([Key(key)], Missing)])
  {
    if key !in m then Err([FieldError([Key(key)], Missing)]) else At(Key(key), parse(m[key]))
  }

  /** A field with a default: absent means the default. */
  function Defaulted<T>(m: map<string, Value>, key: string, default: T, parse: Value -> Parsed<T>): (r: Parsed<T>)
    requires Reports(parse)
    ensures r.Ok? <==> key !in m || parse(m[key]).Ok?
    ensures r.Ok? ==> r.value == if key in m then parse(m[key]).value else default
    ensures r.Err? ==> r.error != []
  {
    if key !in m then Ok(default) else At(Key(key), parse(m[key]))
  }

  function AsStr(v: Value): (r: Parsed<string>)
    ensures r.Ok? <==> v.VStr?
    ensures r.Ok? ==> r.value == v.s
    ensures r.Err? ==> r.error != []
  {
    if v.VStr? then Ok(v.s) else Err([FieldError([], WrongType)])
  }

  /** `Optional[str]`: a string or an explicit null. */
  function AsOptStr(v: Value): (r: Parsed<Option<string>>)
    ensures r.Ok? <==> v.VStr? || v.VNull?
    ensures r.Ok? ==> r.value == if v.VStr? then Some(v.s) else None
    ensures r.Err? ==> r.error != []
  {
    match v
    case VStr(s) => Ok(Some(s))
    case VNull => Ok(None)
    case _ => Err([FieldError([], WrongType)])
  }

  function AsInt(v: Value): (r: Parsed<int>)
    ensures r.Ok? <==> v.VInt?
    ensures r.Ok? ==> r.value == v.i
    ensures r.Err? ==> r.error != []
  {
    if v.VInt? then Ok(v.i) else Err([FieldError([], WrongType)])
  }

  /** Parses every element of a list, keeping their order; errors are located by list position. */
  function ParseEach<T>(items: seq<Value>, parse: Value -> Parsed<T>, from: nat): (r: Parsed<seq<T>>)
    requires Reports(parse)
    ensures r.Ok? <==> forall i :: 0 <= i < |items| ==> parse(items[i]).Ok?
    ensures r.Ok? ==> |r.value| == |items| && forall i :: 0 <= i < |items| ==> r.value[i] == parse(items[i]).value
    ensures r.Err? ==> r.error != []
    decreases |items|
  {
    if |items| == 0 then Ok([])
    else
      var head := At(Index(from), parse(items[0]));
      var tail := ParseEach(items[1..], parse, from + 1);
      assert forall i :: 1 <= i < |items| ==> items[i] == items[1..][i - 1];
      if head.Ok? && tail.Ok? then Ok([head.value] + tail.value)
      else Err(Errors(head) + Errors(tail))
  }

  function AsList<T>(v: Value, parse: Value -> Parsed<T>): (r: Parsed<seq<T>>)
    requires Reports(parse)
    ensures r.Ok? <==> v.VList? && forall i :: 0 <= i < |v.items| ==> parse(v.items[i]).Ok?
    ensures r.Ok? ==> |r.value| == |v.items| && forall i :: 0 <= i < |v.items| ==> r.value[i] == parse(v.items[i]).value
    ensures r.Err? ==> r.error != []
  {
    if v.VList? then ParseEach(v.items, parse, 0) else Err([FieldError([], WrongType)])
  }

  /** A nested record: only an object of fields is accepted. */
  function AsObj<T>(v: Value, parse: map<string, Value> -> Parsed<T>): (r: Parsed<T>)
    requires forall m :: parse(m).Err? ==> parse(m).error != []
    ensures r.Ok? <==> v.VObj? && parse(v.fields).Ok?
    ensures r.Ok? ==> r.value == parse(v.fields).value
    ensures r.Err? ==> r.error != []
  {
    if v.VObj? then parse(v.fields) else Err([FieldError([], WrongType)])
  }

  // ----- the shapes each record declares -----

  predicate HasStr(m: map<string, Value>, key: string) {
    key in m && m[key].VStr?
  }

  predicate HasOptStr(m: map<string, Value>, key: string) {
    key !in m || m[key].VStr? || m[key].VNull?
  }

  predicate IsStrList(v: Value) {
    v.VList? && forall i :: 0 <= i < |v.items| ==> v.items[i].VStr?
  }

  predicate FileShaped(m: map<string, Value>) {
    HasStr(m, "path") && HasStr(m, "purpose")
  }

  predicate IsFileList(v: Value) {
    v.VList? && forall i :: 0 <= i < |v.items| ==> v.items[i].VObj? && FileShaped(v.items[i].fields)
  }

  predicate PlanShaped(m: map<string, Value>) {
    && HasStr(m, "name")
    && HasStr(m, "description")
    && HasOptStr(m, "framework")
    && HasOptStr(m, "language")
    && HasStr(m, "techstack")
    && "features" in m && IsStrList(m["features"])
    && "files" in m && IsFileList(m["files"])
  }

  predicate TaskShaped(m: map<string, Value>) {
    HasStr(m, "filepath") && HasStr(m, "task_description")
  }

  predicate IsTaskList(v: Value) {
    v.VList? && forall i :: 0 <= i < |v.items| ==> v.items[i].VObj? && TaskShaped(v.items[i].fields)
  }

  predicate TaskPlanShaped(m: map<string, Value>) {
    "implementation_steps" in m && IsTaskList(m["implementation_steps"])
  }

  predicate CoderStateShaped(m: map<string, Value>) {
    && "task_plan" in m && m["task_plan"].VObj? && TaskPlanShaped(m["task_plan"].fields)
    && ("current_step_idx" !in m || m["current_step_idx"].VInt?)
    && HasOptStr(m, "current_file_content")
  }

  /** Declared field names of `Plan`; any other field given to it is dropped. */
  const PlanKeys: set<string> := {"name", "description", "framework", "language", "techstack", "features", "files"}

  /** The declared value of an optional string field that is known to be well shaped. */
  function OptStrOf(m: map<string, Value>, key: string): Option<string>
    requires HasOptStr(m, key)
  {
    if key in m && m[key].VStr? then Some(m[key].s) else None
  }

  // ----- construction from named fields -----

  /** `File(**m)`: both `path` and `purpose` are required strings. */
  function ParseFile(m: map<string, Value>): (r: Parsed<File>)
    ensures r.Ok? <==> FileShaped(m)
    ensures r.Ok? ==> r.value == File(m["path"].s, m["purpose"].s)
    ensures r.Err? ==> r.error != []
    ensures "path" !in m ==> r.Err? && FieldError([Key("path")], Missing) in r.error
    ensures "purpose" !in m ==> r.Err? && FieldError([Key("purpose")], Missing) in r.error
  {
    var path := Required(m, "path", AsStr);
    var purpose := Required(m, "purpose", AsStr);
    if path.Ok? && purpose.Ok? then Ok(File(path.value, purpose.value))
    else Err(Errors(path) + Errors(purpose))
  }

  function AsFile(v: Value): (r: Parsed<File>)
    ensures r.Ok? <==> v.VObj? && FileShaped(v.fields)
    ensures r.Ok? ==> r.value == File(v.fields["path"].s, v.fields["purpose"].s)
    ensures r.Err? ==> r.error != []
  {
    AsObj(v, ParseFile)
  }

  /**
   * `Plan(**m)`: `name`, `description`, `techstack`, `features` and `files`
   * are required; `framework` and `language` default to `None`. The list
   * fields keep the order they were given in.
   */
  function ParsePlan(m: map<string, Value>): (r: Parsed<Plan>)
    ensures r.Ok? <==> PlanShaped(m)
    ensures r.Ok? ==> && r.value.name == m["name"].s
                      && r.value.description == m["description"].s
                      && r.value.framework == OptStrOf(m, "framework")
                      && r.value.language == OptStrOf(m, "language")
                      && r.value.techstack == m["techstack"].s
    ensures r.Ok? ==> |r.value.features| == |m["features"].items|
                      && forall i :: 0 <= i < |r.value.features| ==> r.value.features[i] == m["features"].items[i].s
    ensures r.Ok? ==> |r.value.files| == |m["files"].items|
                      && forall i :: 0 <= i < |r.value.files| ==>
                           r.value.files[i] == File(m["files"].items[i].fields["path"].s, m["files"].items[i].fields["purpose"].s)
    ensures r.Err? ==> r.error != []
    ensures forall key :: key in {"name", "description", "techstack", "features", "files"} && key !in m ==>
              r.Err? && FieldError([Key(key)], Missing) in r.error
  {
    var name := Required(m, "name", AsStr);
    var description := Required(m, "description", AsStr);
    var framework := Defaulted(m, "framework", None, AsOptStr);
    var language := Defaulted(m, "language", None, AsOptStr);
    var techstack := Required(m, "techstack", AsStr);
    var features := Required(m, "features", v => AsList(v, AsStr));
    var files := Required(m, "files", v => AsList(v, AsFile));
    if name.Ok? && description.Ok? && framework.Ok? && language.Ok? && techstack.Ok? && features.Ok? && files.Ok? then
      Ok(Plan(name.value, description.value, framework.value, language.value, techstack.value, features.value, files.value))
    else
      Err(Errors(name) + Errors(description) + Errors(framework) + Errors(language)
          + Errors(techstack) + Errors(features) + Errors(files))
  }

  /** `ImplementationTask(**m)`: both `filepath` and `task_description` are required strings. */
  function ParseTask(m: map<string, Value>): (r: Parsed<ImplementationTask>)
    ensures r.Ok? <==> TaskShaped(m)
    ensures r.Ok? ==> r.value == ImplementationTask(m["filepath"].s, m["task_description"].s)
    ensures r.Err? ==> r.error != []
    ensures "filepath" !in m ==> r.Err? && FieldError([Key("filepath")], Missing) in r.error
    ensures "task_description" !in m ==> r.Err? && FieldError([Key("task_description")], Missing) in r.error
  {
    var filepath := Required(m, "filepath", AsStr);
    var description := Required(m, "task_description", AsStr);
    if filepath.Ok? && description.Ok? then Ok(ImplementationTask(filepath.value, description.value))
    else Err(Errors(filepath) + Errors(description))
  }

  function AsTask(v: Value): (r: Parsed<ImplementationTask>)
    ensures r.Ok? <==> v.VObj? && TaskShaped(v.fields)
    ensures r.Ok? ==> r.value == ImplementationTask(v.fields["filepath"].s, v.fields["task_description"].s)
    ensures r.Err? ==> r.error != []
  {
    AsObj(v, ParseTask)
  }

  /**
   * `TaskPlan(**m)`: `implementation_steps` is required and keeps its order;
   * every other field is kept, unvalidated, beside it.
   */
  function ParseTaskPlan(m: map<string, Value>): (r: Parsed<TaskPlan>)
    ensures r.Ok? <==> TaskPlanShaped(m)
    ensures r.Ok? ==> r.value.extra == m - {"implementation_steps"}
    ensures r.Ok? ==> |r.value.implementationSteps| == |m["implementation_steps"].items|
                      && forall i :: 0 <= i < |r.value.implementationSteps| ==>
                           var f := m["implementation_steps"].items[i].fields;
                           r.value.implementationSteps[i] == ImplementationTask(f["filepath"].s, f["task_description"].s)
    ensures r.Err? ==> r.error != []
    ensures "implementation_steps" !in m ==> r == Err([FieldError([Key("implementation_steps")], Missing)])
  {
    var steps := Required(m, "implementation_steps", v => AsList(v, AsTask));
    if steps.Ok? then Ok(TaskPlan(steps.value, m - {"implementation_steps"})) else Err(steps.error)
  }

  /**
   * `CoderState(**m)`: `task_plan` is required; `current_step_idx` defaults
   * to 0 and `current_file_content` to `None`. Nothing ties the index to the
   * number of steps.
   */
  function ParseCoderState(m: map<string, Value>): (r: Parsed<CoderState>)
    ensures r.Ok? <==> CoderStateShaped(m)
    ensures r.Ok? ==> Ok(r.value.taskPlan) == ParseTaskPlan(m["task_plan"].fields)
    ensures r.Ok? ==> r.value.currentStepIdx == if "current_step_idx" in m then m["current_step_idx"].i else 0
    ensures r.Ok? ==> r.value.currentFileContent == OptStrOf(m, "current_file_content")
    ensures r.Err? ==> r.error != []
    ensures "task_plan" !in m ==> r.Err? && FieldError([Key("task_plan")], Missing) in r.error
  {
    var taskPlan := Required(m, "task_plan", v => AsObj(v, ParseTaskPlan));
    var idx := Defaulted(m, "current_step_idx", 0, AsInt);
    var content := Defaulted(m, "current_file_content", None, AsOptStr);
    if taskPlan.Ok? && idx.Ok? && content.Ok? then Ok(CoderState(taskPlan.value, idx.value, content.value))
    else Err(Errors(taskPlan) + Errors(idx) + Errors(content))
  }

  // ----- the fields a record is made of (its dump) -----

  function FileFields(f: File): map<string, Value> {
    map["path" := VStr(f.path), "purpose" := VStr(f.purpose)]
  }

  function OptStrValue(o: Option<string>): Value {
    if o.Some? then VStr(o.value) else VNull
  }

  function PlanFields(p: Plan): map<string, Value> {
    map[
      "name" := VStr(p.name),
      "description" := VStr(p.description),
      "framework" := OptStrValue(p.framework),
      "language" := OptStrValue(p.language),
      "techstack" := VStr(p.techstack),
      "features" := VList(seq(|p.features|, i requires 0 <= i < |p.features| => VStr(p.features[i]))),
      "files" := VList(seq(|p.files|, i requires 0 <= i < |p.files| => VObj(FileFields(p.files[i]))))
    ]
  }

  function TaskFields(t: ImplementationTask): map<string, Value> {
    map["filepath" := VStr(t.filepath), "task_description" := VStr(t.taskDescription)]
  }

  function TaskPlanFields(tp: TaskPlan): map<string, Value> {
    tp.extra[
      "implementation_steps" := VList(seq(|tp.implementationSteps|, i requires 0 <= i < |tp.implementationSteps| =>
                                           VObj(TaskFields(tp.implementationSteps[i]))))]
  }

  // ----- properties -----

  /** Building a plan from its own fields gives the same plan back, features and files in order. */
  lemma PlanRoundTrip(p: Plan)
    ensures ParsePlan(PlanFields(p)) == Ok(p)
  {
    var m := PlanFields(p);
    assert PlanShaped(m);
    var q := ParsePlan(m).value;
    assert q.features == p.features;
    assert q.files == p.files;
  }

  /** A task plan's extra fields survive a round trip untouched, beside its ordered steps. */
  lemma TaskPlanRoundTrip(tp: TaskPlan)
    requires "implementation_steps" !in tp.extra
    ensures ParseTaskPlan(TaskPlanFields(tp)) == Ok(tp)
  {
    var m := TaskPlanFields(tp);
    assert TaskPlanShaped(m);
    var q := ParseTaskPlan(m).value;
    assert q.implementationSteps == tp.implementationSteps;
    assert m - {"implementation_steps"} == tp.extra;
  }

  /** Fields that `Plan` does not declare have no effect on the outcome, errors included. */
  lemma PlanIgnoresUnknownFields(m: map<string, Value>)
    ensures ParsePlan(m) == ParsePlan(map k | k in m && k in PlanKeys :: m[k])
  {
  }

  /** A coder state built from a task plan alone starts at step 0 with no file content. */
  lemma CoderStateDefaults(tp: TaskPlan)
    requires "implementation_steps" !in tp.extra
    ensures ParseCoderState(map["task_plan" := VObj(TaskPlanFields(tp))]) == Ok(CoderState(tp, 0, None))
  {
    TaskPlanRoundTrip(tp);
  }

  /** Any integer is accepted as the step index, negative or past the last step. */
  lemma StepIndexIsUnchecked(tp: TaskPlan, idx: int)
    requires "implementation_steps" !in tp.extra
    ensures ParseCoderState(map["task_plan" := VObj(TaskPlanFields(tp)), "current_step_idx" := VInt(idx)])
            == Ok(CoderState(tp, idx, None))
  {
    TaskPlanRoundTrip(tp);
  }
}
