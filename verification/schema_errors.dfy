/** The error projector of `useSchemaValidator`: `validate` reshapes the
    executor's issues into a map from dotted path to messages, and
    `getFieldError` reads the first message at one path. */
module SchemaErrors {
  import opened Wrappers
  import opened JsText
  import opened Json
  import opened SchemaCompiler
  import opened SchemaExecutor
  import SchemaExecutorLaws
  import JsObject

  /** Path segments as `Array.prototype.join` writes them. */
  function SegmentText(s: Segment): string {
    match s
    case Key(k) => k
    case Index(i) => NatToString(i)
  }

  /** `issue.path.join('.')`. */
  function JoinPath(p: Path): string {
    Join(seq(|p|, i requires 0 <= i < |p| => SegmentText(p[i])), ".")
  }

  /** Messages keyed by dotted path. */
  type Errors = map<string, seq<string>>

  /** Reference definition: the messages of the issues at dotted path `k`,
      in discovery order. */
  function MessagesAt(issues: seq<Issue>, k: string): seq<string> {
    if |issues| == 0 then []
    else
      var last := issues[|issues| - 1];
      MessagesAt(issues[..|issues| - 1], k) + (if JoinPath(last.path) == k then [last.message] else [])
  }

  /** One step of the projection's `forEach`: create the bucket if missing,
      then append the message. */
  function AddIssue(errors: Errors, iss: Issue): Errors {
    var k := JoinPath(iss.path);
    if k in errors then errors[k := errors[k] + [iss.message]] else errors[k := [iss.message]]
  }

  /** The dotted paths of the issues, in order. */
  function Paths(issues: seq<Issue>): (ps: seq<string>)
    ensures |ps| == |issues|
    ensures forall i :: 0 <= i < |issues| ==> ps[i] == JoinPath(issues[i].path)
  {
    seq(|issues|, i requires 0 <= i < |issues| => JoinPath(issues[i].path))
  }

  /** The projection, with buckets looked up among the map's own keys. */
  function Project(issues: seq<Issue>): Errors {
    if |issues| == 0 then map[]
    else AddIssue(Project(issues[..|issues| - 1]), issues[|issues| - 1])
  }

  /** A path no issue has collects no messages. */
  lemma {:induction false} MessagesAtAbsent(issues: seq<Issue>, k: string)
    requires k !in Paths(issues)
    ensures MessagesAt(issues, k) == []
  {
    if |issues| > 0 {
      var init := issues[..|issues| - 1];
      assert Paths(init) == Paths(issues)[..|issues| - 1];
      MessagesAtAbsent(init, k);
    }
  }

  /** The projection has one bucket per distinct dotted path of the issues,
      and each bucket holds the messages of the issues at that path in
      discovery order. */
  lemma {:induction false} ProjectSpec(issues: seq<Issue>)
    ensures forall k :: k in Project(issues) <==> k in Paths(issues)
    ensures forall k :: k in Project(issues) ==> Project(issues)[k] == MessagesAt(issues, k)
  {
    if |issues| > 0 {
      var init := issues[..|issues| - 1];
      var last := issues[|issues| - 1];
      ProjectSpec(init);
      assert Paths(issues) == Paths(init) + [JoinPath(last.path)];
      if JoinPath(last.path) !in Paths(init) {
        MessagesAtAbsent(init, JoinPath(last.path));
      }
    }
  }

  /** The number of messages at the paths `ks`, by the reference definition. */
  function CountAt(issues: seq<Issue>, ks: seq<string>): nat {
    if |ks| == 0 then 0 else |MessagesAt(issues, ks[0])| + CountAt(issues, ks[1..])
  }

  function Occurrences(ks: seq<string>, k: string): nat {
    if |ks| == 0 then 0 else (if ks[0] == k then 1 else 0) + Occurrences(ks[1..], k)
  }

  lemma {:induction false} OccurrencesOfDistinct(ks: seq<string>, k: string)
    requires JsObject.Distinct(ks)
    ensures Occurrences(ks, k) == if k in ks then 1 else 0
  {
    if |ks| > 0 {
      OccurrencesOfDistinct(ks[1..], k);
    }
  }

  lemma {:induction false} CountAtAppend(issues: seq<Issue>, iss: Issue, ks: seq<string>)
    ensures CountAt(issues + [iss], ks) == CountAt(issues, ks) + Occurrences(ks, JoinPath(iss.path))
  {
    assert (issues + [iss])[..|issues|] == issues;
    if |ks| > 0 {
      CountAtAppend(issues, iss, ks[1..]);
    }
  }

  /** Counting over any duplicate-free list of paths that covers every
      issue finds each issue exactly once. */
  lemma {:induction false} CountCovers(issues: seq<Issue>, ks: seq<string>)
    requires JsObject.Distinct(ks)
    requires forall p :: p in Paths(issues) ==> p in ks
    ensures CountAt(issues, ks) == |issues|
  {
    if |issues| == 0 {
      CountAtEmpty(ks);
    } else {
      var init := issues[..|issues| - 1];
      var last := issues[|issues| - 1];
      assert Paths(issues) == Paths(init) + [JoinPath(last.path)];
      CountCovers(init, ks);
      assert init + [last] == issues;
      CountAtAppend(init, last, ks);
      OccurrencesOfDistinct(ks, JoinPath(last.path));
    }
  }

  lemma {:induction false} CountAtEmpty(ks: seq<string>)
    ensures CountAt([], ks) == 0
  {
    if |ks| > 0 {
      CountAtEmpty(ks[1..]);
    }
  }

  /** The total size of the buckets at `ks`. */
  function BucketTotal(errors: Errors, ks: seq<string>): nat {
    if |ks| == 0 then 0
    else (if ks[0] in errors then |errors[ks[0]]| else 0) + BucketTotal(errors, ks[1..])
  }

  lemma {:induction false} BucketTotalIsCount(issues: seq<Issue>, ks: seq<string>)
    ensures BucketTotal(Project(issues), ks) == CountAt(issues, ks)
  {
    if |ks| > 0 {
      ProjectSpec(issues);
      if ks[0] !in Paths(issues) {
        MessagesAtAbsent(issues, ks[0]);
      }
      BucketTotalIsCount(issues, ks[1..]);
    }
  }

  /** Summed over its distinct paths, the projection holds exactly as many
      messages as there were issues. */
  lemma {:induction false} ProjectKeepsEveryMessage(issues: seq<Issue>)
    ensures BucketTotal(Project(issues), JsObject.Dedup(Paths(issues))) == |issues|
  {
    var ks := JsObject.Dedup(Paths(issues));
    BucketTotalIsCount(issues, ks);
    CountCovers(issues, ks);
  }

  /** The first message collected at `k` is that of the first issue at `k`. */
  lemma {:induction false} MessagesAtFirst(issues: seq<Issue>, k: string, i: nat)
    requires i < |issues| && JoinPath(issues[i].path) == k
    requires forall j :: 0 <= j < i ==> JoinPath(issues[j].path) != k
    ensures |MessagesAt(issues, k)| > 0 && MessagesAt(issues, k)[0] == issues[i].message
  {
    var init := issues[..|issues| - 1];
    if i < |issues| - 1 {
      MessagesAtFirst(init, k, i);
    } else {
      assert Paths(init) == Paths(issues)[..i];
      MessagesAtAbsent(init, k);
    }
  }

  /** `getFieldError`: the first message at `path`, unless there are no
      errors, no bucket at that path, or the first message is empty (an
      empty string is falsy, so `|| null` discards it). */
  function FieldError(path: string, errors: Option<Errors>): (r: Option<string>)
    ensures r.Some? <==> errors.Some? && path in errors.value && |errors.value[path]| > 0 && errors.value[path][0] != ""
    ensures r.Some? ==> r.value == errors.value[path][0]
  {
    match errors
    case None => None
    case Some(m) =>
      if path in m && |m[path]| > 0 && m[path][0] != "" then Some(m[path][0]) else None
  }

  /** What the awaited `parseAsync` did: returned a value, threw a
      validation error carrying issues, or threw something else. */
  datatype ParseOutcome = Parsed(value: Value) | IssuesThrown(issues: seq<Issue>) | OtherThrown

  /** The object `validate` resolves with. */
  datatype Report = Report(success: bool, data: Option<Value>, errors: Option<Errors>)

  const UnknownErrorMessage: string := "Error desconocido"

  /** The body of `validate` after `parseAsync` settles. */
  function Summarize(outcome: ParseOutcome): (r: Report)
    ensures r.success <==> outcome.Parsed?
    ensures r.success ==> r.data == Some(outcome.value) && r.errors.None?
    ensures outcome.IssuesThrown? ==> r.data.None? && r.errors == Some(Project(outcome.issues))
    ensures outcome.OtherThrown? ==> r.data.None? && r.errors == Some(map["general" := [UnknownErrorMessage]])
  {
    match outcome
    case Parsed(v) => Report(true, Some(v), None)
    case IssuesThrown(issues) => Report(false, None, Some(Project(issues)))
    case OtherThrown => Report(false, None, Some(map["general" := [UnknownErrorMessage]]))
  }

  /** What `useSchemaValidator` is given: a field list to compile, or a
      validator compiled elsewhere. */
  datatype Schema = Fields(fields: seq<Field>) | Compiled(validator: Validator)

  function SchemaValidator(schema: Schema): Validator {
    match schema
    case Fields(fs) => CompileSchema(fs)
    case Compiled(v) => v
  }

  /** `validate(data)`: run the validator from the root path and summarize. */
  function ValidateDocument(h: Host, schema: Schema, data: Value): Report {
    match Validate(h, SchemaValidator(schema), data, [])
    case Success(v) => Summarize(Parsed(v))
    case Failure(issues) => Summarize(IssuesThrown(issues))
  }

  /** Reading the first error at a path after projecting gives the message
      of the first issue reported at that path (none if that message is
      empty), and nothing at a path no issue has. */
  lemma {:induction false} FieldErrorIsFirstIssue(issues: seq<Issue>, path: string)
    ensures path !in Paths(issues) ==> FieldError(path, Some(Project(issues))).None?
    ensures forall i :: 0 <= i < |issues| && JoinPath(issues[i].path) == path &&
                        (forall j :: 0 <= j < i ==> JoinPath(issues[j].path) != path) ==>
              FieldError(path, Some(Project(issues))) ==
                (if issues[i].message == "" then None else Some(issues[i].message))
  {
    ProjectSpec(issues);
    forall i | 0 <= i < |issues| && JoinPath(issues[i].path) == path &&
               (forall j :: 0 <= j < i ==> JoinPath(issues[j].path) != path)
      ensures FieldError(path, Some(Project(issues))) ==
                (if issues[i].message == "" then None else Some(issues[i].message))
    {
      MessagesAtFirst(issues, path, i);
    }
  }

  /** Validating a document succeeds exactly when the validator accepts
      it, with the parsed value as `data` and no errors; otherwise `errors`
      is the projection of the issues, which is never empty, and the
      unknown-error bucket never appears. */
  lemma {:induction false} ValidateDocumentSpec(h: Host, schema: Schema, data: Value)
    ensures var r := ValidateDocument(h, schema, data);
            var o := Validate(h, SchemaValidator(schema), data, []);
            && (r.success <==> o.Success?)
            && (o.Success? ==> r.data == Some(o.value) && r.errors.None?)
            && (o.Failure? ==> r.data.None? && r.errors == Some(Project(o.error)) && |r.errors.value| > 0)
  {
    var o := Validate(h, SchemaValidator(schema), data, []);
    SchemaExecutorLaws.RejectionHasIssues(h, SchemaValidator(schema), data, []);
    if o.Failure? {
      ProjectSpec(o.error);
      assert JoinPath(o.error[0].path) in Project(o.error);
    }
  }

  /** Property names every plain object inherits from `Object.prototype`.
      Reading one of them from `{}` yields a truthy value that has no
      `push` method. */
  const InheritedNames: set<string> := {
    "constructor", "__proto__", "hasOwnProperty", "isPrototypeOf",
    "propertyIsEnumerable", "toLocaleString", "toString", "valueOf",
    "__defineGetter__", "__defineSetter__", "__lookupGetter__", "__lookupSetter__"
  }

  /** One step of the projection as the source writes it, on a `{}` that
      inherits from `Object.prototype`: `None` is the `TypeError` thrown when
      `errors[path]` finds an inherited property and `.push` is called on it. */
  function AddIssueAsWritten(errors: Option<Errors>, iss: Issue): Option<Errors> {
    match errors
    case None => None
    case Some(m) =>
      var k := JoinPath(iss.path);
      if k in m then Some(m[k := m[k] + [iss.message]])
      else if k in InheritedNames then None
      else Some(m[k := [iss.message]])
  }

  function ProjectAsWritten(issues: seq<Issue>): Option<Errors> {
    if |issues| == 0 then Some(map[])
    else AddIssueAsWritten(ProjectAsWritten(issues[..|issues| - 1]), issues[|issues| - 1])
  }

  /** The source's projection throws exactly when some issue's dotted path
      is an inherited property name; otherwise it agrees with `Project`. */
  lemma {:induction false} ProjectAsWrittenSpec(issues: seq<Issue>)
    ensures ProjectAsWritten(issues).None? <==> exists p :: p in Paths(issues) && p in InheritedNames
    ensures ProjectAsWritten(issues).Some? ==> ProjectAsWritten(issues).value == Project(issues)
  {
    if |issues| > 0 {
      var init := issues[..|issues| - 1];
      var last := issues[|issues| - 1];
      ProjectAsWrittenSpec(init);
      assert Paths(issues) == Paths(init) + [JoinPath(last.path)];
      ProjectSpec(init);
    }
  }

  /** `validate(data)` as the source writes it: `None` when the projection
      in the `catch` block throws, so that the promise `validate` returns
      rejects instead of resolving with a report. */
  function ValidateDocumentAsWritten(h: Host, schema: Schema, data: Value): Option<Report> {
    match Validate(h, SchemaValidator(schema), data, [])
    case Success(v) => Some(Summarize(Parsed(v)))
    case Failure(issues) =>
      match ProjectAsWritten(issues)
      case None => None
      case Some(m) => Some(Report(false, None, Some(m)))
  }

  /** The source's `validate` resolves with the same report as the
      corrected one exactly when no issue path is an inherited property
      name; otherwise it rejects. */
  lemma {:induction false} ValidateDocumentAsWrittenSpec(h: Host, schema: Schema, data: Value)
    ensures var o := Validate(h, SchemaValidator(schema), data, []);
            && (ValidateDocumentAsWritten(h, schema, data) == Some(ValidateDocument(h, schema, data))
                <==> o.Success? || forall p :: p in Paths(o.error) ==> p !in InheritedNames)
            && (ValidateDocumentAsWritten(h, schema, data).None?
                <==> o.Failure? && exists p :: p in Paths(o.error) && p in InheritedNames)
  {
    var o := Validate(h, SchemaValidator(schema), data, []);
    if o.Failure? {
      ProjectAsWrittenSpec(o.error);
    }
  }

  /** A field whose id is `constructor` shows it: one issue at that path
      makes the source's projection throw, where the intended projection
      has a bucket for it. */
  lemma {:induction false} ConstructorPathThrows(message: string)
    ensures ProjectAsWritten([Issue([Key("constructor")], message)]).None?
    ensures Project([Issue([Key("constructor")], message)]) == map["constructor" := [message]]
  {
    var issues := [Issue([Key("constructor")], message)];
    assert JoinPath([Key("constructor")]) == "constructor";
    assert issues[..0] == [];
  }
}
