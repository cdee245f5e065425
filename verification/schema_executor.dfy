/** Running a compiled validator against a document: the library semantics of
    the combinations the compiler emits, restated as one total function that
    yields either the normalized value or every issue found. */
module SchemaExecutor {
  import opened Wrappers
  import opened JsText
  import opened Json
  import opened SchemaCompiler

  /** Behaviour of code outside the model, passed in as functions:
      `parseUrl` is `new URL(s)` (the protocol, including its colon, or
      `None` when the constructor throws), `isUrl` is the library's own URL
      check, and `toNumber` is JavaScript's `Number(s)`. */
  datatype Host = Host(
    parseUrl: string -> Option<string>,
    isUrl: string -> bool,
    toNumber: string -> Number)

  /** One step of an issue path: an object key or an array index. */
  datatype Segment = Key(key: string) | Index(index: nat)

  type Path = seq<Segment>

  datatype Issue = Issue(path: Path, message: string)

  type Outcome = Result<Value, seq<Issue>>

  predicate IsAsciiAlphanumeric(c: char) {
    ('a' <= c <= 'z') || ('A' <= c <= 'Z') || ('0' <= c <= '9')
  }

  /** The punctuation the relative-path pattern allows after its first
      character: `-`, `.`, `_`, `~` and `/`. */
  predicate IsPathPunctuation(c: char) {
    c == '-' || c == '.' || c == '_' || c == '~' || c == '/'
  }

  /** The pattern `^[a-zA-Z0-9][a-zA-Z0-9\-._~/]*$` for simple relative
      paths such as `about` or `blog/post`. */
  predicate MatchesRelativePath(v: string) {
    && |v| >= 1
    && IsAsciiAlphanumeric(v[0])
    && forall k :: 1 <= k < |v| ==> IsAsciiAlphanumeric(v[k]) || IsPathPunctuation(v[k])
  }

  /** `v.startsWith('#')`, read character by character. */
  predicate IsAnchor(v: string) {
    |v| >= 1 && v[0] == '#'
  }

  /** `v.startsWith('/') || v.startsWith('./') || v.startsWith('../')`, read
      character by character. */
  predicate IsLocalPath(v: string) {
    || (|v| >= 1 && v[0] == '/')
    || (|v| >= 2 && v[0] == '.' && v[1] == '/')
    || (|v| >= 3 && v[0] == '.' && v[1] == '.' && v[2] == '/')
  }

  /** The refinement of the `url` kind, on the trimmed text: an anchor, a
      rooted or dot-relative path, an absolute http(s) URL, or (only when
      the text does not parse as an absolute URL) a simple relative path. */
  predicate IsUrlOrRelativeAnchor(h: Host, value: string) {
    var v := Trim(value);
    if |v| == 0 then false
    else if IsAnchor(v) then true
    else if IsLocalPath(v) then true
    else
      match h.parseUrl(v)
      case Some(protocol) => protocol == "http:" || protocol == "https:"
      case None => MatchesRelativePath(v)
  }

  function Reject(path: Path, message: string): Outcome {
    Failure([Issue(path, message)])
  }

  /** The issues one outcome contributes. */
  function IssuesOf(r: Outcome): seq<Issue> {
    if r.Failure? then r.error else []
  }

  predicate AllAccepted(rs: seq<Outcome>) {
    forall i :: 0 <= i < |rs| ==> rs[i].Success?
  }

  /** The issues of all outcomes, concatenated in order. */
  function AllIssues(rs: seq<Outcome>): seq<Issue> {
    if |rs| == 0 then [] else IssuesOf(rs[0]) + AllIssues(rs[1..])
  }

  function Values(rs: seq<Outcome>): (vs: seq<Value>)
    requires AllAccepted(rs)
    ensures |vs| == |rs|
    ensures forall i :: 0 <= i < |rs| ==> vs[i] == rs[i].value
  {
    seq(|rs|, i requires 0 <= i < |rs| => rs[i].value)
  }

  /** The parsed object: each declared key with its parsed value, except
      that a key absent from the input whose parsed value is `undefined`
      stays absent. Keys the shape does not declare are dropped. */
  function Output(keys: seq<string>, vals: seq<Value>, input: map<string, Value>): map<string, Value>
    requires |keys| == |vals|
  {
    if |keys| == 0 then map[]
    else
      var rest := Output(keys[1..], vals[1..], input);
      if keys[0] in input || vals[0] != Undefined then rest[keys[0] := vals[0]] else rest
  }

  /** The outcomes of an array's elements, each at its index. */
  function ElementOutcomes(h: Host, element: Validator, items: seq<Value>, path: Path): (rs: seq<Outcome>)
    decreases ArrayOf(element), 0
    ensures |rs| == |items|
    ensures forall i :: 0 <= i < |items| ==> rs[i] == Validate(h, element, items[i], path + [Index(i)])
  {
    seq(|items|, i requires 0 <= i < |items| => Validate(h, element, items[i], path + [Index(i)]))
  }

  /** The outcomes of an object's declared keys, each at its key. */
  function PropertyOutcomes(h: Host, shape: seq<(string, Validator)>, x: Value, path: Path): (rs: seq<Outcome>)
    decreases Record(shape), 0
    ensures |rs| == |shape|
    ensures forall i :: 0 <= i < |shape| ==>
              rs[i] == Validate(h, shape[i].1, Get(x, shape[i].0), path + [Key(shape[i].0)])
  {
    seq(|shape|, i requires 0 <= i < |shape| =>
      Validate(h, shape[i].1, Get(x, shape[i].0), path + [Key(shape[i].0)]))
  }

  /** The issues of a `Link` node on a string: the length check and the
      refinement both run, so an empty string that the predicate also
      refuses draws both messages, the required one first. */
  function LinkIssues(path: Path, required: string, invalid: string, nonEmpty: bool, accepted: bool): (r: seq<Issue>)
    ensures forall iss :: iss in r ==> iss.path == path
    ensures r == [] <==> nonEmpty && accepted
    ensures !nonEmpty ==> r[0] == Issue(path, required)
    ensures !accepted ==> r[|r| - 1] == Issue(path, invalid)
    ensures nonEmpty ==> r == (if accepted then [] else [Issue(path, invalid)])
  {
    (if nonEmpty then [] else [Issue(path, required)]) +
    (if accepted then [] else [Issue(path, invalid)])
  }

  /** Validates `x` at `path`. Composite nodes visit every element or key
      and collect all issues before deciding; a single issue rejects. */
  function Validate(h: Host, v: Validator, x: Value, path: Path): Outcome
    decreases v, 1
  {
    match v
    case AnyValue => Success(x)
    case Text => if x.Str? then Success(x) else Reject(path, LibraryMessage)
    case RequiredText(required) =>
      if !x.Str? then Reject(path, LibraryMessage)
      else if |x.s| >= 1 then Success(x)
      else Reject(path, required)
    case NumberLike =>
      if x.Num? && !x.n.NaN? then Success(x)
      else if x.Str? then Success(Num(h.toNumber(x.s)))
      else Reject(path, LibraryMessage)
    case Link(required, invalid) =>
      if !x.Str? then Reject(path, LibraryMessage)
      else
        var issues := LinkIssues(path, required, invalid, |x.s| >= 1, IsUrlOrRelativeAnchor(h, x.s));
        if issues == [] then Success(x) else Failure(issues)
    case AbsoluteUrl(invalid) =>
      if !x.Str? then Reject(path, LibraryMessage)
      else if h.isUrl(x.s) then Success(x)
      else Reject(path, invalid)
    case OneOf(options) =>
      if x.Str? && x.s in options then Success(x) else Reject(path, LibraryMessage)
    case ArrayOf(element) =>
      if !x.Arr? then Reject(path, LibraryMessage)
      else
        var rs := ElementOutcomes(h, element, x.items, path);
        if AllAccepted(rs) then Success(Arr(Values(rs))) else Failure(AllIssues(rs))
    case Record(shape) =>
      if !x.Obj? then Reject(path, LibraryMessage)
      else
        var rs := PropertyOutcomes(h, shape, x, path);
        if AllAccepted(rs) then Success(Obj(Output(JsObject.Keys(shape), Values(rs), x.props)))
        else Failure(AllIssues(rs))
  }
}
