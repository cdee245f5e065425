/** The schema-to-validator compiler of `useSchemaValidator.ts`: each field
    descriptor becomes one validator node (`fieldTypeToZod`), and a list of
    descriptors becomes an object validator keyed by `id`
    (`createZodSchemaFromFields`). */
module SchemaCompiler {
  import JsObject
  import Wrappers

  /** One field descriptor. `caption` is its `label` (a reserved word here)
      and `kind` is its `type` string, kept
      open so that unrecognised kinds reach the fallback arm. An absent
      `options` or `fields` is the empty sequence: the compiler only ever
      tests `?.length`, which treats absent and empty alike. */
  datatype Field = Field(
    id: string,
    caption: string,
    kind: string,
    options: seq<string>,
    fields: seq<Field>)

  /** Stands for every message the validation library writes itself: a
      missing value, a value of the wrong type, a value outside an enum, a
      failed union, and the default message of its URL check. */
  const LibraryMessage: string := "Invalid input"

  /** A compiled validator node; each constructor is one of the library
      combinations the compiler emits. */
  datatype Validator =
    | AnyValue                                 // z.any()
    | Text                                     // z.string()
    | RequiredText(required: string)           // z.string().min(1, required)
    | NumberLike                               // z.number().or(z.string().transform(Number))
    | Link(required: string, invalid: string)  // z.string().min(1, required).refine(isUrlOrRelativeAnchor, invalid)
    | AbsoluteUrl(invalid: string)             // z.string().url(invalid)
    | OneOf(options: seq<string>)              // z.enum(options)
    | ArrayOf(element: Validator)              // z.array(element)
    | Record(shape: seq<(string, Validator)>)  // z.object(shape)

  function RequiredMessage(caption: string): string {
    caption + " es requerido"
  }

  function InvalidLinkMessage(caption: string): string {
    caption + " debe ser una URL válida (http(s), relativa o ancla #) "
  }

  function InvalidImageMessage(caption: string): string {
    caption + " debe ser una URL de imagen válida"
  }

  /** The shape a `media` field without child fields falls back to. */
  const MediaFallback: Validator :=
    Record([("type", Text), ("link", AbsoluteUrl(LibraryMessage))])

  /** The kinds with a dedicated arm in the compiler's switch. */
  predicate IsKnownKind(kind: string) {
    kind in ["string", "text", "number", "url", "image", "select", "list", "media"]
  }

  /** `fieldTypeToZod`. */
  function Compile(f: Field): Validator
    decreases f, 1
  {
    if f.kind == "string" || f.kind == "text" then RequiredText(RequiredMessage(f.caption))
    else if f.kind == "number" then NumberLike
    else if f.kind == "url" then Link(RequiredMessage(f.caption), InvalidLinkMessage(f.caption))
    else if f.kind == "image" then AbsoluteUrl(InvalidImageMessage(f.caption))
    else if f.kind == "select" then
      if |f.options| > 0 then OneOf(f.options) else Text
    else if f.kind == "list" then
      if |f.fields| > 0 then ArrayOf(Record(Shape(f.fields))) else ArrayOf(AnyValue)
    else if f.kind == "media" then
      if |f.fields| > 0 then Record(Shape(f.fields)) else MediaFallback
    else Text
  }

  /** The `(id, validator)` assignments in descriptor order. */
  function Assignments(fs: seq<Field>): (es: seq<(string, Validator)>)
    decreases fs, 0
    ensures |es| == |fs|
    ensures forall i :: 0 <= i < |fs| ==> es[i] == (fs[i].id, Compile(fs[i]))
  {
    seq(|fs|, i requires 0 <= i < |fs| => (fs[i].id, Compile(fs[i])))
  }

  /** The object built by the compiler's `reduce`: `acc[f.id] = compile(f)`
      for each descriptor in order. */
  function Shape(fs: seq<Field>): seq<(string, Validator)>
    decreases fs, 1
  {
    JsObject.FromAssignments(Assignments(fs))
  }

  /** `createZodSchemaFromFields`. */
  function CompileSchema(fs: seq<Field>): Validator {
    Record(Shape(fs))
  }

  function Ids(fs: seq<Field>): (ids: seq<string>)
    ensures |ids| == |fs|
    ensures forall i :: 0 <= i < |fs| ==> ids[i] == fs[i].id
  {
    seq(|fs|, i requires 0 <= i < |fs| => fs[i].id)
  }

  /** The compiled shape has exactly one entry per distinct id other than
      `__proto__`, in order of first appearance; the entry for an id holds
      the validator of the LAST descriptor carrying it; a `__proto__` field
      and ids that do not occur have no entry, so the library never checks
      them. */
  lemma {:induction false} ShapeSpec(fs: seq<Field>)
    ensures JsObject.Keys(Shape(fs)) == JsObject.Dedup(JsObject.OwnKeys(Ids(fs)))
    ensures JsObject.Distinct(JsObject.Keys(Shape(fs)))
    ensures JsObject.ProtoKey !in JsObject.Keys(Shape(fs))
    ensures forall i :: 0 <= i < |fs| && (forall j :: i < j < |fs| ==> fs[j].id != fs[i].id) ==>
              JsObject.Lookup(Shape(fs), fs[i].id)
              == if fs[i].id == JsObject.ProtoKey then Wrappers.None else Wrappers.Some(Compile(fs[i]))
    ensures forall k :: k !in Ids(fs) ==> JsObject.Lookup(Shape(fs), k).None?
  {
    var es := Assignments(fs);
    assert JsObject.Keys(es) == Ids(fs);
    JsObject.FromAssignmentsSpec(es);
    forall i | 0 <= i < |fs| && (forall j :: i < j < |fs| ==> fs[j].id != fs[i].id)
      ensures JsObject.Lookup(Shape(fs), fs[i].id)
              == if fs[i].id == JsObject.ProtoKey then Wrappers.None else Wrappers.Some(Compile(fs[i]))
    {
      ShapeEntry(fs, es, i);
    }
    forall k | k !in Ids(fs)
      ensures JsObject.Lookup(Shape(fs), k).None?
    {
      JsObject.UnassignedAbsent(es, k);
    }
  }

  lemma {:induction false} ShapeEntry(fs: seq<Field>, es: seq<(string, Validator)>, i: nat)
    requires es == Assignments(fs)
    requires i < |fs| && forall j :: i < j < |fs| ==> fs[j].id != fs[i].id
    ensures JsObject.Lookup(Shape(fs), fs[i].id)
            == if fs[i].id == JsObject.ProtoKey then Wrappers.None else Wrappers.Some(Compile(fs[i]))
  {
    assert es[i] == (fs[i].id, Compile(fs[i]));
    assert forall j :: i < j < |es| ==> es[j].0 != es[i].0;
    JsObject.LastAssignmentWins(es, i);
  }
}
