/** What each field kind accepts once compiled: one lemma per arm of the
    compiler's switch, stated on the executor's outcome. */
module SchemaFieldRules {
  import opened Wrappers
  import opened JsText
  import opened Json
  import opened SchemaCompiler
  import opened SchemaExecutor
  import opened SchemaExecutorLaws
  import JsObject

  /** `string` and `text` fields accept exactly the non-empty strings,
      unchanged; the empty string is rejected with the field's "es
      requerido" message and nothing else; any other value is rejected with
      one library message. */
  lemma {:induction false} TextFieldRule(h: Host, f: Field, x: Value, path: Path)
    requires f.kind == "string" || f.kind == "text"
    ensures var r := Validate(h, Compile(f), x, path);
            && (r.Success? <==> x.Str? && |x.s| >= 1)
            && (r.Success? ==> r.value == x)
            && (x == Str("") ==> r == Failure([Issue(path, f.caption + " es requerido")]))
            && (!x.Str? ==> r == Failure([Issue(path, LibraryMessage)]))
  {
  }

  /** A `number` field keeps any number but NaN unchanged and accepts every
      string, replacing it with `Number(s)` (which may itself be NaN); no
      string is rejected. NaN and anything else is rejected with one
      issue. */
  lemma {:induction false} NumberFieldRule(h: Host, f: Field, x: Value, path: Path)
    requires f.kind == "number"
    ensures var r := Validate(h, Compile(f), x, path);
            && (x.Num? && !x.n.NaN? ==> r == Success(x))
            && (x.Str? ==> r == Success(Num(h.toNumber(x.s))))
            && (x == Num(NaN) || (!x.Num? && !x.Str?) ==> r == Failure([Issue(path, LibraryMessage)]))
  {
  }

  /** A `url` field accepts exactly the non-empty strings the URL predicate
      admits, unchanged. The empty string draws the "es requerido" message;
      a non-empty string the predicate refuses draws only the invalid-URL
      message. */
  lemma {:induction false} UrlFieldRule(h: Host, f: Field, x: Value, path: Path)
    requires f.kind == "url"
    ensures var r := Validate(h, Compile(f), x, path);
            && (r.Success? <==> x.Str? && |x.s| >= 1 && IsUrlOrRelativeAnchor(h, x.s))
            && (r.Success? ==> r.value == x)
            && (x == Str("") ==> Issue(path, f.caption + " es requerido") in IssuesOf(r))
            && (x.Str? && |x.s| >= 1 && !IsUrlOrRelativeAnchor(h, x.s) ==>
                  r == Failure([Issue(path, f.caption + " debe ser una URL válida (http(s), relativa o ancla #) ")]))
  {
    assert Compile(f) == Link(RequiredMessage(f.caption), InvalidLinkMessage(f.caption));
    LinkOutcome(h, RequiredMessage(f.caption), InvalidLinkMessage(f.caption), x, path);
  }

  /** The `Link` node on its own: a non-empty string passes exactly when the
      predicate admits it, the empty string draws the required message, and
      a refused non-empty string draws only the invalid message. */
  lemma {:induction false} LinkOutcome(h: Host, required: string, invalid: string, x: Value, path: Path)
    ensures var r := Validate(h, Link(required, invalid), x, path);
            && (r.Success? <==> x.Str? && |x.s| >= 1 && IsUrlOrRelativeAnchor(h, x.s))
            && (r.Success? ==> r.value == x)
            && (x == Str("") ==> Issue(path, required) in IssuesOf(r))
            && (x.Str? && |x.s| >= 1 && !IsUrlOrRelativeAnchor(h, x.s) ==>
                  r == Failure([Issue(path, invalid)]))
  {
    var r := Validate(h, Link(required, invalid), x, path);
    if x.Str? {
      var issues := LinkIssues(path, required, invalid, |x.s| >= 1, IsUrlOrRelativeAnchor(h, x.s));
      assert r == (if issues == [] then Success(x) else Failure(issues));
      if x == Str("") {
        assert issues[0] == Issue(path, required);
      }
    }
  }

  /** Trimming twice is trimming once. */
  lemma {:induction false} TrimIdempotent(s: string)
    ensures Trim(Trim(s)) == Trim(s)
  {
    var t := Trim(s);
    if |t| > 0 {
      TrimFrame("", t, "");
      assert "" + t + "" == t;
    }
  }

  /** The URL predicate ignores surrounding white space. */
  lemma {:induction false} UrlPredicateIgnoresPadding(h: Host, s: string)
    ensures IsUrlOrRelativeAnchor(h, s) == IsUrlOrRelativeAnchor(h, Trim(s))
  {
    TrimIdempotent(s);
  }

  /** Empty and white-space-only text is refused. */
  lemma {:induction false} UrlPredicateRefusesBlank(h: Host, s: string)
    requires forall k :: 0 <= k < |s| ==> IsWhiteSpace(s[k])
    ensures !IsUrlOrRelativeAnchor(h, s)
  {
    TrimBlank(s);
  }

  /** The character-by-character reading of the anchor and local-path
      tests agrees with `startsWith`. */
  lemma {:induction false} LocalFormsAreStartsWith(v: string)
    ensures IsAnchor(v) <==> StartsWith(v, "#")
    ensures IsLocalPath(v) <==> StartsWith(v, "/") || StartsWith(v, "./") || StartsWith(v, "../")
  {
    if |v| >= 1 {
      assert v[..1] == [v[0]];
    }
    if |v| >= 2 {
      assert v[..2] == [v[0], v[1]];
    }
    if |v| >= 3 {
      assert v[..3] == [v[0], v[1], v[2]];
    }
  }

  /** Anchors and rooted or dot-relative paths are accepted whatever the URL
      parser would say. */
  lemma {:induction false} UrlPredicateAcceptsLocalForms(h: Host, s: string)
    requires var v := Trim(s);
             StartsWith(v, "#") || StartsWith(v, "/") || StartsWith(v, "./") || StartsWith(v, "../")
    ensures IsUrlOrRelativeAnchor(h, s)
  {
    LocalFormsAreStartsWith(Trim(s));
  }

  /** Once the text parses as an absolute URL, only the `http:` and
      `https:` protocols decide acceptance; the relative-path pattern is not
      consulted, even when it would match. */
  lemma {:induction false} UrlPredicateParsedDecides(h: Host, s: string, protocol: string)
    requires var v := Trim(s);
             !StartsWith(v, "#") && !StartsWith(v, "/") && !StartsWith(v, "./") && !StartsWith(v, "../")
    requires |Trim(s)| > 0 && h.parseUrl(Trim(s)) == Some(protocol)
    ensures IsUrlOrRelativeAnchor(h, s) <==> protocol == "http:" || protocol == "https:"
  {
    LocalFormsAreStartsWith(Trim(s));
  }

  /** `javascript:alert(1)` is refused by any URL parser that reports the
      protocol the text starts with: if it parses, its protocol is not
      http(s); if it does not, the colon breaks the relative-path pattern. */
  lemma {:induction false} JavaScriptUrlRefused(h: Host)
    requires var p := h.parseUrl("javascript:alert(1)");
             p.Some? ==> StartsWith("javascript:alert(1)", p.value)
    ensures !IsUrlOrRelativeAnchor(h, "javascript:alert(1)")
  {
    var s := "javascript:alert(1)";
    assert s[0] == 'j' && s[|s| - 1] == ')' && s[10] == ':';
    ColonTextRefused(h, s, 10);
  }

  /** A text with non-white ends whose first character starts neither an
      anchor, a local path nor `http`, and which holds a colon after its
      first character, is refused by any URL parser that reports a protocol
      the text starts with. */
  lemma {:induction false} ColonTextRefused(h: Host, s: string, k: nat)
    requires 1 <= k < |s| && s[k] == ':'
    requires !IsWhiteSpace(s[0]) && !IsWhiteSpace(s[|s| - 1])
    requires s[0] != '#' && s[0] != '/' && s[0] != '.' && s[0] != 'h'
    requires var p := h.parseUrl(s); p.Some? ==> StartsWith(s, p.value)
    ensures !IsUrlOrRelativeAnchor(h, s)
  {
    AlreadyTrimmed(s);
    assert !IsAsciiAlphanumeric(s[k]) && !IsPathPunctuation(s[k]);
    match h.parseUrl(s)
    case Some(protocol) =>
      NotAnHttpPrefix(s, protocol);
    case None =>
  }

  /** A text with no white space at either end is its own trim. */
  lemma {:induction false} AlreadyTrimmed(s: string)
    requires |s| > 0 && !IsWhiteSpace(s[0]) && !IsWhiteSpace(s[|s| - 1])
    ensures Trim(s) == s
  {
    TrimFrame("", s, "");
    assert "" + s + "" == s;
  }

  lemma {:induction false} NotAnHttpPrefix(s: string, protocol: string)
    requires |s| > 0 && s[0] != 'h'
    requires StartsWith(s, protocol)
    ensures protocol != "http:" && protocol != "https:"
  {
  }

  /** An `image` field accepts exactly the strings the library's URL check
      admits, with no relative or anchor exception; a string it refuses
      draws the field's image message. */
  lemma {:induction false} ImageFieldRule(h: Host, f: Field, x: Value, path: Path)
    requires f.kind == "image"
    ensures var r := Validate(h, Compile(f), x, path);
            && (r.Success? <==> x.Str? && h.isUrl(x.s))
            && (r.Success? ==> r.value == x)
            && (x.Str? && !h.isUrl(x.s) ==>
                  r == Failure([Issue(path, f.caption + " debe ser una URL de imagen válida")]))
  {
  }

  /** A `select` with options accepts exactly its options; without options
      it accepts any string. */
  lemma {:induction false} SelectFieldRule(h: Host, f: Field, x: Value, path: Path)
    requires f.kind == "select"
    ensures var r := Validate(h, Compile(f), x, path);
            && (|f.options| > 0 ==> (r.Success? <==> x.Str? && x.s in f.options))
            && (|f.options| == 0 ==> (r.Success? <==> x.Str?))
            && (r.Success? ==> r.value == x)
  {
  }

  /** Any kind without an arm of its own (including `object` and
      `richtext`) accepts exactly the strings, unchanged. */
  lemma {:induction false} DefaultArmRule(h: Host, f: Field, x: Value, path: Path)
    requires !IsKnownKind(f.kind)
    ensures var r := Validate(h, Compile(f), x, path);
            && (r.Success? <==> x.Str?)
            && (r.Success? ==> r.value == x)
  {
  }

  /** `object` and `richtext` have no arm of their own. */
  lemma {:induction false} ObjectAndRichtextAreUnknown()
    ensures !IsKnownKind("object") && !IsKnownKind("richtext")
  {
  }

  /** A `list` without child fields accepts any array unchanged, and
      nothing that is not an array (not even a missing value). */
  lemma {:induction false} PlainListRule(h: Host, f: Field, x: Value, path: Path)
    requires f.kind == "list" && |f.fields| == 0
    ensures var r := Validate(h, Compile(f), x, path);
            && (r.Success? <==> x.Arr?)
            && (r.Success? ==> r.value == x)
  {
    if x.Arr? {
      var rs := ElementOutcomes(h, AnyValue, x.items, path);
      assert Values(rs) == x.items;
    }
  }

  /** A `list` with child fields validates every element against the
      object of its children's validators: the list is accepted iff every
      element is, and every issue is reported under an element index. */
  lemma {:induction false} ListFieldRule(h: Host, f: Field, items: seq<Value>, path: Path)
    requires f.kind == "list" && |f.fields| > 0
    ensures var r := Validate(h, Compile(f), Arr(items), path);
            var element := Record(Shape(f.fields));
            && (r.Success? <==> forall i :: 0 <= i < |items| ==> Validate(h, element, items[i], path + [Index(i)]).Success?)
            && (forall iss :: iss in IssuesOf(r) ==>
                  |iss.path| > |path| && iss.path[|path|].Index? && iss.path[|path|].index < |items|)
  {
    ArrayOutcome(h, Record(Shape(f.fields)), items, path);
  }

  /** A `media` field without child fields requires an object whose `type`
      is a string and whose `link` passes the library's URL check. */
  lemma {:induction false} PlainMediaRule(h: Host, f: Field, x: Value, path: Path)
    requires f.kind == "media" && |f.fields| == 0
    ensures Validate(h, Compile(f), x, path).Success? <==>
              && x.Obj?
              && Get(x, "type").Str?
              && Get(x, "link").Str? && h.isUrl(Get(x, "link").s)
  {
    if x.Obj? {
      var rs := PropertyOutcomes(h, MediaFallback.shape, x, path);
      assert rs[0] == Validate(h, Text, Get(x, "type"), path + [Key("type")]);
      assert rs[1] == Validate(h, AbsoluteUrl(LibraryMessage), Get(x, "link"), path + [Key("link")]);
    }
  }

  /** A `media` field with child fields is the object of its children's
      validators. */
  lemma {:induction false} MediaFieldRule(h: Host, f: Field, x: Value, path: Path)
    requires f.kind == "media" && |f.fields| > 0
    ensures Validate(h, Compile(f), x, path) == Validate(h, CompileSchema(f.fields), x, path)
  {
  }

  /** Children of a list are as strict as top-level fields: a required text
      child left empty in element `i` rejects the document with that child's
      "es requerido" message under the element's index. The exception is a
      child named `__proto__`, which never becomes a key of the element
      shape (see `ProtoFieldNeverChecked`). */
  lemma {:induction false} ListChildrenStayRequired(h: Host, f: Field, c: nat, items: seq<Value>, i: nat, path: Path)
    requires f.kind == "list" && c < |f.fields|
    requires f.fields[c].kind == "string"
    requires forall j :: c < j < |f.fields| ==> f.fields[j].id != f.fields[c].id
    requires i < |items| && items[i].Obj? && Get(items[i], f.fields[c].id) == Str("")
    ensures var r := Validate(h, Compile(f), Arr(items), path);
            f.fields[c].id != JsObject.ProtoKey ==>
              r.Failure? &&
              Issue(path + [Index(i), Key(f.fields[c].id)], f.fields[c].caption + " es requerido") in r.error
  {
    if f.fields[c].id == JsObject.ProtoKey {
      return;
    }
    var child := f.fields[c];
    var shape := Shape(f.fields);
    assert Compile(f) == ArrayOf(Record(shape));
    ShapeSpec(f.fields);
    LookupWitness(shape, child.id);
    var k :| 0 <= k < |shape| && shape[k].0 == child.id && shape[k].1 == Compile(child);
    var elementPath := path + [Index(i)];
    var iss := Issue(elementPath + [Key(child.id)], child.caption + " es requerido");
    TextFieldRule(h, child, Str(""), elementPath + [Key(child.id)]);
    RecordCollects(h, shape, items[i], elementPath, k, iss);
    ArrayCollects(h, Record(shape), items, path, i, iss);
    assert elementPath + [Key(child.id)] == path + [Index(i), Key(child.id)];
  }

  /** A field named `__proto__` is neither checked nor kept: no issue of
      the compiled schema lies below the key `__proto__`, and a parsed
      object never holds that key. */
  lemma {:induction false} ProtoFieldNeverChecked(h: Host, fs: seq<Field>, props: map<string, Value>, path: Path)
    ensures var r := Validate(h, CompileSchema(fs), Obj(props), path);
            && (forall iss :: iss in IssuesOf(r) ==>
                  |iss.path| > |path| && iss.path[|path|] != Key(JsObject.ProtoKey))
            && (r.Success? ==> r.value.Obj? && JsObject.ProtoKey !in r.value.props)
  {
    ShapeSpec(fs);
    RecordOutcome(h, Shape(fs), props, path);
  }

  /** A key that `Lookup` finds sits at some position with that value. */
  lemma {:induction false} LookupWitness<V>(p: seq<(string, V)>, k: string)
    requires JsObject.Lookup(p, k).Some?
    ensures exists j :: 0 <= j < |p| && p[j].0 == k && p[j].1 == JsObject.Lookup(p, k).value
  {
    var j := JsObject.IndexOfKey(p, k);
    assert p[j].0 == k;
  }

}
