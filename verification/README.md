# sumaq-cms-nuxt core, modelled in Dafny

This project models the four pure parts of the Sumaq CMS (a Nuxt content
management system) and proves properties of them:

- **The schema validator** (`app/composables/useSchemaValidator.ts`).
  `fieldTypeToZod` turns a field descriptor into a validator. `createZodSchemaFromFields`
  builds the object validator of a field list. `validate` runs it and projects
  the issues to messages keyed by dotted path. `getFieldError` reads the first
  message at a path. The validation library is modelled as a small validator
  datatype (`SchemaCompiler.Validator`), one constructor per combination the
  compiler emits, with an executor (`SchemaExecutor.Validate`) that collects
  issues at their paths.
- **The static preview renderer** (`app/utils/buildPreviewHtml.ts`). A page record whose every
  part may be missing is rendered to one HTML string by template concatenation.
- **The content-type listing** (`server/api/cms/index.get.ts`). The entries of the CMS
  directory named `page.<name>.yaml` or `blog.<name>.yaml` are listed in order.
- **Upload validation** (`server/api/upload.ts`). The first multipart part is checked,
  the stored file is named after the timestamp and the original extension, and
  every failure becomes an HTTP error.

Modules:

| file | module | role |
|---|---|---|
| wrappers.dfy | `Wrappers` | `Option` (for `undefined`) and `Result` |
| jstext.dfy | `JsText` | `trim`, `startsWith`/`endsWith`, `join`, `String(n)`, `split('.').pop()` |
| jsobject.dfy | `JsObject` | objects built by `obj[k] = v` in insertion order |
| json.dfy | `Json` | JavaScript values as parsed from JSON or YAML |
| http_error.dfy | `HttpError` | `createError({statusCode, statusMessage})` |
| schema_compiler.dfy | `SchemaCompiler` | field descriptors, validators, `fieldTypeToZod`, `createZodSchemaFromFields` |
| schema_executor.dfy | `SchemaExecutor` | running a validator, the URL predicate |
| schema_executor_laws.dfy | `SchemaExecutorLaws` | how arrays and objects collect issues and values |
| schema_field_rules.dfy | `SchemaFieldRules` | what each field kind accepts |
| schema_errors.dfy | `SchemaErrors` | `validate`'s result, the issue projection, `getFieldError` |
| preview_html.dfy | `PreviewHtml` | `buildPreviewHtml` and its render helpers |
| content_types.dfy | `ContentTypes` | the CMS directory listing |
| upload.dfy | `Upload` | the upload handler |

Behaviour outside the code becomes an input:

- `new URL(s)`, the library's `.url()` check and `Number(s)` are the three
  functions of a `SchemaExecutor.Host` value.
- The directory listing, the multipart parts, `Date.now()` and the outcome of
  writing the file are parameters of the handlers.

## Model

| member | source | states |
|---|---|---|
| SchemaCompiler.ShapeSpec | app/composables/useSchemaValidator.ts:96-103 | the compiled object has one key per distinct field id other than `__proto__`, in order of first appearance; the last descriptor with an id decides its validator; `__proto__` and ids of no field are absent |
| JsObject.FromAssignmentsSpec | app/composables/useSchemaValidator.ts:97-100 | assigning pairs into `{}` in order keeps each distinct key other than `__proto__` once, in first-assignment order, holding its last assigned value; `__proto__` never becomes an own key |
| JsObject.LastAssignmentWins | app/composables/useSchemaValidator.ts:98 | an assignment no later one overrides determines the key's value, unless the key is `__proto__`, which stays absent |
| JsObject.UnassignedAbsent | app/composables/useSchemaValidator.ts:97-100 | a key never assigned is not a property of the built object |
| JsObject.Assign | app/composables/useSchemaValidator.ts:98 | `obj[k] = v` keeps key order (appending a new key), makes `k` read `v`, and changes no other key; `obj.__proto__ = v` leaves the own keys as they were |
| JsObject.Dedup | app/composables/useSchemaValidator.ts:97-100 | the key list without repeats has the same members and no duplicates |
| SchemaFieldRules.TextFieldRule | app/composables/useSchemaValidator.ts:21-25 | `string`/`text` accept exactly the non-empty strings, unchanged; `""` gives only "<label> es requerido"; a non-string gives one library issue |
| SchemaFieldRules.NumberFieldRule | app/composables/useSchemaValidator.ts:27-28 | `number` keeps any non-NaN number, turns every string into `Number(s)`, and rejects NaN and everything else with one issue |
| SchemaFieldRules.UrlFieldRule | app/composables/useSchemaValidator.ts:45-48 | `url` accepts exactly the non-empty strings the URL predicate admits; `""` draws "es requerido"; a refused non-empty string draws only the invalid-URL message |
| SchemaFieldRules.UrlPredicateIgnoresPadding | app/composables/useSchemaValidator.ts:31-33 | the URL predicate judges the trimmed text, so padding never changes the verdict |
| SchemaFieldRules.UrlPredicateRefusesBlank | app/composables/useSchemaValidator.ts:32 | empty and white-space-only text is refused |
| SchemaFieldRules.UrlPredicateAcceptsLocalForms | app/composables/useSchemaValidator.ts:34-35 | text starting with `#`, `/`, `./` or `../` is accepted whatever the URL parser says |
| SchemaFieldRules.UrlPredicateParsedDecides | app/composables/useSchemaValidator.ts:36-38 | once the text parses as a URL, it is accepted iff the protocol is `http:` or `https:`; the relative-path pattern is not consulted |
| SchemaFieldRules.JavaScriptUrlRefused | app/composables/useSchemaValidator.ts:31-43 | `javascript:alert(1)` is refused by any parser that reports the protocol the text starts with |
| SchemaFieldRules.ColonTextRefused | app/composables/useSchemaValidator.ts:31-43 | a trimmed text that is no anchor, no local path and no `http…` text, with a colon after its first character, is refused by any parser that reports a protocol the text starts with |
| SchemaFieldRules.LocalFormsAreStartsWith | app/composables/useSchemaValidator.ts:34-35 | the anchor and local-path tests agree with the four `startsWith` checks |
| SchemaFieldRules.LinkOutcome | app/composables/useSchemaValidator.ts:45-48 | a `Link` node accepts exactly the non-empty strings the predicate admits; the empty string draws the required message; a refused non-empty string draws only the invalid message |
| SchemaExecutor.LinkIssues | app/composables/useSchemaValidator.ts:45-48 | both checks of a `url` field run: no issue iff non-empty and admitted, the required message first when empty, the invalid message last when refused, all at the field's path |
| SchemaFieldRules.TrimIdempotent | app/composables/useSchemaValidator.ts:32-33 | trimming twice is trimming once |
| SchemaFieldRules.ImageFieldRule | app/composables/useSchemaValidator.ts:51-52 | `image` accepts exactly the strings the library URL check admits, with no relative or anchor exception; a refused string draws the image message |
| SchemaFieldRules.SelectFieldRule | app/composables/useSchemaValidator.ts:54-58 | `select` with options accepts exactly its options; without options, any string |
| SchemaFieldRules.DefaultArmRule | app/composables/useSchemaValidator.ts:88-89 | a kind without its own arm accepts exactly the strings, unchanged |
| SchemaFieldRules.ObjectAndRichtextAreUnknown | app/composables/useSchemaValidator.ts:20-89 | `object` and `richtext` have no arm, so they fall to the string default |
| SchemaFieldRules.PlainListRule | app/composables/useSchemaValidator.ts:71 | a `list` without child fields accepts exactly the arrays, unchanged; a missing value is rejected |
| SchemaFieldRules.ListFieldRule | app/composables/useSchemaValidator.ts:62-69 | a `list` with child fields accepts an array iff every element passes the children's object, and every issue lies under an element index |
| SchemaFieldRules.ListChildrenStayRequired | app/composables/useSchemaValidator.ts:62-69 | a required text child (id other than `__proto__`) left empty in element `i` rejects the document with "es requerido" at `path.i.id` |
| SchemaFieldRules.ProtoFieldNeverChecked | app/composables/useSchemaValidator.ts:96-103 | a field with id `__proto__` is never validated: no issue lies under that key, and an accepted object has no such key |
| SchemaFieldRules.PlainMediaRule | app/composables/useSchemaValidator.ts:85 | `media` without child fields needs an object with a string `type` and a `link` passing the library URL check |
| SchemaFieldRules.MediaFieldRule | app/composables/useSchemaValidator.ts:76-83 | `media` with child fields validates like the object compiled from its children |
| SchemaExecutorLaws.ArrayOutcome | app/composables/useSchemaValidator.ts:69 | an array is accepted iff every element is, the result keeps the parsed elements in order, and issues sit under an in-range index |
| SchemaExecutorLaws.ArrayCollects | app/composables/useSchemaValidator.ts:69 | an element's issue is an issue of the array |
| SchemaExecutorLaws.RecordOutcome | app/composables/useSchemaValidator.ts:102 | an object is accepted iff every declared key is; the result maps declared keys to parsed values, drops undeclared keys, and issues sit under a declared key |
| SchemaExecutorLaws.RecordCollects | app/composables/useSchemaValidator.ts:102 | a declared key's issue is an issue of the object |
| SchemaExecutorLaws.OutputSpec | app/composables/useSchemaValidator.ts:102 | the parsed object holds exactly the declared keys that are present in the input or parse to a defined value |
| SchemaExecutorLaws.RejectionHasIssues | app/composables/useSchemaValidator.ts:121-127 | every rejection carries at least one issue |
| SchemaExecutorLaws.IssuesExtendPath | app/composables/useSchemaValidator.ts:127-128 | every issue path extends the path being validated |
| SchemaExecutorLaws.AllIssuesMembers | app/composables/useSchemaValidator.ts:127-133 | the collected issues are exactly those some child reported |
| SchemaExecutorLaws.AllIssuesBlock | app/composables/useSchemaValidator.ts:127-133 | each child's issues appear as one block, in child order, with nothing dropped |
| SchemaErrors.ProjectSpec | app/composables/useSchemaValidator.ts:126-133 | the error map has one bucket per distinct dotted path, holding that path's messages in issue order |
| SchemaErrors.ProjectKeepsEveryMessage | app/composables/useSchemaValidator.ts:126-133 | summed over the buckets, there are exactly as many messages as issues |
| SchemaErrors.MessagesAtFirst | app/composables/useSchemaValidator.ts:129-132 | the first message in a bucket is that of the first issue at the path |
| SchemaErrors.Summarize | app/composables/useSchemaValidator.ts:119-137 | success exactly when parsing returned, with its value and no errors; issues become the projection; anything else becomes `{general: ['Error desconocido']}` |
| SchemaErrors.ValidateDocumentSpec | app/composables/useSchemaValidator.ts:108-137 | validation succeeds iff the validator accepts; otherwise `errors` is the non-empty projection of the issues |
| SchemaErrors.FieldError | app/composables/useSchemaValidator.ts:140-143 | the first message at the path, or nothing when there are no errors, no bucket, or an empty first message |
| SchemaErrors.FieldErrorIsFirstIssue | app/composables/useSchemaValidator.ts:126-143 | after projection, a path's error is the first issue's message at that path, and nothing where no issue is |
| SchemaErrors.ProjectAsWrittenSpec | app/composables/useSchemaValidator.ts:126-133 | the projection on `{}` throws iff some path is an inherited property name, and otherwise equals the intended projection |
| SchemaErrors.ConstructorPathThrows | app/composables/useSchemaValidator.ts:129-132 | an issue at path `constructor` makes the projection throw |
| SchemaErrors.ValidateDocumentAsWrittenSpec | app/composables/useSchemaValidator.ts:108-137 | the source's `validate` resolves with the corrected report iff it accepts or no issue path is an inherited property name, and rejects otherwise |
| JsText.Trim | app/composables/useSchemaValidator.ts:32-33 | the trimmed text is no longer and starts and ends with non-white space |
| JsText.TrimBlank | app/composables/useSchemaValidator.ts:32-34 | the trimmed text is empty exactly when the text was all white space |
| JsText.TrimFrame | app/utils/buildPreviewHtml.ts:139-172 | trimming removes exactly the white-space frame around a text with non-white ends |
| JsText.Join | app/composables/useSchemaValidator.ts:128 | joining no parts gives `""` and one part gives that part |
| JsText.JoinEnds | app/composables/useSchemaValidator.ts:128 | a join of several parts starts with the first part and ends with the separator and the last part |
| PreviewHtml.ToText | app/utils/buildPreviewHtml.ts:51 | a missing text is `""`, a present one is kept |
| PreviewHtml.Href | app/utils/buildPreviewHtml.ts:54 | a missing link is `#`, a present one is kept |
| PreviewHtml.Anchor | app/utils/buildPreviewHtml.ts:53-55 | an anchor starts with `<a href="link"` and ends with `>label</a>` |
| PreviewHtml.RenderLinks | app/utils/buildPreviewHtml.ts:53-55 | the links render to `""` iff there are none |
| JsText.MapJoinConcat | app/utils/buildPreviewHtml.ts:109-111 | `map(...).join('')` turns a concatenation of lists into the concatenation of their outputs |
| JsText.MapJoinSingle | app/utils/buildPreviewHtml.ts:109-111 | `map(...).join('')` of one element is exactly its rendering |
| PreviewHtml.RenderLinksConcat | app/utils/buildPreviewHtml.ts:109-111 | rendering maps list concatenation to string concatenation, links in order |
| PreviewHtml.RenderLinksSingle | app/utils/buildPreviewHtml.ts:109-111 | a single link renders as exactly its anchor |
| PreviewHtml.RenderWelcome | app/utils/buildPreviewHtml.ts:57-67 | the welcome section is `""` iff it is absent |
| PreviewHtml.FeatureIcon | app/utils/buildPreviewHtml.ts:75 | a missing or empty icon becomes the pin, any other is kept |
| PreviewHtml.FeatureBlockShowsIcon | app/utils/buildPreviewHtml.ts:73-81 | a feature block opens with the icon, with its fallback |
| PreviewHtml.RenderFeatures | app/utils/buildPreviewHtml.ts:72-82 | the features render to `""` iff there are none |
| PreviewHtml.RenderFeaturesConcat | app/utils/buildPreviewHtml.ts:72-82 | features render in order: a concatenation renders as the concatenation of the renderings |
| PreviewHtml.RenderFeaturesSingle | app/utils/buildPreviewHtml.ts:72-82 | a single feature renders as exactly its block |
| PreviewHtml.RenderAboutMedia | app/utils/buildPreviewHtml.ts:69-92 | the media block is `""` iff the media is absent |
| PreviewHtml.AbsentFeaturesRenderNone | app/utils/buildPreviewHtml.ts:72 | media without a feature list renders like media with an empty one |
| PreviewHtml.RenderAbout | app/utils/buildPreviewHtml.ts:94-107 | the about section is `""` iff it is absent |
| PreviewHtml.RenderFooter | app/utils/buildPreviewHtml.ts:113-129 | the footer is always printed, and the link container follows its head iff there is a legal link |
| PreviewHtml.FooterFrame | app/utils/buildPreviewHtml.ts:120-126 | the link container is present exactly when the rendered links are non-empty |
| PreviewHtml.FooterCopy | app/utils/buildPreviewHtml.ts:119 | the copyright text of a missing footer or copy is `""` |
| PreviewHtml.FooterLegal | app/utils/buildPreviewHtml.ts:114 | the legal links of a missing footer or list are none |
| PreviewHtml.PageTitle | app/utils/buildPreviewHtml.ts:145 | the title is the page's own when non-empty, else `Preview` |
| PreviewHtml.Logo | app/utils/buildPreviewHtml.ts:157 | the logo image is printed iff the logo is a non-empty string, and shows that logo |
| PreviewHtml.BrandName | app/utils/buildPreviewHtml.ts:158 | the brand text is the brand's own name when non-empty, else `Brand` |
| PreviewHtml.BrandLink | app/utils/buildPreviewHtml.ts:158 | the brand link points at the brand link or `#` and shows the brand text |
| PreviewHtml.PageShowsTitle | app/utils/buildPreviewHtml.ts:139-145 | the page opens with the document type and the head up to the title with its fallback |
| PreviewHtml.PageShowsBrand | app/utils/buildPreviewHtml.ts:156-158 | after the head, the page prints the logo, if any, then the brand link |
| PreviewHtml.PageEndsWithFooter | app/utils/buildPreviewHtml.ts:168-171 | the page always ends with the footer and the closing tags |
| PreviewHtml.PageIsTrimmed | app/utils/buildPreviewHtml.ts:139-172 | `.trim()` removes exactly the template's leading newline and trailing indent |
| PreviewHtml.BuildPreviewHtml | app/utils/buildPreviewHtml.ts:131-173 | the result starts with `<!DOCTYPE html>` and ends with `</html>` |
| ContentTypes.MatchEntry | server/api/cms/index.get.ts:13-19 | a match has type `page` or `blog` and its name ends in `.yaml` |
| ContentTypes.MatchEntrySpec | server/api/cms/index.get.ts:13-19 | an entry matches as `(t, m)` iff it is `t.m.yaml` with `t` in {page, blog} and `m` non-empty without line breaks |
| ContentTypes.YamlFiles | server/api/cms/index.get.ts:9 | the filter keeps exactly the entries ending in `.yaml` |
| ContentTypes.YamlFilterRedundant | server/api/cms/index.get.ts:9-14 | the `.yaml` filter drops nothing the match would keep |
| ContentTypes.MatchesConcat | server/api/cms/index.get.ts:11-21 | matching keeps listing order |
| ContentTypes.MatchesMembers | server/api/cms/index.get.ts:11-21 | a content type is listed iff some entry matches to it |
| ContentTypes.ListContentTypesSpec | server/api/cms/index.get.ts:8-23 | the handler lists exactly the matching entries, in order, each of type page or blog |
| ContentTypes.ListHandler | server/api/cms/index.get.ts:7-29 | a failed listing becomes 500 "Error reading CMS directory", and a listing succeeds with its content types |
| Upload.Check | server/api/upload.ts:9-32 | the checks pass iff there is a first part with a non-empty filename, data and an allowed image type |
| Upload.CheckOrder | server/api/upload.ts:9-32 | no file is reported first, then an invalid file, then a disallowed type |
| Upload.OnlyFirstPartMatters | server/api/upload.ts:16 | the parts after the first never change the outcome |
| Upload.StoredName | server/api/upload.ts:34-37 | the stored name is decimal digits reading back as the timestamp, a dot, and the original's text after its last dot |
| Upload.Rethrow | server/api/upload.ts:55-64 | errors with a status code pass unchanged, anything else becomes 500 "Error al subir el archivo" |
| Upload.HandleUpload | server/api/upload.ts:50-54 | a success reports `success: true` and the URL `/uploads/` plus the stored name |
| Upload.UploadSucceeds | server/api/upload.ts:9-54 | the upload succeeds iff the form was read, the checks pass and storing threw nothing, and the stored name keeps the extension |
| Upload.RejectionsKeepTheirStatus | server/api/upload.ts:9-58 | a failed check ends the request with its own 400 error, and storage is never reached |
| JsText.NatToString | server/api/upload.ts:37 | the timestamp is written in decimal digits with no leading zero and reads back as itself |
| JsText.AfterLast | server/api/upload.ts:36 | `split('.').pop()` is the suffix after the last dot and holds no dot |
| JsText.AfterLastAppended | server/api/upload.ts:35-37 | the extension of `stem + "." + ext` is `ext` when `ext` has no dot |
| JsText.AfterLastEdges | server/api/upload.ts:36 | a name without a dot is its own extension, and a name ending in a dot has an empty one |
| SchemaCompiler.Compile | app/composables/useSchemaValidator.ts:19-91 | definition; see SchemaFieldRules.TextFieldRule and the other field rules |
| SchemaCompiler.CompileSchema | app/composables/useSchemaValidator.ts:96-103 | definition; see SchemaCompiler.ShapeSpec and SchemaFieldRules.ProtoFieldNeverChecked |
| SchemaExecutor.Validate | app/composables/useSchemaValidator.ts:20-103 | definition; see SchemaExecutorLaws.ArrayOutcome, SchemaExecutorLaws.RecordOutcome and SchemaExecutorLaws.IssuesExtendPath |
| SchemaExecutor.IsUrlOrRelativeAnchor | app/composables/useSchemaValidator.ts:31-43 | definition; see SchemaFieldRules.UrlPredicateAcceptsLocalForms and SchemaFieldRules.UrlPredicateParsedDecides |
| SchemaErrors.Project | app/composables/useSchemaValidator.ts:126-133 | definition; see SchemaErrors.ProjectSpec |
| SchemaErrors.ProjectAsWritten | app/composables/useSchemaValidator.ts:126-133 | definition; see SchemaErrors.ProjectAsWrittenSpec |
| SchemaErrors.ValidateDocument | app/composables/useSchemaValidator.ts:119-137 | definition; see SchemaErrors.ValidateDocumentSpec |
| SchemaErrors.ValidateDocumentAsWritten | app/composables/useSchemaValidator.ts:119-137 | definition; see SchemaErrors.ValidateDocumentAsWrittenSpec |
| ContentTypes.ListContentTypes | server/api/cms/index.get.ts:8-23 | definition; see ContentTypes.ListContentTypesSpec |
| PreviewHtml.RenderNavigation | app/utils/buildPreviewHtml.ts:53-55 | definition; see PreviewHtml.RenderLinks and PreviewHtml.RenderLinksConcat |
| PreviewHtml.RenderFooterLinks | app/utils/buildPreviewHtml.ts:109-111 | definition; see PreviewHtml.RenderLinksSingle and PreviewHtml.FooterFrame |
| PreviewHtml.RenderFeature | app/utils/buildPreviewHtml.ts:73-81 | definition; see PreviewHtml.FeatureBlockShowsIcon |
| PreviewHtml.Page | app/utils/buildPreviewHtml.ts:139-172 | definition; see PreviewHtml.PageShowsTitle, PreviewHtml.PageShowsBrand and PreviewHtml.PageEndsWithFooter |

## Left out

- Input and output are not modelled: file reads and writes, `mkdir`, `readMultipartFormData`, `process.cwd`, `join` and `console.error`. The directory listing, the parts, the timestamp and the storing outcome are inputs instead. The path the file is written to is not modelled.
- `validate` is `async`. The model treats parsing as a synchronous total function.
- `new URL`, the validation library's `.url()` check and `Number(s)` are host functions. Their behaviour, floating-point parsing included, is not modelled.
- Messages the validation library writes itself (missing value, wrong type, not in the enum, failed union, default `.url()` text) are all one constant, `SchemaCompiler.LibraryMessage`. Their real texts depend on the library version.
- Three behaviours of the validation library are fixed as modelling choices, each stated by the member named:
  - an object drops undeclared keys (`SchemaExecutorLaws.RecordOutcome`);
  - an object leaves out a declared key that is missing from the input and parses to `undefined` (`SchemaExecutorLaws.OutputSpec`);
  - on a `url` field both the non-empty check and the refinement run, and on `""` the required message comes before the invalid one (`SchemaExecutor.LinkIssues`).
- SchemaFieldRules.NumberFieldRule: infinite numbers are accepted. Whether the library's `number` accepts `Infinity` depends on its version, which is not pinned here.
- JsObject.Assign: keeps insertion order for every key, while JavaScript lists integer-like property names (`"0"`, `"12"`) first, in ascending order. Assigning a non-object to `__proto__` is not modelled either: the only values assigned are validators, which are objects.
- JsObject.FromAssignmentsSpec: the key order it states is insertion order; for integer-like field ids JavaScript's order differs, as for `JsObject.Assign`.
- SchemaCompiler.ShapeSpec: the key order it states is insertion order; with integer-like field ids the library would visit those fields first, so issues could come out in another order. Bucket order in `errors` is not modelled: it is a map.
- SchemaFieldRules.ListChildrenStayRequired: promises nothing for a child whose id is `__proto__`, because such a child gets no key and is never checked (`SchemaFieldRules.ProtoFieldNeverChecked`).
- SchemaErrors.Summarize: projects issues with the corrected projection `SchemaErrors.Project`. For an issue path that is an inherited property name of `{}` the source's projection throws instead; `SchemaErrors.ValidateDocumentAsWritten` models that (see Findings).
- SchemaErrors.ValidateDocumentSpec: states the corrected `validate`. The source's promise rejects when an issue path is an inherited property name; `SchemaErrors.ValidateDocumentAsWrittenSpec` states exactly when.
- Strings are sequences of Unicode scalar values, not UTF-16 code units. No modelled check depends on the difference beyond emptiness.
- `useSchemaValidator` also accepts an arbitrary pre-built library schema. Only the validators this compiler emits are modelled (`SchemaErrors.Compiled`).
- The `SchemaSection` type is not used by any modelled code.
- The preview output is not claimed to be well-formed or escaped HTML: the code inserts every text verbatim.
- `server/api/page.ts`, `app/composables/usePageSchema.ts` (YAML parsing, UI state), `app/composables/useContentTypes.ts` (a fetch wrapper) and the other CMS routes are not part of this model.
- Three behaviours a reader might expect are absent from this code, and the model follows the code:
  - Required-ness is not relaxed inside lists, objects or media (see `SchemaFieldRules.ListChildrenStayRequired`).
  - A missing list is rejected, not defaulted to `[]` (see `SchemaFieldRules.PlainListRule`).
  - `select` options come only as a list of strings, with no structured or multiple-choice form; `object` and `richtext` fall to the plain-string default arm.

## Findings

| source | as written | input that shows it | evidently intended | confidence | as-written member | corrected member |
|---|---|---|---|---|---|---|
| app/composables/useSchemaValidator.ts:126-133 | the issue buckets live in `{}`, so `errors[path]` also finds properties inherited from `Object.prototype`; for such a path the bucket is never created and `.push` on the inherited value throws a `TypeError` out of `validate` | a field with id `constructor` whose value is invalid, giving one issue at path `constructor` | a bucket `constructor` holding that issue's message, like any other path | medium, not executed | SchemaErrors.ProjectAsWritten, SchemaErrors.ConstructorPathThrows, SchemaErrors.ValidateDocumentAsWrittenSpec | SchemaErrors.Project, SchemaErrors.ProjectSpec |
