/** The image upload handler of `server/api/upload.ts`: it checks the first
    part of a multipart form, names the stored file after the current time
    and the original extension, and maps every failure to an HTTP error.
    Reading the form, the clock and writing the file are inputs: the form as
    read (or what reading threw), the millisecond timestamp, and what storing
    the file threw, if anything. */
module Upload {
  import opened Wrappers
  import opened JsText
  import opened HttpError

  /** One multipart part. `mimeType` is the part's `type`. */
  datatype Part = Part(filename: Option<string>, data: Option<seq<bv8>>, mimeType: Option<string>)

  /** A value thrown inside the handler: an error with a `statusCode`, or
      anything else. */
  datatype Thrown = WithStatus(error: HttpError) | Other

  /** What `readMultipartFormData` produced: the parts (`None` when there is
      no form), or what it threw. */
  datatype FormRead = Form(parts: Option<seq<Part>>) | ReadThrew(thrown: Thrown)

  /** The success body. */
  datatype Uploaded = Uploaded(success: bool, url: string, filename: string)

  const NoFileMessage: string := "No se recibió ningún archivo"
  const InvalidFileMessage: string := "Archivo inválido"
  const ImagesOnlyMessage: string := "Solo se permiten imágenes (JPEG, PNG, WebP, GIF)"
  const UploadFailedMessage: string := "Error al subir el archivo"
  const UploadsPrefix: string := "/uploads/"

  const AllowedTypes: seq<string> := ["image/jpeg", "image/jpg", "image/png", "image/webp", "image/gif"]

  /** A part that can be stored: a non-empty filename and some data. The
      data is a buffer, which is truthy even when empty. */
  predicate IsUsablePart(p: Part) {
    p.filename.Some? && p.filename.value != "" && p.data.Some?
  }

  predicate IsAllowedType(p: Part) {
    p.mimeType.Some? && p.mimeType.value in AllowedTypes
  }

  /** The stored name: the timestamp in decimal, a dot, and the text after
      the last dot of the original name. */
  function StoredName(timestamp: nat, original: string): (r: string)
    ensures AfterLast(r, '.') == AfterLast(original, '.')
    ensures var stem := |r| - |AfterLast(original, '.')| - 1;
            && 0 < stem && r[stem] == '.'
            && (forall k :: 0 <= k < stem ==> IsDigit(r[k]))
            && DecimalValue(r[..stem]) == timestamp
  {
    var ext := AfterLast(original, '.');
    var stem := NatToString(timestamp);
    DottedName(stem, ext);
    stem + "." + ext
  }

  /** Appending a dot and an extension free of dots keeps the stem in
      front, where it can be read back, and the extension behind the last
      dot. */
  lemma {:induction false} DottedName(stem: string, ext: string)
    requires forall k :: 0 <= k < |ext| ==> ext[k] != '.'
    ensures var r := stem + "." + ext;
            && |r| - |ext| - 1 == |stem|
            && r[..|stem|] == stem && r[|stem|] == '.'
            && (forall k :: 0 <= k < |stem| ==> r[k] == stem[k])
            && AfterLast(r, '.') == ext
  {
    var r := stem + "." + ext;
    assert r[..|stem|] == stem;
    AfterLastAppended(stem, '.', ext);
    assert stem + ['.'] + ext == r;
  }

  /** The checks before anything is stored, in the order the handler makes
      them; `None` when the first part passes them all. */
  function Check(parts: Option<seq<Part>>): (r: Option<HttpError>)
    ensures r.None? <==> parts.Some? && |parts.value| > 0
                         && IsUsablePart(parts.value[0]) && IsAllowedType(parts.value[0])
  {
    if parts.None? || |parts.value| == 0 then Some(HttpError(BadRequest, NoFileMessage))
    else if !IsUsablePart(parts.value[0]) then Some(HttpError(BadRequest, InvalidFileMessage))
    else if !IsAllowedType(parts.value[0]) then Some(HttpError(BadRequest, ImagesOnlyMessage))
    else None
  }

  /** The `catch` block: an error with a status code goes out unchanged,
      anything else becomes status 500. */
  function Rethrow(t: Thrown): (r: HttpError)
    ensures t.WithStatus? ==> r == t.error
    ensures t.Other? ==> r == HttpError(InternalServerError, UploadFailedMessage)
  {
    match t
    case WithStatus(e) => e
    case Other => HttpError(InternalServerError, UploadFailedMessage)
  }

  /** The handler. The checks' own errors carry a status code, so the
      `catch` block passes them on as they are. */
  function HandleUpload(form: FormRead, timestamp: nat, store: Option<Thrown>): (r: Result<Uploaded, HttpError>)
    ensures r.Success? ==> r.value.success && r.value.url == UploadsPrefix + r.value.filename
  {
    match form
    case ReadThrew(t) => Failure(Rethrow(t))
    case Form(parts) =>
      match Check(parts)
      case Some(e) => Failure(Rethrow(WithStatus(e)))
      case None =>
        var name := StoredName(timestamp, parts.value[0].filename.value);
        if store.Some? then Failure(Rethrow(store.value))
        else Success(Uploaded(true, UploadsPrefix + name, name))
  }

  /** The upload succeeds exactly when the form was read, its first part is
      a usable image and storing it threw nothing; the stored name keeps
      the original extension. */
  lemma {:induction false} UploadSucceeds(form: FormRead, timestamp: nat, store: Option<Thrown>)
    ensures HandleUpload(form, timestamp, store).Success?
        <==> && form.Form?
             && Check(form.parts).None?
             && store.None?
    ensures HandleUpload(form, timestamp, store).Success? ==>
              && HandleUpload(form, timestamp, store).value.filename
                 == StoredName(timestamp, form.parts.value[0].filename.value)
              && AfterLast(HandleUpload(form, timestamp, store).value.filename, '.')
                 == AfterLast(form.parts.value[0].filename.value, '.')
  {
  }

  /** The order of the checks: no parts is reported before anything else,
      an unusable first part before its type, and a type outside the five
      image types last. */
  lemma {:induction false} CheckOrder(parts: Option<seq<Part>>)
    ensures parts.None? || parts == Some([])
            ==> Check(parts) == Some(HttpError(BadRequest, NoFileMessage))
    ensures parts.Some? && |parts.value| > 0 && !IsUsablePart(parts.value[0])
            ==> Check(parts) == Some(HttpError(BadRequest, InvalidFileMessage))
    ensures parts.Some? && |parts.value| > 0 && IsUsablePart(parts.value[0]) && !IsAllowedType(parts.value[0])
            ==> Check(parts) == Some(HttpError(BadRequest, ImagesOnlyMessage))
  {
  }

  /** Validation errors leave the handler unchanged, and storage is never
      reached for a rejected form. */
  lemma {:induction false} RejectionsKeepTheirStatus(parts: Option<seq<Part>>, timestamp: nat, store: Option<Thrown>)
    requires Check(parts).Some?
    ensures HandleUpload(Form(parts), timestamp, store) == Failure(Check(parts).value)
    ensures Check(parts).value.statusCode == BadRequest
  {
  }

  /** Only the first part is examined: the parts after it never change the
      outcome. */
  lemma {:induction false} OnlyFirstPartMatters(first: Part, rest: seq<Part>, other: seq<Part>, timestamp: nat, store: Option<Thrown>)
    ensures HandleUpload(Form(Some([first] + rest)), timestamp, store)
         == HandleUpload(Form(Some([first] + other)), timestamp, store)
  {
    assert ([first] + rest)[0] == first == ([first] + other)[0];
  }
}
