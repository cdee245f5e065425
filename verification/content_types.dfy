/** The content-type listing of `server/api/cms/index.get.ts`: the entries of
    the CMS directory named `page.<name>.yaml` or `blog.<name>.yaml`, in
    listing order, each as its type and name. The directory listing is an
    input; a failed listing is `None`. */
module ContentTypes {
  import opened Wrappers
  import opened JsText
  import opened HttpError

  datatype ContentType = ContentType(kind: string, name: string)

  const YamlSuffix: string := ".yaml"

  /** The first capture group's alternatives. */
  predicate IsContentKind(t: string) {
    t == "page" || t == "blog"
  }

  /** `.` of a JavaScript regular expression without the `s` flag: any
      character but a line terminator. */
  predicate AllRegexDots(m: string) {
    forall k :: 0 <= k < |m| ==> !IsLineTerminator(m[k])
  }

  /** `file.match(/^(page|blog)\.(.+)\.yaml$/)`, reduced to the two groups.
      Both alternatives are four letters long, so the type is the first
      four characters and the name sits between the dot after them and the
      final `.yaml`. */
  function MatchEntry(file: string): (r: Option<ContentType>)
    ensures r.Some? ==> IsContentKind(r.value.kind)
    ensures r.Some? ==> EndsWith(file, YamlSuffix)
  {
    if |file| >= 11
       && IsContentKind(file[..4]) && file[4] == '.'
       && EndsWith(file, YamlSuffix)
       && AllRegexDots(file[5..|file| - 5])
    then Some(ContentType(file[..4], file[5..|file| - 5]))
    else None
  }

  /** An entry yields a content type exactly when its name is the type, a
      dot, a non-empty name without line breaks, and `.yaml`; the name is
      the whole middle, dots included. */
  lemma {:induction false} MatchEntrySpec(file: string, t: string, m: string)
    ensures MatchEntry(file) == Some(ContentType(t, m))
        <==> IsContentKind(t) && |m| > 0 && AllRegexDots(m) && file == t + "." + m + YamlSuffix
  {
    if IsContentKind(t) && |m| > 0 && AllRegexDots(m) && file == t + "." + m + YamlSuffix {
      assert file[..4] == t;
      assert file[4] == '.';
      assert file[5..|file| - 5] == m;
      assert file[|file| - 5..] == YamlSuffix;
    }
    if MatchEntry(file) == Some(ContentType(t, m)) {
      assert file == file[..4] + "." + file[5..|file| - 5] + file[|file| - 5..];
    }
  }

  /** `files.filter(file => file.endsWith('.yaml'))`. */
  function YamlFiles(files: seq<string>): (r: seq<string>)
    ensures forall f :: f in r <==> f in files && EndsWith(f, YamlSuffix)
  {
    if |files| == 0 then []
    else (if EndsWith(files[0], YamlSuffix) then [files[0]] else []) + YamlFiles(files[1..])
  }

  /** `.map(...)` to a match or `null`, then `.filter(Boolean)`. */
  function Matches(files: seq<string>): seq<ContentType> {
    if |files| == 0 then []
    else
      (match MatchEntry(files[0]) case Some(c) => [c] case None => [])
      + Matches(files[1..])
  }

  /** The listing the handler returns for a directory listing. */
  function ListContentTypes(files: seq<string>): seq<ContentType> {
    Matches(YamlFiles(files))
  }

  /** The `.yaml` filter in front of the match drops nothing the match
      would keep. */
  lemma {:induction false} YamlFilterRedundant(files: seq<string>)
    ensures ListContentTypes(files) == Matches(files)
  {
    if |files| > 0 {
      YamlFilterRedundant(files[1..]);
      assert files == [files[0]] + files[1..];
      if EndsWith(files[0], YamlSuffix) {
        assert YamlFiles(files) == [files[0]] + YamlFiles(files[1..]);
        assert YamlFiles(files)[1..] == YamlFiles(files[1..]);
      } else {
        assert YamlFiles(files) == YamlFiles(files[1..]);
      }
    }
  }

  /** Matching keeps listing order: the result for two listings one after
      the other is the two results one after the other. */
  lemma {:induction false} MatchesConcat(a: seq<string>, b: seq<string>)
    ensures Matches(a + b) == Matches(a) + Matches(b)
  {
    if |a| > 0 {
      assert (a + b)[0] == a[0];
      assert (a + b)[1..] == a[1..] + b;
      MatchesConcat(a[1..], b);
    } else {
      assert a + b == b;
    }
  }

  /** A content type is listed exactly when some entry matches to it. */
  lemma {:induction false} MatchesMembers(files: seq<string>, c: ContentType)
    ensures c in Matches(files) <==> exists i :: 0 <= i < |files| && MatchEntry(files[i]) == Some(c)
  {
    if |files| > 0 {
      MatchesMembers(files[1..], c);
      if MatchEntry(files[0]) == Some(c) {
        assert c in Matches(files);
      }
      if exists i :: 0 <= i < |files| && MatchEntry(files[i]) == Some(c) {
        var i :| 0 <= i < |files| && MatchEntry(files[i]) == Some(c);
        if i > 0 {
          assert MatchEntry(files[1..][i - 1]) == Some(c);
        }
      }
      if c in Matches(files[1..]) {
        var i :| 0 <= i < |files[1..]| && MatchEntry(files[1..][i]) == Some(c);
        assert MatchEntry(files[i + 1]) == Some(c);
      }
    }
  }

  /** What the handler lists: every entry's content type, in order, and
      nothing else; every listed type is `page` or `blog`. */
  lemma {:induction false} ListContentTypesSpec(files: seq<string>, c: ContentType)
    ensures c in ListContentTypes(files) <==> exists i :: 0 <= i < |files| && MatchEntry(files[i]) == Some(c)
    ensures c in ListContentTypes(files) ==> IsContentKind(c.kind)
    ensures forall a, b :: files == a + b ==> ListContentTypes(files) == Matches(a) + Matches(b)
  {
    YamlFilterRedundant(files);
    MatchesMembers(files, c);
    forall a, b | files == a + b
      ensures ListContentTypes(files) == Matches(a) + Matches(b)
    {
      MatchesConcat(a, b);
    }
  }

  const ListingErrorMessage: string := "Error reading CMS directory"

  /** The handler: a failed directory listing becomes status 500. */
  function ListHandler(listing: Option<seq<string>>): (r: Result<seq<ContentType>, HttpError>)
    ensures listing.None? <==> r == Failure(HttpError(InternalServerError, ListingErrorMessage))
    ensures listing.Some? ==> r == Success(ListContentTypes(listing.value))
  {
    match listing
    case None => Failure(HttpError(InternalServerError, ListingErrorMessage))
    case Some(files) => Success(ListContentTypes(files))
  }
}
