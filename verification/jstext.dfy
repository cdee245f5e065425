/** The handful of ECMAScript string operations the modelled handlers use:
    `trim`, `startsWith`/`endsWith`, `Array.prototype.join`, number-to-decimal
    conversion and `split('.').pop()`. Strings are sequences of Unicode scalar
    values (JavaScript strings are UTF-16; no modelled check depends on the
    difference beyond "non-empty"). */
module JsText {

  /** LineTerminator code points of ECMAScript (section 12.3 of ECMA-262). */
  predicate IsLineTerminator(c: char) {
    c == '\n' || c == '\r' || c == '\U{2028}' || c == '\U{2029}'
  }

  /** The characters `String.prototype.trim` removes: ECMAScript WhiteSpace
      (tab, vertical tab, form feed, space, no-break space, byte order mark and
      the Unicode space separators) plus the line terminators. */
  predicate IsWhiteSpace(c: char) {
    || c == '\t' || c == '\U{000B}' || c == '\U{000C}' || c == ' '
    || c == '\U{00A0}' || c == '\U{FEFF}' || c == '\U{1680}'
    || ('\U{2000}' <= c <= '\U{200A}')
    || c == '\U{202F}' || c == '\U{205F}' || c == '\U{3000}'
    || IsLineTerminator(c)
  }

  predicate StartsWith(s: string, prefix: string) {
    |prefix| <= |s| && s[..|prefix|] == prefix
  }

  predicate EndsWith(s: string, suffix: string) {
    |suffix| <= |s| && s[|s| - |suffix|..] == suffix
  }

  /** Removes leading white space: the result is the longest suffix of `s`
      that does not start with white space. */
  function TrimStart(s: string): (r: string)
    ensures |r| <= |s| && r == s[|s| - |r|..]
    ensures forall k :: 0 <= k < |s| - |r| ==> IsWhiteSpace(s[k])
    ensures |r| > 0 ==> !IsWhiteSpace(r[0])
  {
    if |s| > 0 && IsWhiteSpace(s[0]) then TrimStart(s[1..]) else s
  }

  /** Removes trailing white space: the result is the longest prefix of `s`
      that does not end with white space. */
  function TrimEnd(s: string): (r: string)
    ensures |r| <= |s| && r == s[..|r|]
    ensures forall k :: |r| <= k < |s| ==> IsWhiteSpace(s[k])
    ensures |r| > 0 ==> !IsWhiteSpace(r[|r| - 1])
  {
    if |s| > 0 && IsWhiteSpace(s[|s| - 1]) then TrimEnd(s[..|s| - 1]) else s
  }

  /** `String.prototype.trim`. */
  function Trim(s: string): (r: string)
    ensures |r| <= |s|
    ensures |r| > 0 ==> !IsWhiteSpace(r[0]) && !IsWhiteSpace(r[|r| - 1])
  {
    var t := TrimStart(s);
    var r := TrimEnd(t);
    r
  }

  /** Trimming leaves nothing exactly when the text is all white space. */
  lemma {:induction false} TrimBlank(s: string)
    ensures Trim(s) == "" <==> forall k :: 0 <= k < |s| ==> IsWhiteSpace(s[k])
  {
    var t := TrimStart(s);
    if t != "" {
      assert !IsWhiteSpace(s[|s| - |t|]);
    }
  }

  /** Trimming a string that starts with one white-space character followed
      by a non-white-space one, and ends with a non-white-space character
      followed only by white space, drops exactly those outer characters. */
  lemma {:induction false} TrimFrame(lead: string, body: string, trail: string)
    requires forall k :: 0 <= k < |lead| ==> IsWhiteSpace(lead[k])
    requires forall k :: 0 <= k < |trail| ==> IsWhiteSpace(trail[k])
    requires |body| > 0 && !IsWhiteSpace(body[0]) && !IsWhiteSpace(body[|body| - 1])
    ensures Trim(lead + body + trail) == body
  {
    var s := lead + body + trail;
    TrimStartSkips(lead, body + trail);
    assert s == lead + (body + trail);
    TrimEndSkips(body, trail);
  }

  lemma {:induction false} TrimStartSkips(lead: string, rest: string)
    requires forall k :: 0 <= k < |lead| ==> IsWhiteSpace(lead[k])
    requires |rest| > 0 && !IsWhiteSpace(rest[0])
    ensures TrimStart(lead + rest) == rest
  {
    if |lead| > 0 {
      assert (lead + rest)[1..] == lead[1..] + rest;
      TrimStartSkips(lead[1..], rest);
    } else {
      assert lead + rest == rest;
    }
  }

  lemma {:induction false} TrimEndSkips(body: string, trail: string)
    requires forall k :: 0 <= k < |trail| ==> IsWhiteSpace(trail[k])
    requires |body| > 0 && !IsWhiteSpace(body[|body| - 1])
    ensures TrimEnd(body + trail) == body
  {
    if |trail| > 0 {
      var t := trail[..|trail| - 1];
      assert (body + trail)[..|body + trail| - 1] == body + t;
      TrimEndSkips(body, t);
    } else {
      assert body + trail == body;
    }
  }

  /** `xs.map(render).join('')`: the renderings one after the other. */
  function MapJoin<T>(xs: seq<T>, render: T -> string): (r: string)
    ensures |xs| == 0 ==> r == ""
  {
    if |xs| == 0 then "" else render(xs[0]) + MapJoin(xs[1..], render)
  }

  /** Mapping and joining turns a concatenation of lists into the
      concatenation of their outputs. */
  lemma {:induction false} MapJoinConcat<T>(a: seq<T>, b: seq<T>, render: T -> string)
    ensures MapJoin(a + b, render) == MapJoin(a, render) + MapJoin(b, render)
  {
    if |a| > 0 {
      assert (a + b)[0] == a[0];
      assert (a + b)[1..] == a[1..] + b;
      MapJoinConcat(a[1..], b, render);
      var x, y, z := render(a[0]), MapJoin(a[1..], render), MapJoin(b, render);
      assert x + (y + z) == x + y + z;
    } else {
      assert a + b == b;
    }
  }

  /** One element yields exactly its own rendering. */
  lemma {:induction false} MapJoinSingle<T>(x: T, render: T -> string)
    ensures MapJoin([x], render) == render(x)
  {
    assert [x][1..] == [];
    var y := render(x);
    assert y + "" == y;
  }

  /** `Array.prototype.join`: the parts separated by `sep`; `""` for no parts. */
  function Join(parts: seq<string>, sep: string): (r: string)
    ensures |parts| == 0 ==> r == ""
    ensures |parts| == 1 ==> r == parts[0]
  {
    if |parts| == 0 then ""
    else if |parts| == 1 then parts[0]
    else Join(parts[..|parts| - 1], sep) + sep + parts[|parts| - 1]
  }

  /** A join of several parts starts with the first part and ends with the
      separator followed by the last part. */
  lemma {:induction false} JoinEnds(parts: seq<string>, sep: string)
    requires |parts| > 1
    ensures StartsWith(Join(parts, sep), parts[0])
    ensures EndsWith(Join(parts, sep), sep + parts[|parts| - 1])
  {
    var front := Join(parts[..|parts| - 1], sep);
    var r := Join(parts, sep);
    assert r == front + (sep + parts[|parts| - 1]);
    if |parts| > 2 {
      JoinEnds(parts[..|parts| - 1], sep);
    }
    assert StartsWith(front, parts[0]);
    assert r[..|parts[0]|] == front[..|parts[0]|];
    assert r[|front|..] == sep + parts[|parts| - 1];
  }

  predicate IsDigit(c: char) {
    '0' <= c <= '9'
  }

  /** The value of a string of decimal digits. */
  function DecimalValue(s: string): nat
    requires forall k :: 0 <= k < |s| ==> IsDigit(s[k])
  {
    if |s| == 0 then 0
    else
      assert IsDigit(s[|s| - 1]);
      10 * DecimalValue(s[..|s| - 1]) + (s[|s| - 1] as int - '0' as int)
  }

  /** The shortest decimal rendering of `n`, as JavaScript's `String(n)`
      writes a non-negative safe integer. */
  function NatToString(n: nat): (r: string)
    ensures |r| >= 1
    ensures forall k :: 0 <= k < |r| ==> IsDigit(r[k])
    ensures r[0] == '0' ==> r == "0"
    ensures DecimalValue(r) == n
  {
    var d := ['0' + (n % 10) as char];
    if n < 10 then d
    else
      var p := NatToString(n / 10);
      var r := p + d;
      assert r[..|r| - 1] == p;
      r
  }

  /** `s.split(sep).pop()`: the text after the last `sep`, or all of `s`
      when it has none. */
  function AfterLast(s: string, sep: char): (r: string)
    ensures |r| <= |s| && r == s[|s| - |r|..]
    ensures forall k :: 0 <= k < |r| ==> r[k] != sep
    ensures |r| < |s| ==> s[|s| - |r| - 1] == sep
  {
    if |s| == 0 then ""
    else if s[|s| - 1] == sep then ""
    else AfterLast(s[..|s| - 1], sep) + [s[|s| - 1]]
  }

  /** `split(sep).pop()` undoes appending `sep` and a text free of `sep`:
      it gives back that text, whatever came before. */
  lemma {:induction false} AfterLastAppended(front: string, sep: char, tail: string)
    requires forall k :: 0 <= k < |tail| ==> tail[k] != sep
    ensures AfterLast(front + [sep] + tail, sep) == tail
  {
    var s := front + [sep] + tail;
    if |tail| > 0 {
      var t := tail[..|tail| - 1];
      assert s[..|s| - 1] == front + [sep] + t;
      AfterLastAppended(front, sep, t);
      assert tail == t + [tail[|tail| - 1]];
    }
  }

  /** The two edge cases of `split(sep).pop()`: a text without `sep` comes
      back whole, and a text ending in `sep` gives the empty string. */
  lemma {:induction false} AfterLastEdges(s: string, sep: char)
    ensures (forall k :: 0 <= k < |s| ==> s[k] != sep) ==> AfterLast(s, sep) == s
    ensures |s| > 0 && s[|s| - 1] == sep ==> AfterLast(s, sep) == ""
  {
  }
}
