/** General laws of the validation executor: how composite nodes collect
    their children's issues, where issues are reported, and what an accepted
    composite value is made of. */
module SchemaExecutorLaws {
  import opened Wrappers
  import opened Json
  import opened SchemaCompiler
  import opened SchemaExecutor
  import JsObject

  /** An issue is among the collected issues iff some outcome reported it. */
  lemma {:induction false} AllIssuesMembers(rs: seq<Outcome>)
    ensures forall iss :: iss in AllIssues(rs) <==> exists i :: 0 <= i < |rs| && iss in IssuesOf(rs[i])
  {
    forall iss | iss in AllIssues(rs)
      ensures exists i :: 0 <= i < |rs| && iss in IssuesOf(rs[i])
    {
      var i := IssueSource(rs, iss);
    }
    forall iss, i | 0 <= i < |rs| && iss in IssuesOf(rs[i])
      ensures iss in AllIssues(rs)
    {
      IssueCollected(rs, i, iss);
    }
  }

  /** The outcome a collected issue comes from. */
  lemma {:induction false} IssueSource(rs: seq<Outcome>, iss: Issue) returns (i: nat)
    requires iss in AllIssues(rs)
    ensures i < |rs| && iss in IssuesOf(rs[i])
  {
    if iss in IssuesOf(rs[0]) {
      i := 0;
    } else {
      var j := IssueSource(rs[1..], iss);
      i := j + 1;
    }
  }

  /** Every issue of every outcome is collected. */
  lemma {:induction false} IssueCollected(rs: seq<Outcome>, i: nat, iss: Issue)
    requires i < |rs| && iss in IssuesOf(rs[i])
    ensures iss in AllIssues(rs)
  {
    if i > 0 {
      assert rs[1..][i - 1] == rs[i];
      IssueCollected(rs[1..], i - 1, iss);
    }
  }

  /** The collected issues hold each outcome's issues as one block, at the
      offset given by the issues of the outcomes before it: nothing is
      dropped, reordered or short-circuited. */
  lemma {:induction false} AllIssuesBlock(rs: seq<Outcome>, i: nat)
    requires i < |rs|
    ensures var before := |AllIssues(rs[..i])|;
            before + |IssuesOf(rs[i])| <= |AllIssues(rs)| &&
            AllIssues(rs)[before..before + |IssuesOf(rs[i])|] == IssuesOf(rs[i])
  {
    if i > 0 {
      AllIssuesBlock(rs[1..], i - 1);
      assert rs[..i][1..] == rs[1..][..i - 1];
    }
  }

  /** Every rejection carries at least one issue. */
  lemma {:induction false} RejectionHasIssues(h: Host, v: Validator, x: Value, path: Path)
    ensures Validate(h, v, x, path).Failure? ==> |Validate(h, v, x, path).error| > 0
    decreases v
  {
    match v
    case ArrayOf(e) =>
      if x.Arr? {
        var rs := ElementOutcomes(h, e, x.items, path);
        if !AllAccepted(rs) {
          var i :| 0 <= i < |rs| && rs[i].Failure?;
          RejectionHasIssues(h, e, x.items[i], path + [Index(i)]);
          AllIssuesMembers(rs);
          assert rs[i].error[0] in AllIssues(rs);
        }
      }
    case Record(shape) =>
      if x.Obj? {
        var rs := PropertyOutcomes(h, shape, x, path);
        if !AllAccepted(rs) {
          var i :| 0 <= i < |rs| && rs[i].Failure?;
          RejectionHasIssues(h, shape[i].1, Get(x, shape[i].0), path + [Key(shape[i].0)]);
          AllIssuesMembers(rs);
          assert rs[i].error[0] in AllIssues(rs);
        }
      }
    case _ =>
  }

  /** Every issue is reported at the path being validated or below it. */
  lemma {:induction false} IssuesExtendPath(h: Host, v: Validator, x: Value, path: Path)
    ensures forall iss :: iss in IssuesOf(Validate(h, v, x, path)) ==> path <= iss.path
    decreases v, 1
  {
    match v
    case ArrayOf(e) =>
      if x.Arr? {
        ElementIssuesBelow(h, e, x.items, path);
      }
    case Record(shape) =>
      if x.Obj? {
        PropertyIssuesBelow(h, shape, x, path);
      }
    case _ =>
      ScalarIssuesAtPath(h, v, x, path);
  }

  /** A validator without children reports its issues at the path itself. */
  lemma {:induction false} ScalarIssuesAtPath(h: Host, v: Validator, x: Value, path: Path)
    requires !v.ArrayOf? && !v.Record?
    ensures forall iss :: iss in IssuesOf(Validate(h, v, x, path)) ==> iss.path == path
  {
    match v
    case Link(required, invalid) =>
    case AnyValue =>
    case Text =>
    case RequiredText(_) =>
    case NumberLike =>
    case AbsoluteUrl(_) =>
    case OneOf(_) =>
  }

  lemma {:induction false} ElementIssuesBelow(h: Host, e: Validator, items: seq<Value>, path: Path)
    ensures forall iss :: iss in IssuesOf(Validate(h, ArrayOf(e), Arr(items), path)) ==> path <= iss.path
    decreases ArrayOf(e), 0
  {
    var rs := ElementOutcomes(h, e, items, path);
    forall i | 0 <= i < |rs|
      ensures forall iss :: iss in IssuesOf(rs[i]) ==> path <= iss.path
    {
      ChildIssuesBelow(h, e, items[i], path, Index(i));
    }
    AllIssuesBelow(rs, path);
  }

  lemma {:induction false} PropertyIssuesBelow(h: Host, shape: seq<(string, Validator)>, x: Value, path: Path)
    requires x.Obj?
    ensures forall iss :: iss in IssuesOf(Validate(h, Record(shape), x, path)) ==> path <= iss.path
    decreases Record(shape), 0
  {
    var rs := PropertyOutcomes(h, shape, x, path);
    forall i | 0 <= i < |rs|
      ensures forall iss :: iss in IssuesOf(rs[i]) ==> path <= iss.path
    {
      ChildIssuesBelow(h, shape[i].1, Get(x, shape[i].0), path, Key(shape[i].0));
    }
    AllIssuesBelow(rs, path);
  }

  lemma {:induction false} ChildIssuesBelow(h: Host, v: Validator, x: Value, path: Path, seg: Segment)
    ensures forall iss :: iss in IssuesOf(Validate(h, v, x, path + [seg])) ==> path <= iss.path
    decreases v, 2
  {
    IssuesExtendPath(h, v, x, path + [seg]);
    forall iss | iss in IssuesOf(Validate(h, v, x, path + [seg]))
      ensures path <= iss.path
    {
      PrefixExtends(path, [seg], iss.path);
    }
  }

  lemma {:induction false} PrefixExtends(path: Path, more: Path, p: Path)
    requires path + more <= p
    ensures path <= p
  {
    assert p[..|path|] == (path + more)[..|path|];
  }

  /** Issues that all lie below `path`, outcome by outcome, still do once
      collected. */
  lemma {:induction false} AllIssuesBelow(rs: seq<Outcome>, path: Path)
    requires forall i :: 0 <= i < |rs| ==> forall iss :: iss in IssuesOf(rs[i]) ==> path <= iss.path
    ensures forall iss :: iss in AllIssues(rs) ==> path <= iss.path
  {
    AllIssuesMembers(rs);
  }

  /** An array is accepted iff every element is accepted at its index; the
      parsed array holds the parsed elements in order. Otherwise every issue
      lies below the index of the element that caused it. */
  lemma {:induction false} ArrayOutcome(h: Host, e: Validator, items: seq<Value>, path: Path)
    ensures var r := Validate(h, ArrayOf(e), Arr(items), path);
            && (r.Success? <==> forall i :: 0 <= i < |items| ==> Validate(h, e, items[i], path + [Index(i)]).Success?)
            && (r.Success? ==>
                  && r.value.Arr? && |r.value.items| == |items|
                  && forall i :: 0 <= i < |items| ==> r.value.items[i] == Validate(h, e, items[i], path + [Index(i)]).value)
            && (forall iss :: iss in IssuesOf(r) ==>
                  |iss.path| > |path| && iss.path[|path|].Index? && iss.path[|path|].index < |items|)
  {
    var rs := ElementOutcomes(h, e, items, path);
    AllIssuesMembers(rs);
    forall i | 0 <= i < |rs|
      ensures forall iss :: iss in IssuesOf(rs[i]) ==> path + [Index(i)] <= iss.path
    {
      IssuesExtendPath(h, e, items[i], path + [Index(i)]);
    }
    forall iss | iss in IssuesOf(Validate(h, ArrayOf(e), Arr(items), path))
      ensures |iss.path| > |path| && iss.path[|path|].Index? && iss.path[|path|].index < |items|
    {
      var i :| 0 <= i < |rs| && iss in IssuesOf(rs[i]);
      assert (path + [Index(i)])[|path|] == Index(i);
    }
  }

  /** The parsed object keeps each declared key whose parsed value is
      defined or which the input carries, with that parsed value, and no
      other key. */
  lemma {:induction false} OutputSpec(keys: seq<string>, vals: seq<Value>, input: map<string, Value>)
    requires |keys| == |vals|
    requires JsObject.Distinct(keys)
    ensures forall k :: k in Output(keys, vals, input) ==> k in keys
    ensures forall i :: 0 <= i < |keys| ==>
              (keys[i] in Output(keys, vals, input) <==> keys[i] in input || vals[i] != Undefined)
    ensures forall i :: 0 <= i < |keys| && keys[i] in Output(keys, vals, input) ==>
              Output(keys, vals, input)[keys[i]] == vals[i]
  {
    if |keys| > 0 {
      OutputSpec(keys[1..], vals[1..], input);
      forall i | 1 <= i < |keys|
        ensures keys[i] == keys[1..][i - 1] && vals[i] == vals[1..][i - 1]
      {
      }
    }
  }

  /** An object is accepted iff every declared key is accepted at that key;
      the parsed object maps each declared key to its parsed value (a key
      whose value is `undefined` and absent from the input is left out), and
      keys the shape does not declare are dropped. Otherwise every issue lies
      below one of the declared keys. */
  lemma {:induction false} RecordOutcome(h: Host, shape: seq<(string, Validator)>, props: map<string, Value>, path: Path)
    requires JsObject.Distinct(JsObject.Keys(shape))
    ensures var r := Validate(h, Record(shape), Obj(props), path);
            && (r.Success? <==> forall i :: 0 <= i < |shape| ==>
                  Validate(h, shape[i].1, Get(Obj(props), shape[i].0), path + [Key(shape[i].0)]).Success?)
            && (r.Success? ==>
                  && r.value.Obj?
                  && (forall k :: k in r.value.props ==> k in JsObject.Keys(shape))
                  && forall i :: 0 <= i < |shape| ==>
                    var c := Validate(h, shape[i].1, Get(Obj(props), shape[i].0), path + [Key(shape[i].0)]);
                    (shape[i].0 in r.value.props <==> shape[i].0 in props || c.value != Undefined) &&
                    (shape[i].0 in r.value.props ==> r.value.props[shape[i].0] == c.value))
            && (forall iss :: iss in IssuesOf(r) ==>
                  |iss.path| > |path| && iss.path[|path|].Key? && iss.path[|path|].key in JsObject.Keys(shape))
  {
    var x := Obj(props);
    var rs := PropertyOutcomes(h, shape, x, path);
    AllIssuesMembers(rs);
    if AllAccepted(rs) {
      OutputSpec(JsObject.Keys(shape), Values(rs), props);
    }
    forall i | 0 <= i < |rs|
      ensures forall iss :: iss in IssuesOf(rs[i]) ==> path + [Key(shape[i].0)] <= iss.path
    {
      IssuesExtendPath(h, shape[i].1, Get(x, shape[i].0), path + [Key(shape[i].0)]);
    }
    forall iss | iss in IssuesOf(Validate(h, Record(shape), x, path))
      ensures |iss.path| > |path| && iss.path[|path|].Key? && iss.path[|path|].key in JsObject.Keys(shape)
    {
      var i :| 0 <= i < |rs| && iss in IssuesOf(rs[i]);
      assert (path + [Key(shape[i].0)])[|path|] == Key(shape[i].0);
      assert JsObject.Keys(shape)[i] == shape[i].0;
    }
  }

  /** An issue of one declared key is an issue of the whole object. */
  lemma {:induction false} RecordCollects(h: Host, shape: seq<(string, Validator)>, x: Value, path: Path, k: nat, iss: Issue)
    requires x.Obj? && k < |shape|
    requires iss in IssuesOf(Validate(h, shape[k].1, Get(x, shape[k].0), path + [Key(shape[k].0)]))
    ensures iss in IssuesOf(Validate(h, Record(shape), x, path))
  {
    var rs := PropertyOutcomes(h, shape, x, path);
    AllIssuesMembers(rs);
    assert iss in IssuesOf(rs[k]);
  }

  /** An issue of one element is an issue of the whole array. */
  lemma {:induction false} ArrayCollects(h: Host, e: Validator, items: seq<Value>, path: Path, i: nat, iss: Issue)
    requires i < |items|
    requires iss in IssuesOf(Validate(h, e, items[i], path + [Index(i)]))
    ensures iss in IssuesOf(Validate(h, ArrayOf(e), Arr(items), path))
  {
    var rs := ElementOutcomes(h, e, items, path);
    AllIssuesMembers(rs);
    assert iss in IssuesOf(rs[i]);
  }
}
