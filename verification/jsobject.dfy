/** A JavaScript object used as a string-keyed record: its own properties in
    insertion order. Assigning to an existing key replaces the value in
    place; assigning to a new key appends it; assigning to `__proto__`
    replaces the prototype and creates no own property. This is how the
    schema compiler's `reduce((acc, f) => { acc[f.id] = …; return acc }, {})`
    builds a zod shape, which the library reads back with `Object.keys`. */
module JsObject {
  import opened Wrappers

  /** The keys of `p`, in order. */
  function Keys<V>(p: seq<(string, V)>): (ks: seq<string>)
    ensures |ks| == |p|
    ensures forall i :: 0 <= i < |p| ==> ks[i] == p[i].0
  {
    seq(|p|, i requires 0 <= i < |p| => p[i].0)
  }

  predicate Distinct(ks: seq<string>) {
    forall i, j :: 0 <= i < j < |ks| ==> ks[i] != ks[j]
  }

  /** Position of `k` in `p`, or `|p|` when absent. */
  function IndexOfKey<V>(p: seq<(string, V)>, k: string): (i: nat)
    ensures i <= |p|
    ensures i < |p| ==> p[i].0 == k
    ensures forall j :: 0 <= j < i ==> p[j].0 != k
  {
    if |p| == 0 then 0
    else if p[0].0 == k then 0
    else 1 + IndexOfKey(p[1..], k)
  }

  /** Any index satisfying `IndexOfKey`'s contract is the one it returns. */
  lemma {:induction false} IndexOfKeyUnique<V>(p: seq<(string, V)>, k: string, i: nat)
    requires i <= |p|
    requires i < |p| ==> p[i].0 == k
    requires forall j :: 0 <= j < i ==> p[j].0 != k
    ensures IndexOfKey(p, k) == i
  {
  }

  /** The one name whose assignment on a plain object is intercepted by the
      `Object.prototype.__proto__` setter. */
  const ProtoKey: string := "__proto__"

  /** Reading the own property `k` of `obj`. */
  function Lookup<V>(p: seq<(string, V)>, k: string): Option<V> {
    var i := IndexOfKey(p, k);
    if i < |p| then Some(p[i].1) else None
  }

  /** `obj[k] = v` on an object that inherits from `Object.prototype`. The
      values assigned here are objects, so `obj.__proto__ = v` makes `v` the
      prototype and leaves the own properties as they were. */
  function Assign<V>(p: seq<(string, V)>, k: string, v: V): (r: seq<(string, V)>)
    ensures k == ProtoKey ==> r == p
    ensures k != ProtoKey && k in Keys(p) ==> Keys(r) == Keys(p)
    ensures k != ProtoKey && k !in Keys(p) ==> Keys(r) == Keys(p) + [k]
    ensures k != ProtoKey ==> Lookup(r, k) == Some(v)
    ensures Distinct(Keys(p)) ==> Distinct(Keys(r))
    ensures forall k' :: k' != k ==> Lookup(r, k') == Lookup(p, k')
  {
    if k == ProtoKey then p
    else
    var i := IndexOfKey(p, k);
    if i < |p| then
      var r := p[i := (k, v)];
      assert Keys(r) == Keys(p);
      r
    else
      var r := p + [(k, v)];
      assert Keys(r) == Keys(p) + [k];
      IndexOfKeyUnique(r, k, |p|);
      forall k' | k' != k ensures Lookup(r, k') == Lookup(p, k') {
        IndexOfKeyUnique(r, k', IndexOfKey(p, k') + if IndexOfKey(p, k') == |p| then 1 else 0);
      }
      r
  }

  /** The object obtained by assigning every pair of `es` in order to `{}`. */
  function FromAssignments<V>(es: seq<(string, V)>): seq<(string, V)> {
    if |es| == 0 then []
    else
      var last := es[|es| - 1];
      Assign(FromAssignments(es[..|es| - 1]), last.0, last.1)
  }

  /** The keys that become own properties when assigned: all but
      `__proto__`. */
  function OwnKeys(ks: seq<string>): (r: seq<string>)
    ensures forall k :: k in r <==> k in ks && k != ProtoKey
  {
    if |ks| == 0 then []
    else
      var init := OwnKeys(ks[..|ks| - 1]);
      var k := ks[|ks| - 1];
      assert forall x :: x in ks <==> x in ks[..|ks| - 1] || x == k;
      if k == ProtoKey then init else init + [k]
  }

  /** Keys in order of first occurrence, each once. */
  function Dedup(ks: seq<string>): (d: seq<string>)
    ensures Distinct(d)
    ensures forall k :: k in d <==> k in ks
  {
    if |ks| == 0 then []
    else
      var d := Dedup(ks[..|ks| - 1]);
      var k := ks[|ks| - 1];
      assert forall x :: x in ks <==> x in ks[..|ks| - 1] || x == k;
      if k in d then d else d + [k]
  }

  /** The value of the last assignment to `k` in `es`, if any. */
  function LastAssigned<V>(es: seq<(string, V)>, k: string): Option<V> {
    if |es| == 0 then None
    else if es[|es| - 1].0 == k then Some(es[|es| - 1].1)
    else LastAssigned(es[..|es| - 1], k)
  }

  /** Building an object by successive assignments keeps one property per
      distinct key other than `__proto__`, in order of first assignment, and
      each such key holds the value of its last assignment; `__proto__`
      never becomes an own property. */
  lemma {:induction false} FromAssignmentsSpec<V>(es: seq<(string, V)>)
    ensures Keys(FromAssignments(es)) == Dedup(OwnKeys(Keys(es)))
    ensures Distinct(Keys(FromAssignments(es)))
    ensures forall k :: Lookup(FromAssignments(es), k) == if k == ProtoKey then None else LastAssigned(es, k)
  {
    if |es| > 0 {
      var init := es[..|es| - 1];
      var last := es[|es| - 1];
      FromAssignmentsSpec(init);
      assert Keys(es)[..|es| - 1] == Keys(init);
    }
  }

  /** An assignment that no later assignment overrides determines the
      value, unless its key is `__proto__`, which is never an own property. */
  lemma {:induction false} LastAssignmentWins<V>(es: seq<(string, V)>, i: nat)
    requires i < |es|
    requires forall j :: i < j < |es| ==> es[j].0 != es[i].0
    ensures Lookup(FromAssignments(es), es[i].0) == if es[i].0 == ProtoKey then None else Some(es[i].1)
  {
    FromAssignmentsSpec(es);
    LastAssignedAt(es, i);
  }

  /** A key never assigned is absent. */
  lemma {:induction false} UnassignedAbsent<V>(es: seq<(string, V)>, k: string)
    requires k !in Keys(es)
    ensures Lookup(FromAssignments(es), k).None?
  {
    FromAssignmentsSpec(es);
    LastAssignedAbsent(es, k);
  }

  lemma {:induction false} LastAssignedAt<V>(es: seq<(string, V)>, i: nat)
    requires i < |es|
    requires forall j :: i < j < |es| ==> es[j].0 != es[i].0
    ensures LastAssigned(es, es[i].0) == Some(es[i].1)
  {
    if i < |es| - 1 {
      LastAssignedAt(es[..|es| - 1], i);
    }
  }

  lemma {:induction false} LastAssignedAbsent<V>(es: seq<(string, V)>, k: string)
    requires k !in Keys(es)
    ensures LastAssigned(es, k).None?
  {
    if |es| > 0 {
      assert Keys(es[..|es| - 1]) == Keys(es)[..|es| - 1];
      LastAssignedAbsent(es[..|es| - 1], k);
    }
  }
}
