/** `URLSearchParams` as the WHATWG URL Standard defines it: an ordered list of
    name/value pairs in which a name may repeat. `get` reads the first pair of a
    name, `delete` removes every pair of a name, and `set` overwrites the first
    pair of a name in place and drops the others, or appends when there is none. */
module SearchParams {

  import opened Wrappers

  datatype Param = Param(name: string, value: string)

  type Query = seq<Param>

  /** The pairs of `q` named `name`, in their order. */
  function Named(q: Query, name: string): (r: Query)
    ensures forall i :: 0 <= i < |r| ==> r[i].name == name
  {
    if q == [] then []
    else (if q[0].name == name then [q[0]] else []) + Named(q[1..], name)
  }

  /** Selecting by name distributes over concatenation. */
  lemma {:induction false} NamedConcat(a: Query, b: Query)
    ensures forall n :: Named(a + b, n) == Named(a, n) + Named(b, n)
  {
    if a == [] {
      assert a + b == b;
    } else {
      NamedConcat(a[1..], b);
      assert (a + b)[1..] == a[1..] + b;
    }
  }

  lemma NamedSingleton(p: Param)
    ensures forall n :: Named([p], n) == if p.name == n then [p] else []
  {
    assert [p][1..] == [];
  }

  /** `searchParams.get(name)` */
  function Get(q: Query, name: string): (r: Option<string>)
    ensures r.None? <==> Named(q, name) == []
    ensures r.Some? ==> r.value == Named(q, name)[0].value
  {
    if q == [] then None
    else if q[0].name == name then Some(q[0].value)
    else Get(q[1..], name)
  }

  /** `searchParams.delete(name)` */
  function Delete(q: Query, name: string): (r: Query)
    ensures Named(r, name) == []
    ensures forall i :: 0 <= i < |r| ==> r[i].name != name
    ensures forall m :: m != name ==> Named(r, m) == Named(q, m)
  {
    if q == [] then []
    else
      var head := if q[0].name == name then [] else [q[0]];
      NamedConcat(head, Delete(q[1..], name));
      head + Delete(q[1..], name)
  }

  /** Deleting from a concatenation deletes from each part, and from a single
      pair removes it exactly when it has the name: together these fix the
      result, so the pairs that remain keep their order. */
  lemma {:induction false} DeleteConcat(a: Query, b: Query, name: string)
    ensures Delete(a + b, name) == Delete(a, name) + Delete(b, name)
  {
    if a == [] {
      assert a + b == b;
    } else {
      assert (a + b)[0] == a[0] && (a + b)[1..] == a[1..] + b;
      var head := if a[0].name == name then [] else [a[0]];
      calc {
        Delete(a + b, name);
        head + Delete(a[1..] + b, name);
        { DeleteConcat(a[1..], b, name); }
        head + (Delete(a[1..], name) + Delete(b, name));
        (head + Delete(a[1..], name)) + Delete(b, name);
        Delete(a, name) + Delete(b, name);
      }
    }
  }

  lemma DeleteSingleton(p: Param, name: string)
    ensures Delete([p], name) == if p.name == name then [] else [p]
  {
    assert [p][1..] == [];
  }

  /** Deleting a name that no pair has changes nothing. */
  lemma {:induction false} DeleteAbsent(q: Query, name: string)
    requires forall i :: 0 <= i < |q| ==> q[i].name != name
    ensures Delete(q, name) == q
  {
    if q != [] {
      DeleteAbsent(q[1..], name);
    }
  }

  /** The position of the first pair named `name`. */
  function FirstNamed(q: Query, name: string): (k: nat)
    requires Named(q, name) != []
    ensures k < |q| && q[k].name == name
    ensures forall j :: 0 <= j < k ==> q[j].name != name
  {
    if q[0].name == name then 0 else 1 + FirstNamed(q[1..], name)
  }

  /** A list in which no pair has the name has no pairs of that name. */
  lemma {:induction false} NamedAbsent(q: Query, name: string)
    requires forall i :: 0 <= i < |q| ==> q[i].name != name
    ensures Named(q, name) == []
  {
    if q != [] {
      NamedAbsent(q[1..], name);
    }
  }

  /** Putting `p` in the place of `x` (of the same name), with no pair of that
      name before and the later ones deleted, leaves `p` as the only pair of the
      name and every other name as it was. */
  lemma ReplaceKeepsOtherNames(before: Query, x: Param, p: Param, after: Query)
    requires x.name == p.name && Named(before, p.name) == []
    ensures Named(before + [p] + Delete(after, p.name), p.name) == [p]
    ensures forall m :: m != p.name ==>
              Named(before + [p] + Delete(after, p.name), m) == Named(before + [x] + after, m)
  {
    NamedSingleton(p);
    NamedSingleton(x);
    NamedConcat(before + [p], Delete(after, p.name));
    NamedConcat(before, [p]);
    NamedConcat(before + [x], after);
    NamedConcat(before, [x]);
  }

  /** The first pair named `name` gets `value` in its place; the later ones
      are dropped and every other pair stays where it was. */
  function OverwriteFirst(q: Query, name: string, value: string): (r: Query)
    requires Named(q, name) != []
    ensures Named(r, name) == [Param(name, value)]
    ensures forall m :: m != name ==> Named(r, m) == Named(q, m)
  {
    var k := FirstNamed(q, name);
    var before, after := q[..k], q[k + 1..];
    NamedAbsent(before, name);
    assert q == before + [q[k]] + after;
    ReplaceKeepsOtherNames(before, q[k], Param(name, value), after);
    before + [Param(name, value)] + Delete(after, name)
  }

  /** `searchParams.set(name, value)` */
  function Set(q: Query, name: string, value: string): (r: Query)
    ensures Named(r, name) == [Param(name, value)]
    ensures Get(r, name) == Some(value)
    ensures forall m :: m != name ==> Named(r, m) == Named(q, m)
    ensures Named(q, name) == [] ==> r == q + [Param(name, value)]
    ensures Named(q, name) != [] ==>
              var k := FirstNamed(q, name);
              r == q[..k] + [Param(name, value)] + Delete(q[k + 1..], name)
  {
    if Named(q, name) == [] then
      NamedConcat(q, [Param(name, value)]);
      NamedSingleton(Param(name, value));
      q + [Param(name, value)]
    else
      var r := OverwriteFirst(q, name, value);
      assert Named(r, name)[0] == Param(name, value);
      r
  }

  /** Apart from the pairs named `name`, `set` keeps the list as it was, in
      the same order. */
  lemma SetKeepsOtherPairs(q: Query, name: string, value: string)
    ensures Delete(Set(q, name, value), name) == Delete(q, name)
  {
    var p := Param(name, value);
    DeleteSingleton(p, name);
    if Named(q, name) == [] {
      DeleteConcat(q, [p], name);
      assert Delete(q, name) + [] == Delete(q, name);
    } else {
      var k := FirstNamed(q, name);
      var before, after := q[..k], q[k + 1..];
      var tail := Delete(after, name);
      assert Set(q, name, value) == before + [p] + tail;
      assert q == before + [q[k]] + after;
      DeleteAbsent(before, name);
      DeleteAbsent(tail, name);
      DeleteSingleton(q[k], name);
      calc {
        Delete(before + [p] + tail, name);
        { DeleteConcat(before + [p], tail, name); DeleteConcat(before, [p], name); }
        Delete(before, name) + Delete([p], name) + Delete(tail, name);
        before + [] + tail;
        { assert before + [] == before; }
        before + tail;
        Delete(before, name) + Delete([q[k]], name) + Delete(after, name);
        { DeleteConcat(before + [q[k]], after, name); DeleteConcat(before, [q[k]], name); }
        Delete(before + [q[k]] + after, name);
      }
    }
  }
}
