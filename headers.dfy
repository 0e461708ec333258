/**
  The per-name header state machine of an http4js request.

  A header name is in one of three states: absent (not a key of the map),
  a single string, or an ordered list of strings. `setHeader` is an additive
  write, `replaceHeader` collapses any state to one string and `removeHeader`
  makes the name absent. This module states those transitions on values; the
  class `Request` in module `Core` applies them to its `headers` field.
 */
module HeaderState {

  datatype Option<+T> = None | Some(value: T)

  /** A stored header value: one string, or the strings in the order they were added. */
  datatype HeaderValue = Single(value: string) | Multi(values: seq<string>)

  /** Header names are matched exactly, case included. */
  type Headers = map<string, HeaderValue>

  /** One call of a header mutator. */
  datatype HeaderOp =
    | Set(name: string, value: string)
    | Replace(name: string, value: string)
    | Remove(name: string)

  /** What a lookup by exact name finds: nothing when the name is absent. */
  function Lookup(h: Headers, name: string): Option<HeaderValue>
  {
    if name in h then Some(h[name]) else None
  }

  /** The strings a header state stands for, in order. */
  function Values(v: Option<HeaderValue>): seq<string>
  {
    match v
    case None => []
    case Some(Single(s)) => [s]
    case Some(Multi(xs)) => xs
  }

  /** The header maps that the mutators can produce from an empty map:
      a list value always holds at least two strings. */
  ghost predicate WellFormed(h: Headers)
  {
    forall n :: n in h && h[n].Multi? ==> |h[n].values| >= 2
  }

  /** The value a name holds after an additive write of `value` on top of `cur`:
      `value` is appended to the strings already there, and the result is a
      list exactly when the name was already present. */
  function Added(cur: Option<HeaderValue>, value: string): (r: HeaderValue)
    ensures Values(Some(r)) == Values(cur) + [value]
    ensures r.Multi? <==> cur.Some?
  {
    match cur
    case None => Single(value)
    case Some(Single(s)) => Multi([s, value])
    case Some(Multi(xs)) => Multi(xs + [value])
  }

  /** The header map after one mutator call: only the entry of the call's
      name changes. */
  function Step(h: Headers, op: HeaderOp): (r: Headers)
    ensures r - {op.name} == h - {op.name}
    ensures op.Set? ==> Lookup(r, op.name) == Some(Added(Lookup(h, op.name), op.value))
    ensures op.Replace? ==> Lookup(r, op.name) == Some(Single(op.value))
    ensures op.Remove? ==> Lookup(r, op.name) == None
  {
    match op
    case Set(n, v) => h[n := Added(Lookup(h, n), v)]
    case Replace(n, v) => h[n := Single(v)]
    case Remove(n) => h - {n}
  }

  /** The header map after a sequence of mutator calls, in call order. */
  function Run(h: Headers, ops: seq<HeaderOp>): Headers
    decreases |ops|
  {
    if ops == [] then h else Run(Step(h, ops[0]), ops[1..])
  }

  /** The values given to `setHeader` for `name` in `ops`, in call order. */
  function SetValues(name: string, ops: seq<HeaderOp>): seq<string>
    decreases |ops|
  {
    if ops == [] then []
    else (if ops[0].Set? && ops[0].name == name then [ops[0].value] else [])
         + SetValues(name, ops[1..])
  }

  /** No call in `ops` that names `name` is a replace or a remove. */
  ghost predicate OnlySets(name: string, ops: seq<HeaderOp>)
  {
    forall i :: 0 <= i < |ops| && ops[i].name == name ==> ops[i].Set?
  }

  /** Running one more call at the end is one more step. */
  lemma {:induction false} RunSnoc(h: Headers, ops: seq<HeaderOp>, op: HeaderOp)
    ensures Run(h, ops + [op]) == Step(Run(h, ops), op)
    decreases |ops|
  {
    if ops == [] {
      assert [op][1..] == [];
    } else {
      assert (ops + [op])[0] == ops[0];
      assert (ops + [op])[1..] == ops[1..] + [op];
      RunSnoc(Step(h, ops[0]), ops[1..], op);
    }
  }

  /** One mutator call keeps a list value at two strings or more. */
  lemma StepWellFormed(h: Headers, op: HeaderOp)
    requires WellFormed(h)
    ensures WellFormed(Step(h, op))
  {
  }

  /** Any sequence of mutator calls keeps a list value at two strings or more. */
  lemma {:induction false} RunWellFormed(h: Headers, ops: seq<HeaderOp>)
    requires WellFormed(h)
    ensures WellFormed(Run(h, ops))
    decreases |ops|
  {
    if ops != [] {
      StepWellFormed(h, ops[0]);
      RunWellFormed(Step(h, ops[0]), ops[1..]);
    }
  }

  /** The entry of `name` alone, if it is a list, holds two strings or more. */
  ghost predicate WellFormedAt(h: Headers, name: string)
  {
    name in h && h[name].Multi? ==> |h[name].values| >= 2
  }

  /** Any sequence of mutator calls keeps one name's list at two strings or
      more, whatever the other names hold. */
  lemma {:induction false} RunWellFormedAt(h: Headers, ops: seq<HeaderOp>, name: string)
    requires WellFormedAt(h, name)
    ensures WellFormedAt(Run(h, ops), name)
    decreases |ops|
  {
    if ops != [] {
      var h' := Step(h, ops[0]);
      if ops[0].name == name {
        assert Lookup(h', name).Some? ==> Lookup(h', name) == Some(h'[name]);
      } else {
        StepOther(h, ops[0], name);
        assert Lookup(h', name) == Lookup(h, name);
      }
      RunWellFormedAt(h', ops[1..], name);
    }
  }

  /** Starting from no headers, every list value holds at least two strings. */
  lemma FromEmptyMultiAtLeastTwo(ops: seq<HeaderOp>, name: string)
    requires name in Run(map[], ops)
    requires Run(map[], ops)[name].Multi?
    ensures |Run(map[], ops)[name].values| >= 2
  {
    RunWellFormed(map[], ops);
  }

  /** Calls on other names never touch the entry of `name`. */
  lemma {:induction false} RunFrame(h: Headers, ops: seq<HeaderOp>, name: string)
    requires forall i :: 0 <= i < |ops| ==> ops[i].name != name
    ensures Lookup(Run(h, ops), name) == Lookup(h, name)
    decreases |ops|
  {
    if ops != [] {
      StepOther(h, ops[0], name);
      RunFrame(Step(h, ops[0]), ops[1..], name);
    }
  }

  /** Lookup of a name other than the one a call names is unchanged by it. */
  lemma StepOther(h: Headers, op: HeaderOp, name: string)
    requires op.name != name
    ensures Lookup(Step(h, op), name) == Lookup(h, name)
  {
  }

  /** When `name` is only ever the target of `setHeader`, its strings are the
      ones it started with followed by every value set, in call order. */
  lemma {:induction false} RunOnlySets(h: Headers, ops: seq<HeaderOp>, name: string)
    requires OnlySets(name, ops)
    ensures Values(Lookup(Run(h, ops), name)) == Values(Lookup(h, name)) + SetValues(name, ops)
    ensures name in Run(h, ops) <==> name in h || SetValues(name, ops) != []
    decreases |ops|
  {
    if ops != [] {
      var h' := Step(h, ops[0]);
      assert OnlySets(name, ops[1..]) by {
        forall i | 0 <= i < |ops[1..]| && ops[1..][i].name == name
          ensures ops[1..][i].Set?
        {
          assert ops[1..][i] == ops[i + 1];
        }
      }
      RunOnlySets(h', ops[1..], name);
      if ops[0].name == name {
        assert ops[0].Set?;
        assert Values(Lookup(h', name)) == Values(Lookup(h, name)) + [ops[0].value];
      } else {
        StepOther(h, ops[0], name);
      }
    }
  }

  /** A name that starts absent and then receives only `setHeader` calls is
      absent after none, a single string after one, and the list of all the
      values in call order after two or more. */
  lemma SetHistory(h: Headers, ops: seq<HeaderOp>, name: string)
    requires name !in h
    requires OnlySets(name, ops)
    ensures SetValues(name, ops) == [] ==> name !in Run(h, ops)
    ensures |SetValues(name, ops)| == 1 ==>
      name in Run(h, ops) && Run(h, ops)[name] == Single(SetValues(name, ops)[0])
    ensures |SetValues(name, ops)| >= 2 ==>
      name in Run(h, ops) && Run(h, ops)[name] == Multi(SetValues(name, ops))
  {
    RunOnlySets(h, ops, name);
    RunWellFormedAt(h, ops, name);
    var r := Run(h, ops);
    if name in r {
      assert Lookup(r, name) == Some(r[name]);
      assert r[name].Multi? ==> |r[name].values| >= 2;
      assert Values(Lookup(h, name)) == [];
      assert Values(Some(r[name])) == SetValues(name, ops);
    }
  }

  /** Calls on distinct names give the same lookup for every name in either
      order. (The map has no key order, so this says nothing about the order
      in which names would be listed.) */
  lemma StepCommutes(h: Headers, a: HeaderOp, b: HeaderOp)
    requires a.name != b.name
    ensures Step(Step(h, a), b) == Step(Step(h, b), a)
  {
  }

  /** A replace or a remove discards whatever the previous call on the same
      name did. */
  lemma ResetAbsorbs(h: Headers, a: HeaderOp, b: HeaderOp)
    requires a.name == b.name && !b.Set?
    ensures Step(Step(h, a), b) == Step(h, b)
  {
  }

  /** Removing is idempotent, and removing an absent name changes nothing. */
  lemma RemoveIdempotent(h: Headers, name: string)
    ensures Step(Step(h, Remove(name)), Remove(name)) == Step(h, Remove(name))
    ensures name !in h ==> Step(h, Remove(name)) == h
  {
  }
}
