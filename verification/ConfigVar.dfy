/**
 One configuration variable and its change listeners (mocker/config.h, `ConfigVar`), used by one
 thread at a time. A listener may throw; it may not call back into the variable.
 */
module ConfigVariable {
  import opened Common

  /** One invocation of a callback. */
  datatype Call<V> = Call(id: nat, was: V, now: V)

  /** A variable: `m_val`, the keys of `m_cbs` in map order, and all invocations so far. */
  datatype Var<V> = Var(val: V, cbs: seq<nat>, calls: seq<Call<V>>)

  /** Whether the callback with this key throws for this pair of values. */
  type Throws<!V> = (nat, V, V) -> bool

  // ---------- setValue ----------

  predicate SomeThrows<V>(cbs: seq<nat>, was: V, now: V, throws: Throws<V>) {
    exists k :: 0 <= k < |cbs| && throws(cbs[k], was, now)
  }

  /** The invocations of one change: in key order, up to the first callback that throws. */
  function Notify<V>(cbs: seq<nat>, was: V, now: V, throws: Throws<V>): seq<Call<V>> {
    if cbs == [] then []
    else [Call(cbs[0], was, now)] + if throws(cbs[0], was, now) then [] else Notify(cbs[1..], was, now, throws)
  }

  function SetTo<V(==)>(s: Var<V>, v: V, throws: Throws<V>): Var<V> {
    if v == s.val then s
    else Var(if SomeThrows(s.cbs, s.val, v, throws) then s.val else v, s.cbs,
             s.calls + Notify(s.cbs, s.val, v, throws))
  }

  /** What a listener that copies the new value would hold, or nothing if it ever saw a gap. */
  function Walk<V(==)>(calls: seq<Call<V>>, id: nat, cur: V): Option<V> {
    if calls == [] then Some(cur)
    else if calls[0].id != id then Walk(calls[1..], id, cur)
    else if calls[0].was != cur then None
    else Walk(calls[1..], id, calls[0].now)
  }

  lemma {:induction false} WalkConcat<V>(a: seq<Call<V>>, b: seq<Call<V>>, id: nat, cur: V)
    ensures Walk(a + b, id, cur) == if Walk(a, id, cur).None? then None else Walk(b, id, Walk(a, id, cur).value)
    decreases |a|
  {
    if a == [] {
      assert a + b == b;
    } else {
      assert (a + b)[1..] == a[1..] + b;
      if a[0].id != id { WalkConcat(a[1..], b, id, cur); }
      else if a[0].was == cur { WalkConcat(a[1..], b, id, a[0].now); }
    }
  }

  predicate Ascending(cbs: seq<nat>) {
    forall j, k :: 0 <= j < k < |cbs| ==> cbs[j] < cbs[k]
  }

  /** The listener is reached before any callback throws. */
  predicate WasCalled<V>(cbs: seq<nat>, was: V, now: V, throws: Throws<V>, id: nat) {
    cbs != [] && (cbs[0] == id || (!throws(cbs[0], was, now) && WasCalled(cbs[1..], was, now, throws, id)))
  }

  lemma {:induction false} NotListed<V>(cbs: seq<nat>, was: V, now: V, throws: Throws<V>, id: nat, cur: V)
    requires id !in cbs
    ensures Walk(Notify(cbs, was, now, throws), id, cur) == Some(cur)
    ensures !WasCalled(cbs, was, now, throws, id)
    decreases |cbs|
  {
    if cbs != [] && !throws(cbs[0], was, now) {
      NotListed(cbs[1..], was, now, throws, id, cur);
    }
  }

  /** One change moves a listener to the new value if it was called, and leaves it where it was if not. */
  lemma {:induction false} WalkNotify<V>(cbs: seq<nat>, was: V, now: V, throws: Throws<V>, id: nat)
    requires Ascending(cbs)
    ensures Walk(Notify(cbs, was, now, throws), id, was) ==
            Some(if WasCalled(cbs, was, now, throws, id) then now else was)
    decreases |cbs|
  {
    if cbs != [] {
      var rest := cbs[1..];
      if cbs[0] == id {
        assert id !in rest;
        if !throws(cbs[0], was, now) { NotListed(rest, was, now, throws, id, now); }
      } else if !throws(cbs[0], was, now) {
        WalkNotify(rest, was, now, throws, id);
      }
    }
  }

  lemma {:induction false} AllCalled<V>(cbs: seq<nat>, was: V, now: V, throws: Throws<V>, id: nat)
    requires !SomeThrows(cbs, was, now, throws)
    ensures WasCalled(cbs, was, now, throws, id) <==> id in cbs
    decreases |cbs|
  {
    if cbs != [] {
      forall k | 0 <= k < |cbs[1..]| ensures !throws(cbs[1..][k], was, now) { assert cbs[k + 1] == cbs[1..][k]; }
      AllCalled(cbs[1..], was, now, throws, id);
    }
  }

  // ---------- A change, told without the recursion ----------

  /** One call of each of these callbacks, in order. */
  function CallEach<V>(cbs: seq<nat>, was: V, now: V): seq<Call<V>> {
    seq(|cbs|, k requires 0 <= k < |cbs| => Call(cbs[k], was, now))
  }

  /** The first callback that throws has index `n`. */
  predicate FirstThrow<V>(cbs: seq<nat>, was: V, now: V, throws: Throws<V>, n: nat) {
    n < |cbs| && throws(cbs[n], was, now) && forall k :: 0 <= k < n ==> !throws(cbs[k], was, now)
  }

  /**
   `t` is `s` after `setValue(v)`: an equal value changes nothing; if no callback throws then all are called
   and the value is written; if one throws, it and those before it are called and the old value stays.
   */
  ghost predicate Changed<V>(s: Var<V>, t: Var<V>, v: V, throws: Throws<V>) {
    && (v == s.val ==> t == s)
    && (v != s.val && (forall k :: 0 <= k < |s.cbs| ==> !throws(s.cbs[k], s.val, v)) ==>
          t == Var(v, s.cbs, s.calls + CallEach(s.cbs, s.val, v)))
    && (forall n: nat :: v != s.val && FirstThrow(s.cbs, s.val, v, throws, n) ==>
                           t == Var(s.val, s.cbs, s.calls + CallEach(s.cbs[..n + 1], s.val, v)))
  }

  /** `t` is `s` after `fromString(text)`. */
  ghost predicate Takes<V>(s: Var<V>, t: Var<V>, text: string, convert: string -> Option<V>, throws: Throws<V>) {
    match convert(text)
    case None => t == s
    case Some(v) => Changed(s, t, v, throws)
  }

  lemma {:induction false} NotifyAll<V>(cbs: seq<nat>, was: V, now: V, throws: Throws<V>)
    requires forall k :: 0 <= k < |cbs| ==> !throws(cbs[k], was, now)
    ensures Notify(cbs, was, now, throws) == CallEach(cbs, was, now)
    decreases |cbs|
  {
    if cbs != [] {
      NotifyAll(cbs[1..], was, now, throws);
    }
  }

  lemma {:induction false} NotifyUpTo<V>(cbs: seq<nat>, was: V, now: V, throws: Throws<V>, n: nat)
    requires FirstThrow(cbs, was, now, throws, n)
    ensures Notify(cbs, was, now, throws) == CallEach(cbs[..n + 1], was, now)
    decreases n
  {
    if n > 0 {
      assert cbs[1..][..n] == cbs[1..n + 1];
      assert !throws(cbs[0], was, now);
      NotifyUpTo(cbs[1..], was, now, throws, n - 1);
    }
  }

  lemma SetChanges<V>(s: Var<V>, v: V, throws: Throws<V>)
    ensures Changed(s, SetTo(s, v, throws), v, throws)
  {
    var t := SetTo(s, v, throws);
    if forall k :: 0 <= k < |s.cbs| ==> !throws(s.cbs[k], s.val, v) {
      NotifyAll(s.cbs, s.val, v, throws);
    }
    forall n: nat | v != s.val && FirstThrow(s.cbs, s.val, v, throws, n)
      ensures t == Var(s.val, s.cbs, s.calls + CallEach(s.cbs[..n + 1], s.val, v))
    {
      NotifyUpTo(s.cbs, s.val, v, throws, n);
    }
  }

  // ---------- Runs ----------

  /** Calls on one variable; `AddElsewhere` is a registration on another variable of the same type. */
  datatype Op<V> = Set(v: V) | Add | Del(key: nat) | Clear | AddElsewhere

  /** `last` is the static counter of listener ids; `born` the value when each listener registered. */
  datatype Registry<V> = Registry(v: Var<V>, last: nat, born: map<nat, V>)

  function Without(cbs: seq<nat>, key: nat): (r: seq<nat>)
    ensures forall id :: id in r <==> id in cbs && id != key
  {
    if cbs == [] then []
    else if cbs[0] == key then Without(cbs[1..], key)
    else [cbs[0]] + Without(cbs[1..], key)
  }

  function Step<V(==)>(r: Registry<V>, op: Op<V>, throws: Throws<V>): Registry<V> {
    match op
    case Set(v) => r.(v := SetTo(r.v, v, throws))
    case Add => Registry(r.v.(cbs := r.v.cbs + [r.last + 1]), r.last + 1, r.born[r.last + 1 := r.v.val])
    case Del(key) => r.(v := r.v.(cbs := Without(r.v.cbs, key)))
    case Clear => r.(v := r.v.(cbs := []))
    case AddElsewhere => r.(last := r.last + 1)
  }

  function RunOps<V(==)>(r: Registry<V>, ops: seq<Op<V>>, throws: Throws<V>): Registry<V>
    decreases |ops|
  {
    if ops == [] then r else RunOps(Step(r, ops[0], throws), ops[1..], throws)
  }

  /** The listener holds what `getValue()` returns. */
  predicate InStep<V(==)>(r: Registry<V>, id: nat)
    requires id in r.born
  {
    Walk(r.v.calls, id, r.born[id]) == Some(r.v.val)
  }

  /** Ids and registrations in order; every listener there ever was saw an unbroken chain of changes. */
  ghost predicate RegistryOk<V>(r: Registry<V>) {
    && Ascending(r.v.cbs)
    && (forall id :: id in r.v.cbs ==> id in r.born)
    && (forall id :: id in r.born ==> id <= r.last && Walk(r.v.calls, id, r.born[id]).Some?)
    && (forall k :: 0 <= k < |r.v.calls| ==> r.v.calls[k].id <= r.last)
  }

  ghost predicate AllInStep<V>(r: Registry<V>) {
    forall id :: id in r.v.cbs && id in r.born ==> InStep(r, id)
  }

  /** No callback throws on the change this operation makes, if it makes one. */
  predicate Quietly<V(==)>(r: Registry<V>, op: Op<V>, throws: Throws<V>) {
    op.Set? && op.v != r.v.val ==> !SomeThrows(r.v.cbs, r.v.val, op.v, throws)
  }

  lemma {:induction false} WithoutAscending(cbs: seq<nat>, key: nat)
    requires Ascending(cbs)
    ensures Ascending(Without(cbs, key))
    decreases |cbs|
  {
    if cbs != [] {
      WithoutAscending(cbs[1..], key);
      var r := Without(cbs[1..], key);
      forall k | 0 <= k < |r| ensures cbs[0] < r[k] { assert r[k] in cbs[1..]; }
    }
  }

  /** A change keeps every chain, and leaves all live listeners in step exactly if no callback throws. */
  lemma SetStep<V>(r: Registry<V>, v: V, throws: Throws<V>)
    requires RegistryOk(r) && AllInStep(r)
    ensures RegistryOk(Step(r, Set(v), throws))
    ensures AllInStep(Step(r, Set(v), throws)) <==> Quietly(r, Set(v), throws)
  {
    if v != r.v.val {
      var t := Step(r, Set(v), throws);
      var added := Notify(r.v.cbs, r.v.val, v, throws);
      NotifyIds(r.v.cbs, r.v.val, v, throws);
      forall id | id in r.born ensures Walk(t.v.calls, id, r.born[id]) == LaterValue(r, v, throws, id)
      { LaterWalk(r, v, throws, id); }
      if SomeThrows(r.v.cbs, r.v.val, v, throws) {
        assert r.v.cbs[0] in r.v.cbs && WasCalled(r.v.cbs, r.v.val, v, throws, r.v.cbs[0]);
        assert !InStep(t, r.v.cbs[0]);
      } else {
        forall id | id in t.v.cbs ensures InStep(t, id) { AllCalled(r.v.cbs, r.v.val, v, throws, id); }
      }
    }
  }

  function LaterValue<V(==)>(r: Registry<V>, v: V, throws: Throws<V>, id: nat): Option<V>
    requires id in r.born
  {
    if WasCalled(r.v.cbs, r.v.val, v, throws, id) then Some(v) else Walk(r.v.calls, id, r.born[id])
  }

  lemma LaterWalk<V>(r: Registry<V>, v: V, throws: Throws<V>, id: nat)
    requires RegistryOk(r) && AllInStep(r) && v != r.v.val && id in r.born
    ensures Walk(Step(r, Set(v), throws).v.calls, id, r.born[id]) == LaterValue(r, v, throws, id)
  {
    var added := Notify(r.v.cbs, r.v.val, v, throws);
    WalkConcat(r.v.calls, added, id, r.born[id]);
    if id in r.v.cbs {
      assert InStep(r, id);
      WalkNotify(r.v.cbs, r.v.val, v, throws, id);
    } else {
      NotListed(r.v.cbs, r.v.val, v, throws, id, Walk(r.v.calls, id, r.born[id]).value);
    }
  }

  lemma {:induction false} NotifyIds<V>(cbs: seq<nat>, was: V, now: V, throws: Throws<V>)
    ensures forall k :: 0 <= k < |Notify(cbs, was, now, throws)| ==> Notify(cbs, was, now, throws)[k].id in cbs
    decreases |cbs|
  {
    if cbs != [] && !throws(cbs[0], was, now) {
      NotifyIds(cbs[1..], was, now, throws);
    }
  }

  lemma {:induction false} NoCallsYet<V>(calls: seq<Call<V>>, id: nat, cur: V)
    requires forall k :: 0 <= k < |calls| ==> calls[k].id != id
    ensures Walk(calls, id, cur) == Some(cur)
    decreases |calls|
  {
    if calls != [] { NoCallsYet(calls[1..], id, cur); }
  }

  lemma OtherStep<V>(r: Registry<V>, op: Op<V>, throws: Throws<V>)
    requires RegistryOk(r) && AllInStep(r) && !op.Set?
    ensures RegistryOk(Step(r, op, throws)) && AllInStep(Step(r, op, throws))
    ensures op.Add? ==> r.last + 1 !in r.born
  {
    var t := Step(r, op, throws);
    match op
    case Add =>
      NoCallsYet(r.v.calls, r.last + 1, r.v.val);
      forall k | 0 <= k < |r.v.cbs| ensures r.v.cbs[k] <= r.last { assert r.v.cbs[k] in r.v.cbs; }
      forall id | id in t.v.cbs && id in t.born ensures InStep(t, id) { assert id in r.v.cbs ==> InStep(r, id); }
    case Del(key) => WithoutAscending(r.v.cbs, key);
    forall id | id in t.v.cbs && id in t.born ensures InStep(t, id) { assert InStep(r, id); }
    case Clear =>
    case AddElsewhere =>
      forall id | id in t.v.cbs && id in t.born ensures InStep(t, id) { assert InStep(r, id); }
  }

  ghost predicate QuietRun<V>(r: Registry<V>, ops: seq<Op<V>>, throws: Throws<V>)
    decreases |ops|
  {
    ops == [] || (Quietly(r, ops[0], throws) && QuietRun(Step(r, ops[0], throws), ops[1..], throws))
  }

  /**
   Over any run in which no callback throws, every listener sees a chain without gaps from the value at
   its registration, ids are never given twice, and live listeners agree with `getValue()`.
   */
  lemma {:induction false} ListenerMirror<V>(r: Registry<V>, ops: seq<Op<V>>, throws: Throws<V>)
    requires RegistryOk(r) && AllInStep(r) && QuietRun(r, ops, throws)
    ensures RegistryOk(RunOps(r, ops, throws)) && AllInStep(RunOps(r, ops, throws))
    ensures r.born.Keys <= RunOps(r, ops, throws).born.Keys
    ensures forall id :: id in r.born ==> RunOps(r, ops, throws).born[id] == r.born[id]
    decreases |ops|
  {
    if ops != [] {
      match ops[0]
      case Set(v) => SetStep(r, v, throws); ListenerMirror(Step(r, ops[0], throws), ops[1..], throws);
      case _ => OtherStep(r, ops[0], throws); ListenerMirror(Step(r, ops[0], throws), ops[1..], throws);
    }
  }

  // ---------- The object ----------

  /** The static counter behind `addListener`, shared by all variables of one type. */
  class IdSource {
    var last: nat

    constructor ()
      ensures last == 0
    {
      last := 0;
    }
  }

  /** `fromString`: convert, then set; a failed conversion or a throwing callback is reported as false. */
  function FromText<V(==)>(s: Var<V>, text: string, convert: string -> Option<V>, throws: Throws<V>): Var<V> {
    match convert(text)
    case None => s
    case Some(v) => SetTo(s, v, throws)
  }

  /** The conversion succeeds and the value is written, or is there already. */
  predicate Writes<V(==)>(s: Var<V>, v: Option<V>, throws: Throws<V>) {
    v.Some? && (v.value == s.val || !SomeThrows(s.cbs, s.val, v.value, throws))
  }

  lemma NotifyNext<V>(cbs: seq<nat>, n: nat, was: V, now: V, throws: Throws<V>, before: seq<Call<V>>)
    requires n < |cbs|
    ensures before + Notify(cbs[n..], was, now, throws) ==
            before + [Call(cbs[n], was, now)] +
            if throws(cbs[n], was, now) then [] else Notify(cbs[n + 1..], was, now, throws)
  {
    assert cbs[n..][0] == cbs[n] && cbs[n..][1..] == cbs[n + 1..];
  }

  class ConfigVar<V(==)> {
    const name: string
    const typeName: string
    const convert: string -> Option<V>
    const throws: Throws<V>
    var val: V
    var cbs: seq<nat>
    var calls: seq<Call<V>>

    constructor (name: string, typeName: string, value: V, convert: string -> Option<V>, throws: Throws<V>)
      ensures this.name == name && this.typeName == typeName && this.convert == convert && this.throws == throws
      ensures State() == Var(value, [], [])
    {
      this.name, this.typeName, this.convert, this.throws := name, typeName, convert, throws;
      val, cbs, calls := value, [], [];
    }

    function State(): Var<V>
      reads this
    {
      Var(val, cbs, calls)
    }

    method GetValue() returns (v: V)
      ensures v == val
    {
      v := val;
    }

    /** `thrown` says that a callback threw, so that the value was not written. */
    method SetValue(v: V) returns (thrown: bool)
      modifies this
      ensures State() == SetTo(old(State()), v, throws) && Changed(old(State()), State(), v, throws)
      ensures thrown <==> v != old(val) && SomeThrows(old(cbs), old(val), v, throws)
      ensures val == if thrown then old(val) else v
    {
      SetChanges(State(), v, throws);
      if v == val {
        return false;
      }
      var n := 0;
      while n < |cbs|
        invariant 0 <= n <= |cbs| && cbs == old(cbs) && val == old(val)
        invariant calls + Notify(cbs[n..], val, v, throws) == old(calls) + Notify(cbs, val, v, throws)
        invariant forall k :: 0 <= k < n ==> !throws(cbs[k], val, v)
      {
        NotifyNext(cbs, n, val, v, throws, calls);
        calls := calls + [Call(cbs[n], val, v)];
        if throws(cbs[n], val, v) {
          return true;
        }
        n := n + 1;
      }
      val := v;
      thrown := false;
    }

    method FromString(text: string) returns (ok: bool)
      modifies this
      ensures State() == FromText(old(State()), text, convert, throws)
      ensures ok <==> Writes(old(State()), convert(text), throws)
      ensures Takes(old(State()), State(), text, convert, throws)
      ensures ok <==> convert(text).Some? && val == convert(text).value
    {
      match convert(text) {
        case None => ok := false;
        case Some(v) =>
          var thrown := SetValue(v);
          ok := !thrown;
      }
    }

    /** The new key is larger than all others, so it comes last in the map. */
    method AddListener(ids: IdSource) returns (key: nat)
      modifies this, ids
      ensures key == ids.last == old(ids.last) + 1
      ensures State() == Step(Registry(old(State()), old(ids.last), map[]), Add, throws).v
      ensures cbs == old(cbs) + [key] && val == old(val) && calls == old(calls)
    {
      ids.last := ids.last + 1;
      key := ids.last;
      cbs := cbs + [key];
    }

    method DelListener(key: nat)
      modifies this
      ensures State() == Step(Registry(old(State()), 0, map[]), Del(key), throws).v
      ensures val == old(val) && calls == old(calls) && forall id :: id in cbs <==> id in old(cbs) && id != key
      ensures Ascending(old(cbs)) ==> Ascending(cbs)
    {
      if Ascending(cbs) { WithoutAscending(cbs, key); }
      var kept: seq<nat> := [];
      var n := 0;
      while n < |cbs|
        invariant 0 <= n <= |cbs| && cbs == old(cbs) && calls == old(calls) && val == old(val)
        invariant kept + Without(cbs[n..], key) == Without(cbs, key)
      {
        assert cbs[n..][1..] == cbs[n + 1..];
        if cbs[n] != key {
          kept := kept + [cbs[n]];
        }
        n := n + 1;
      }
      cbs := kept;
    }

    method ClearListener()
      modifies this
      ensures State() == Step(Registry(old(State()), 0, map[]), Clear, throws).v
      ensures cbs == [] && val == old(val) && calls == old(calls)
    {
      cbs := [];
    }
  }
}
