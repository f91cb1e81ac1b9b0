/** The registry's snapshot, its reconstruction, and the registry object itself. */
module ModelSnapshot {
  import opened Common
  import opened ModelRegistry

  /** Code-point order of keys. */
  predicate Less(a: string, b: string)
    decreases |a|
  {
    if b == [] then false
    else if a == [] then true
    else if a[0] != b[0] then a[0] < b[0]
    else Less(a[1..], b[1..])
  }

  lemma {:induction false} LessTotal(a: string, b: string)
    ensures Less(a, b) || Less(b, a) || a == b
    ensures !(Less(a, b) && Less(b, a)) && !Less(a, a)
    decreases |a|
  {
    if a != [] && b != [] && a[0] == b[0] {
      LessTotal(a[1..], b[1..]);
      assert a == [a[0]] + a[1..] && b == [b[0]] + b[1..];
    }
    if a != [] { LessTotal(a[1..], a[1..]); }
  }

  lemma {:induction false} LessTransitive(a: string, b: string, c: string)
    requires Less(a, b) && Less(b, c)
    ensures Less(a, c)
    decreases |a|
  {
    if a != [] && a[0] == b[0] == c[0] { LessTransitive(a[1..], b[1..], c[1..]); }
  }

  /** The models by ascending key, and the transitions as recorded. */
  datatype Body = Body(models: seq<Definition>, transitions: seq<Transition>)

  /** `parses` is whether every entry has the expected fields and each definition satisfies its own checks. */
  datatype Payload = Payload(parses: bool, models: seq<Definition>, transitions: seq<Transition>, hash: Body)

  predicate Describes(b: Body, r: Registry) {
    && (forall i, j :: 0 <= i < j < |b.models| ==> Less(KeyOf(b.models[i]), KeyOf(b.models[j])))
    && (forall i :: 0 <= i < |b.models| ==> KeyOf(b.models[i]) in r.models && r.models[KeyOf(b.models[i])] == b.models[i])
    && (forall k :: k in r.models ==> r.models[k] in b.models)
    && b.transitions == r.transitions
  }

  /** The payload of a registry. */
  predicate Shows(p: Payload, r: Registry) {
    p.parses && Describes(p.hash, r) && p.models == p.hash.models && p.transitions == p.hash.transitions
  }

  function Fresh(d: Definition): Definition { d.(status := Development) }

  function RegisterAll(ds: seq<Definition>): Result<Registry, Refusal>
    decreases |ds|
  {
    if ds == [] then Ok(Registry(map[], []))
    else
      var r := RegisterAll(ds[..|ds| - 1]);
      if r.Err? then r else Registered(r.value, Fresh(ds[|ds| - 1]))
  }

  function MoveOne(r: Registry, t: Transition): Result<Registry, Refusal> {
    Moved(r, t.key, t.to, t.at, t.reason, t.evidence)
  }

  function MoveAll(r: Registry, ts: seq<Transition>): Result<Registry, Refusal>
    decreases |ts|
  {
    if ts == [] then Ok(r)
    else
      var s := MoveAll(r, ts[..|ts| - 1]);
      if s.Err? then s else MoveOne(s.value, ts[|ts| - 1])
  }

  /** `from_payload`: all models first, then the transitions in order, then the comparison with the snapshot. */
  function Rebuilt(p: Payload): Result<Registry, Refusal> {
    if !p.parses || RegisterAll(p.models).Err? then Err(SnapshotInvalid)
    else
      var r := MoveAll(RegisterAll(p.models).value, p.transitions);
      if r.Err? || !Shows(p, r.value) then Err(SnapshotInvalid) else r
  }

  // ------------------------------------------------------------------- registering first, moving afterwards

  function Base(models: map<string, Definition>): map<string, Definition> {
    map k | k in models :: Fresh(models[k])
  }

  /** Moves never mention a model outside the registry, so one more model changes nothing for them. */
  lemma {:induction false} MoveAllFrame(r: Registry, ts: seq<Transition>, key: string, d: Definition)
    requires key !in r.models && MoveAll(r, ts).Ok?
    ensures var s := MoveAll(r, ts).value;
            && key !in s.models
            && MoveAll(r.(models := r.models[key := d]), ts) == Ok(s.(models := s.models[key := d]))
    decreases |ts|
  {
    if ts != [] {
      var init, t := ts[..|ts| - 1], ts[|ts| - 1];
      MoveAllFrame(r, init, key, d);
      MoveOneFrame(MoveAll(r, init).value, t, key, d);
    }
  }

  lemma MoveOneFrame(r: Registry, t: Transition, key: string, d: Definition)
    requires key !in r.models && MoveOne(r, t).Ok?
    ensures var s := MoveOne(r, t).value;
            key !in s.models && MoveOne(r.(models := r.models[key := d]), t) == Ok(s.(models := s.models[key := d]))
  {
    var s := MoveOne(r, t).value;
    var wide := r.(models := r.models[key := d]);
    assert t.key != key;
    assert wide.models[t.key := wide.models[t.key].(status := t.to)] == s.models[key := d];
  }

  /** The registry is what its transitions make of its models in development. */
  ghost predicate Replays(r: Registry) {
    MoveAll(Registry(Base(r.models), []), r.transitions) == Ok(r)
  }

  /** A move as one recorded transition that leaves the models' definitions alone. */
  lemma MovedShape(r: Registry, t: Transition)
    requires MoveOne(r, t).Ok? && t.from == r.models[t.key].status
    ensures MoveOne(r, t).value.transitions == r.transitions + [t]
    ensures Base(MoveOne(r, t).value.models) == Base(r.models)
  {
    var next := MoveOne(r, t).value;
    assert next.models == r.models[t.key := r.models[t.key].(status := t.to)];
    forall k | k in r.models ensures Fresh(next.models[k]) == Fresh(r.models[k]) {}
  }

  lemma MoveAllOne(r: Registry, ts: seq<Transition>, t: Transition)
    ensures MoveAll(r, ts + [t]) == if MoveAll(r, ts).Err? then MoveAll(r, ts) else MoveOne(MoveAll(r, ts).value, t)
  {
    assert (ts + [t])[..|ts|] == ts;
  }

  lemma MoveReplays(r: Registry, key: string, to: Status, at: int, reason: string, evidence: set<string>)
    requires Replays(r) && Moved(r, key, to, at, reason, evidence).Ok?
    ensures Replays(Moved(r, key, to, at, reason, evidence).value)
  {
    var t := Transition(key, r.models[key].status, to, at, reason, evidence);
    MovedShape(r, t);
    MoveAllOne(Registry(Base(r.models), []), r.transitions, t);
  }

  lemma RegisterReplays(r: Registry, d: Definition)
    requires Replays(r) && Registered(r, d).Ok?
    ensures Replays(Registered(r, d).value)
  {
    var key := KeyOf(d);
    if key in r.models {
      assert r.models[key := d] == r.models;
    } else {
      MoveAllFrame(Registry(Base(r.models), []), r.transitions, key, d);
      assert Base(r.models[key := d]) == Base(r.models)[key := d];
    }
  }

  lemma {:induction false} RunReplays(actions: seq<Action>)
    ensures Replays(Run(actions))
    decreases |actions|
  {
    if actions == [] {
      assert Base(map[]) == map[];
    } else {
      var r, a := Run(actions[..|actions| - 1]), actions[|actions| - 1];
      RunReplays(actions[..|actions| - 1]);
      match a
      case Register(d) => if Registered(r, d).Ok? { RegisterReplays(r, d); }
      case Move(key, to, at, reason, evidence) =>
        if Moved(r, key, to, at, reason, evidence).Ok? { MoveReplays(r, key, to, at, reason, evidence); }
    }
  }

  /** The listed models, in development. */
  ghost predicate Lists(models: map<string, Definition>, ds: seq<Definition>) {
    && (forall i :: 0 <= i < |ds| ==> KeyOf(ds[i]) in models && models[KeyOf(ds[i])] == Fresh(ds[i]))
    && (forall k :: k in models ==> exists i :: 0 <= i < |ds| && KeyOf(ds[i]) == k)
  }

  ghost predicate Distinct(ds: seq<Definition>) {
    forall i, j :: 0 <= i < j < |ds| ==> KeyOf(ds[i]) != KeyOf(ds[j])
  }

  ghost predicate Newcomer(ds: seq<Definition>, d: Definition) {
    forall i :: 0 <= i < |ds| ==> KeyOf(ds[i]) != KeyOf(d)
  }

  lemma DistinctInit(ds: seq<Definition>, d: Definition)
    requires Distinct(ds + [d])
    ensures Distinct(ds) && Newcomer(ds, d)
  {
    var all := ds + [d];
    assert all[..|ds|] == ds && all[|ds|] == d;
    forall i | 0 <= i < |ds| ensures KeyOf(ds[i]) != KeyOf(d) { assert KeyOf(all[i]) != KeyOf(all[|ds|]); }
    forall i, j | 0 <= i < j < |ds| ensures KeyOf(ds[i]) != KeyOf(ds[j]) { assert KeyOf(all[i]) != KeyOf(all[j]); }
  }

  /** `r` holds the listed models, all in development, and no transition. */
  ghost predicate Prepared(r: Result<Registry, Refusal>, ds: seq<Definition>) {
    r.Ok? && r.value.transitions == [] && Lists(r.value.models, ds)
  }

  lemma {:induction false} RegisterAllLists(ds: seq<Definition>)
    requires Distinct(ds)
    ensures Prepared(RegisterAll(ds), ds)
    decreases |ds|
  {
    if ds != [] {
      var init, last := ds[..|ds| - 1], ds[|ds| - 1];
      assert init + [last] == ds;
      DistinctInit(init, last);
      RegisterAllLists(init);
      PreparedOne(RegisterAll(init).value, init, last);
    }
  }

  lemma PreparedOne(r: Registry, init: seq<Definition>, last: Definition)
    requires Prepared(Ok(r), init) && Newcomer(init, last)
    ensures Prepared(Registered(r, Fresh(last)), init + [last])
  {
    ListsOne(r, init, last);
  }

  lemma ListsOne(r: Registry, init: seq<Definition>, last: Definition)
    requires Lists(r.models, init) && Newcomer(init, last)
    ensures Registered(r, Fresh(last)).Ok? && Registered(r, Fresh(last)).value.transitions == r.transitions
    ensures Lists(Registered(r, Fresh(last)).value.models, init + [last])
  {
    var key := KeyOf(last);
    assert KeyOf(Fresh(last)) == key;
    var ds, models := init + [last], r.models[key := Fresh(last)];
    forall k | k in models ensures exists i :: 0 <= i < |ds| && KeyOf(ds[i]) == k {
      if k == key {
        assert KeyOf(ds[|init|]) == k;
      } else {
        var i :| 0 <= i < |init| && KeyOf(init[i]) == k;
        assert KeyOf(ds[i]) == k;
      }
    }
  }

  /** Every snapshot of a reachable registry, however registrations and transitions were interleaved, rebuilds exactly
      that registry. */
  lemma RoundTrip(actions: seq<Action>, p: Payload)
    requires Shows(p, Run(actions))
    ensures Rebuilt(p) == Ok(Run(actions))
  {
    var r := Run(actions);
    assert forall k :: k in r.models ==> KeyOf(r.models[k]) == k by { RunKeepsInv(actions); }
    DistinctKeys(p.models);
    RegisterAllLists(p.models);
    ListedBase(p, r, RegisterAll(p.models).value.models);
    RunReplays(actions);
  }

  lemma DistinctKeys(ds: seq<Definition>)
    requires forall i, j :: 0 <= i < j < |ds| ==> Less(KeyOf(ds[i]), KeyOf(ds[j]))
    ensures Distinct(ds)
  {
    forall i, j | 0 <= i < j < |ds| ensures KeyOf(ds[i]) != KeyOf(ds[j]) { LessTotal(KeyOf(ds[i]), KeyOf(ds[i])); }
  }

  lemma ListedBase(p: Payload, r: Registry, models: map<string, Definition>)
    requires Shows(p, r) && Lists(models, p.models) && forall k :: k in r.models ==> KeyOf(r.models[k]) == k
    ensures models == Base(r.models)
  {
    forall k ensures k in models <==> k in r.models {
      if k in r.models {
        var i :| 0 <= i < |p.models| && p.models[i] == r.models[k];
        assert KeyOf(p.models[i]) in models;
      }
    }
    forall k | k in models ensures models[k] == Fresh(r.models[k]) {
      var i :| 0 <= i < |p.models| && KeyOf(p.models[i]) == k;
      assert models[k] == Fresh(p.models[i]) && r.models[k] == p.models[i];
    }
  }

  /** Reconstruction accepts nothing but snapshots of reachable registries. */
  lemma AcceptedIsReachable(p: Payload) returns (actions: seq<Action>)
    requires Rebuilt(p).Ok?
    ensures Run(actions) == Rebuilt(p).value && Shows(p, Run(actions))
  {
    var first := RegisteredByRun(p.models);
    actions := MovedByRun(first, p.transitions);
  }

  lemma {:induction false} RegisteredByRun(ds: seq<Definition>) returns (actions: seq<Action>)
    requires RegisterAll(ds).Ok?
    ensures Run(actions) == RegisterAll(ds).value
    decreases |ds|
  {
    actions := [];
    if ds != [] {
      var init := RegisteredByRun(ds[..|ds| - 1]);
      actions := init + [Register(Fresh(ds[|ds| - 1]))];
      RunOne(init, Register(Fresh(ds[|ds| - 1])));
    }
  }

  lemma {:induction false} MovedByRun(first: seq<Action>, ts: seq<Transition>) returns (actions: seq<Action>)
    requires MoveAll(Run(first), ts).Ok?
    ensures Run(actions) == MoveAll(Run(first), ts).value
    decreases |ts|
  {
    actions := first;
    if ts != [] {
      var t := ts[|ts| - 1];
      var init := MovedByRun(first, ts[..|ts| - 1]);
      actions := init + [Move(t.key, t.to, t.at, t.reason, t.evidence)];
      RunOne(init, Move(t.key, t.to, t.at, t.reason, t.evidence));
    }
  }

  // ------------------------------------------------------------------- the registry object

  lemma {:induction false} LeastKey(keys: set<string>) returns (least: string)
    requires keys != {}
    ensures least in keys && forall k :: k in keys ==> k == least || Less(least, k)
    decreases |keys|
  {
    var k :| k in keys;
    var rest := keys - {k};
    assert keys == {k} + rest;
    least := k;
    if rest != {} {
      var l := LeastKey(rest);
      LessTotal(k, l);
      if Less(k, l) {
        forall j | j in rest && j != l ensures Less(k, j) { LessTransitive(k, l, j); }
      } else {
        least := l;
      }
    }
  }

  method SortedKeys(all: set<string>) returns (keys: seq<string>)
    ensures forall i, j :: 0 <= i < j < |keys| ==> Less(keys[i], keys[j])
    ensures forall k :: k in keys <==> k in all
  {
    keys := [];
    var left := all;
    while left != {}
      invariant left <= all
      invariant forall i, j :: 0 <= i < j < |keys| ==> Less(keys[i], keys[j])
      invariant forall i, k :: 0 <= i < |keys| && k in left ==> Less(keys[i], k)
      invariant forall k :: k in all <==> k in left || k in keys
      decreases |left|
    {
      ghost var least := LeastKey(left);
      var k :| k in left && forall j :: j in left ==> j == k || Less(k, j);
      keys, left := keys + [k], left - {k};
    }
  }

  function InOrder(models: map<string, Definition>, keys: seq<string>): seq<Definition>
    requires forall k :: k in keys ==> k in models
  {
    seq(|keys|, i requires 0 <= i < |keys| => assert keys[i] in keys; models[keys[i]])
  }

  lemma DescribesInOrder(r: Registry, keys: seq<string>)
    requires forall k :: k in r.models ==> KeyOf(r.models[k]) == k
    requires forall k :: k in keys <==> k in r.models
    requires forall i, j :: 0 <= i < j < |keys| ==> Less(keys[i], keys[j])
    ensures Describes(Body(InOrder(r.models, keys), r.transitions), r)
  {
    var listed := InOrder(r.models, keys);
    forall i | 0 <= i < |keys| ensures KeyOf(listed[i]) == keys[i] && keys[i] in r.models { assert keys[i] in keys; }
    forall k | k in r.models ensures r.models[k] in listed {
      var i :| 0 <= i < |keys| && keys[i] == k;
      assert listed[i] == r.models[k];
    }
  }

  lemma {:induction false} RegisterAllRefused(ds: seq<Definition>, n: nat)
    requires n <= |ds| && RegisterAll(ds[..n]).Err?
    ensures RegisterAll(ds).Err?
    decreases |ds|
  {
    if n == |ds| {
      assert ds[..n] == ds;
    } else {
      assert ds[..|ds| - 1][..n] == ds[..n];
      RegisterAllRefused(ds[..|ds| - 1], n);
    }
  }

  lemma {:induction false} MoveAllRefused(r: Registry, ts: seq<Transition>, n: nat)
    requires n <= |ts| && MoveAll(r, ts[..n]).Err?
    ensures MoveAll(r, ts).Err?
    decreases |ts|
  {
    if n == |ts| {
      assert ts[..n] == ts;
    } else {
      assert ts[..|ts| - 1][..n] == ts[..n];
      MoveAllRefused(r, ts[..|ts| - 1], n);
    }
  }

  class RegistryObject {
    var models: map<string, Definition>
    var transitions: seq<Transition>

    function View(): Registry
      reads this
    {
      Registry(models, transitions)
    }

    constructor ()
      ensures View() == Registry(map[], [])
    {
      models, transitions := map[], [];
    }

    method RegisterModel(d: Definition) returns (res: Result<(), Refusal>)
      modifies this
      ensures res.Ok? ==> Registered(old(View()), d) == Ok(View())
      ensures res.Err? ==> Registered(old(View()), d) == Err(res.reason) && View() == old(View())
      ensures var key := d.id + ['@'] + d.version;
              && (res.Ok? <==> d.status == Development && (key in old(models) ==> old(models)[key] == d))
              && (res.Ok? ==> models == old(models)[key := d] && transitions == old(transitions))
    {
      if !d.status.Development? { return Err(MustStartInDevelopment); }
      if KeyOf(d) in models && models[KeyOf(d)] != d { return Err(DefinitionConflict); }
      models := models[KeyOf(d) := d];
      res := Ok(());
    }

    /** When the key's latest transition took effect, if it has one. */
    method LatestTime(key: string) returns (at: Option<int>)
      ensures at == LastAt(transitions, key)
    {
      at := None;
      for i := 0 to |transitions|
        invariant at == LastAt(transitions[..i], key)
      {
        assert transitions[..i + 1][..i] == transitions[..i];
        if transitions[i].key == key { at := Some(transitions[i].at); }
      }
      assert transitions[..|transitions|] == transitions;
    }

    method MoveModel(key: string, to: Status, at: int, reason: string, evidence: set<string>)
      returns (res: Result<Definition, Refusal>)
      modifies this
      ensures res.Ok? ==> Moved(old(View()), key, to, at, reason, evidence) == Ok(View())
      ensures res.Ok? ==> key in models && res.value == models[key]
      ensures res.Ok? ==> && key in old(models) && models == old(models)[key := old(models)[key].(status := to)]
                          && transitions == old(transitions) +
                               [Transition(key, old(models)[key].status, to, at, reason, evidence)]
      ensures res.Err? ==> Moved(old(View()), key, to, at, reason, evidence) == Err(res.reason) && View() == old(View())
    {
      if key !in models { return Err(NotRegistered); }
      var current := models[key];
      if !Allowed(current.status, to) { return Err(LifecycleInvalid); }
      if Blank(key) || !Evidenced(reason, evidence) { return Err(TransitionInvalid); }
      if !to.Development? && !to.Retired? && Day(at) < current.validationDay { return Err(BeforeValidation); }
      var latest := LatestTime(key);
      if latest.Some? && at < latest.value { return Err(TimeReversed); }
      var updated := current.(status := to);
      models := models[key := updated];
      transitions := transitions + [Transition(key, current.status, to, at, reason, evidence)];
      res := Ok(updated);
    }

    /** The loop of `status_at`. */
    method StatusAsOf(key: string, at: int) returns (res: Result<Status, Refusal>)
      ensures res == if key !in models then Err(NotRegistered) else StatusAt(transitions, key, at)
    {
      if key !in models { return Err(NotRegistered); }
      var status := Development;
      for i := 0 to |transitions|
        invariant StatusAt(transitions[..i], key, at) == Ok(status)
      {
        var t := transitions[i];
        assert transitions[..i + 1][..i] == transitions[..i];
        if t.key != key || t.at > at { continue; }
        if t.from != status {
          StatusRefused(transitions, key, at, i + 1);
          return Err(HistoryInvalid);
        }
        status := t.to;
      }
      assert transitions[..|transitions|] == transitions;
      res := Ok(status);
    }

    method Authorize(key: string, scope: Scope, at: int) returns (res: Result<(), Refusal>)
      ensures res == Authorized(View(), key, scope, at)
      ensures res.Ok? <==> && key in models && StatusAt(transitions, key, at) == Ok(Active) && scope in models[key].scopes
                           && models[key].validationDay <= Day(at) <= models[key].reviewDay
    {
      if key !in models { return Err(NotRegistered); }
      var status := StatusAsOf(key, at);
      if status.Err? { return Err(status.reason); }
      if !status.value.Active? { return Err(NotActive); }
      if scope !in models[key].scopes { return Err(ScopeNotApproved); }
      if Day(at) < models[key].validationDay { return Err(NotYetValidated); }
      if Day(at) > models[key].reviewDay { return Err(ReviewOverdue); }
      res := Ok(());
    }

    /** The payload, listing the models by ascending key. */
    method ToPayload() returns (p: Payload)
      requires forall k :: k in models ==> KeyOf(models[k]) == k
      ensures Shows(p, View())
    {
      var keys := SortedKeys(models.Keys);
      var listed := InOrder(models, keys);
      p := Payload(true, listed, transitions, Body(listed, transitions));
      DescribesInOrder(View(), keys);
    }

    /** The loop over the snapshot's transitions; the state after a refusal is abandoned by the caller. */
    method MoveEach(ts: seq<Transition>) returns (ok: bool)
      modifies this
      ensures ok ==> MoveAll(old(View()), ts) == Ok(View())
      ensures !ok ==> MoveAll(old(View()), ts).Err?
    {
      for i := 0 to |ts|
        invariant MoveAll(old(View()), ts[..i]) == Ok(View())
      {
        var t := ts[i];
        assert ts[..i + 1][..i] == ts[..i];
        var done := MoveModel(t.key, t.to, t.at, t.reason, t.evidence);
        if done.Err? {
          MoveAllRefused(old(View()), ts, i + 1);
          return false;
        }
      }
      assert ts[..|ts|] == ts;
      ok := true;
    }

    method RegisterEach(ds: seq<Definition>) returns (ok: bool)
      requires View() == Registry(map[], [])
      modifies this
      ensures ok ==> RegisterAll(ds) == Ok(View())
      ensures !ok ==> RegisterAll(ds).Err?
    {
      for i := 0 to |ds|
        invariant RegisterAll(ds[..i]) == Ok(View())
      {
        assert ds[..i + 1][..i] == ds[..i];
        var done := RegisterModel(Fresh(ds[i]));
        if done.Err? {
          RegisterAllRefused(ds, i + 1);
          return false;
        }
      }
      assert ds[..|ds|] == ds;
      ok := true;
    }

    static method FromPayload(p: Payload) returns (res: Result<RegistryObject, Refusal>)
      ensures res.Ok? ==> fresh(res.value) && Rebuilt(p) == Ok(res.value.View())
      ensures res.Err? ==> Rebuilt(p) == Err(res.reason)
    {
      if !p.parses { return Err(SnapshotInvalid); }
      var registry := new RegistryObject();
      var registered := registry.RegisterEach(p.models);
      if !registered { return Err(SnapshotInvalid); }
      var moved := registry.MoveEach(p.transitions);
      if !moved { return Err(SnapshotInvalid); }
      if !Shows(p, registry.View()) { return Err(SnapshotInvalid); }
      res := Ok(registry);
    }
  }

  lemma {:induction false} StatusRefused(ts: seq<Transition>, key: string, at: int, n: nat)
    requires n <= |ts| && StatusAt(ts[..n], key, at).Err?
    ensures StatusAt(ts, key, at) == StatusAt(ts[..n], key, at)
    decreases |ts|
  {
    if n == |ts| {
      assert ts[..n] == ts;
    } else {
      assert ts[..|ts| - 1][..n] == ts[..n];
      StatusRefused(ts[..|ts| - 1], key, at, n);
    }
  }
}
