/** The tool registry and the per-scan cache over it (operator/internal/engine/tool/registry.go
    and cache.go). Tools read a cluster that may change between any two executions, so a tool
    is a function of the moment it runs at and of its parameters. */
module ToolCache {
  import opened GoTypes

  datatype Definition = Definition(name: string, description: string)

  datatype Tool = Tool(def: Definition, fn: (nat, string) -> Result<string>)

  /** The tools that are registered and the digest that turns a key text into a cache key. */
  datatype ToolBox = ToolBox(tools: map<string, Tool>, digest: string -> string)

  datatype ToolCall = ToolCall(name: string, params: string)

  /** One answered call; executed tells a cache hit from a run of the tool. */
  datatype Served = Served(call: ToolCall, outcome: Result<string>, executed: bool)

  /** A scan's cache, the moment of the next execution, and all calls answered so far. */
  datatype Desk = Desk(cache: map<string, string>, moment: nat, log: seq<Served>)

  function Execute(tools: map<string, Tool>, moment: nat, call: ToolCall): Result<string> {
    if call.name !in tools then Err("tool not found: " + call.name)
    else tools[call.name].fn(moment, call.params)
  }

  function KeyText(call: ToolCall): string {
    call.name + "|" + call.params
  }

  function Key(box: ToolBox, call: ToolCall): string {
    box.digest(KeyText(call))
  }

  function Answer(box: ToolBox, d: Desk, call: ToolCall): Served {
    if Key(box, call) in d.cache then Served(call, Ok(d.cache[Key(box, call)]), false)
    else Served(call, Execute(box.tools, d.moment, call), true)
  }

  function Serve(box: ToolBox, d: Desk, call: ToolCall): Desk {
    var s := Answer(box, d, call);
    Desk(if s.executed && s.outcome.Ok? then d.cache[Key(box, call) := s.outcome.value] else d.cache,
         if s.executed then d.moment + 1 else d.moment,
         d.log + [s])
  }

  function NewDesk(moment: nat): Desk {
    Desk(map[], moment, [])
  }

  function ServeAll(box: ToolBox, start: nat, calls: seq<ToolCall>): (d: Desk)
    ensures |d.log| == |calls|
    ensures forall i | 0 <= i < |calls| :: d.log[i].call == calls[i]
  {
    if calls == [] then NewDesk(start)
    else Serve(box, ServeAll(box, start, calls[..|calls| - 1]), calls[|calls| - 1])
  }

  /** More calls at a desk in use. */
  function ServeOn(box: ToolBox, d: Desk, calls: seq<ToolCall>): Desk {
    if calls == [] then d else Serve(box, ServeOn(box, d, calls[..|calls| - 1]), calls[|calls| - 1])
  }

  lemma ServeOnOneMore(box: ToolBox, d: Desk, calls: seq<ToolCall>, call: ToolCall)
    ensures ServeOn(box, d, calls + [call]) == Serve(box, ServeOn(box, d, calls), call)
  {
    assert (calls + [call])[..|calls|] == calls;
  }

  lemma {:induction false} ServeOnNew(box: ToolBox, start: nat, early: seq<ToolCall>, late: seq<ToolCall>)
    ensures ServeOn(box, ServeAll(box, start, early), late) == ServeAll(box, start, early + late)
  {
    if late == [] {
      assert early + late == early;
    } else {
      var all := early + late;
      ServeOnNew(box, start, early, late[..|late| - 1]);
      assert all[..|all| - 1] == early + late[..|late| - 1] && all[|all| - 1] == late[|late| - 1];
    }
  }

  lemma {:induction false} ServeOnInTwo(box: ToolBox, d: Desk, early: seq<ToolCall>, late: seq<ToolCall>)
    ensures ServeOn(box, d, early + late) == ServeOn(box, ServeOn(box, d, early), late)
  {
    if late == [] {
      assert early + late == early;
    } else {
      var all := early + late;
      ServeOnInTwo(box, d, early, late[..|late| - 1]);
      assert all[..|all| - 1] == early + late[..|late| - 1] && all[|all| - 1] == late[|late| - 1];
    }
  }

  function CallsOf(log: seq<Served>): (calls: seq<ToolCall>)
    ensures |calls| == |log| && forall i | 0 <= i < |log| :: calls[i] == log[i].call
  {
    seq(|log|, i requires 0 <= i < |log| => log[i].call)
  }

  /* ---- What a log of answered calls guarantees ---- */

  ghost predicate SameKey(box: ToolBox, a: Served, b: Served) {
    Key(box, a.call) == Key(box, b.call)
  }

  /** Once a key has answered, it keeps answering the same and its tool is not run again. */
  ghost predicate Sticky(box: ToolBox, log: seq<Served>) {
    forall i, j | 0 <= i < j < |log| && SameKey(box, log[i], log[j]) && log[i].outcome.Ok? ::
      log[j].outcome == log[i].outcome && !log[j].executed
  }

  ghost predicate AnsweredWith(box: ToolBox, log: seq<Served>, key: string, value: string) {
    exists i :: 0 <= i < |log| && log[i].executed && Key(box, log[i].call) == key && log[i].outcome == Ok(value)
  }

  /** The cache holds the successful answers of the log, each produced by a run of a tool, and
      nothing else: failures are never stored. */
  ghost predicate Consistent(box: ToolBox, d: Desk) {
    && Sticky(box, d.log)
    && (forall key <- d.cache :: AnsweredWith(box, d.log, key, d.cache[key]))
    && (forall i | 0 <= i < |d.log| && d.log[i].outcome.Ok? ::
          var key := Key(box, d.log[i].call);
          key in d.cache && d.cache[key] == d.log[i].outcome.value)
    && (forall i | 0 <= i < |d.log| && !d.log[i].executed :: d.log[i].outcome.Ok?)
  }

  lemma AnsweredWithGrows(box: ToolBox, log: seq<Served>, s: Served, key: string, value: string)
    requires AnsweredWith(box, log, key, value)
    ensures AnsweredWith(box, log + [s], key, value)
  {
    var i :| 0 <= i < |log| && log[i].executed && Key(box, log[i].call) == key && log[i].outcome == Ok(value);
    assert (log + [s])[i] == log[i];
  }

  lemma ServeKeepsSticky(box: ToolBox, d: Desk, call: ToolCall)
    requires Consistent(box, d)
    ensures Sticky(box, Serve(box, d, call).log)
  {
    var s, log := Answer(box, d, call), Serve(box, d, call).log;
    forall i, j | 0 <= i < j < |log| && SameKey(box, log[i], log[j]) && log[i].outcome.Ok?
      ensures log[j].outcome == log[i].outcome && !log[j].executed
    {
      assert log[i] == d.log[i];
      if j < |d.log| {
        assert log[j] == d.log[j] && SameKey(box, d.log[i], d.log[j]);
      } else {
        assert Key(box, call) in d.cache && d.cache[Key(box, call)] == d.log[i].outcome.value;
      }
    }
  }

  lemma ServeKeepsConsistent(box: ToolBox, d: Desk, call: ToolCall)
    requires Consistent(box, d)
    ensures Consistent(box, Serve(box, d, call))
  {
    ServeKeepsSticky(box, d, call);
    var s, e := Answer(box, d, call), Serve(box, d, call);
    forall key <- e.cache ensures AnsweredWith(box, e.log, key, e.cache[key]) {
      if key in d.cache {
        AnsweredWithGrows(box, d.log, s, key, d.cache[key]);
      } else {
        assert e.log[|d.log|] == s;
      }
    }
    forall i | 0 <= i < |e.log| && e.log[i].outcome.Ok?
      ensures var key := Key(box, e.log[i].call);
              key in e.cache && e.cache[key] == e.log[i].outcome.value
    {
      if i < |d.log| {
        assert e.log[i] == d.log[i];
      }
    }
  }

  /** One call to a cache in use answers like the key's first success, or runs the tool. */
  lemma {:induction false} EveryDeskIsConsistent(box: ToolBox, start: nat, calls: seq<ToolCall>)
    ensures Consistent(box, ServeAll(box, start, calls))
  {
    if calls != [] {
      EveryDeskIsConsistent(box, start, calls[..|calls| - 1]);
      ServeKeepsConsistent(box, ServeAll(box, start, calls[..|calls| - 1]), calls[|calls| - 1]);
    }
  }

  /** However the cluster changes during a scan, repeating a call that once succeeded gives the
      identical output, and its tool runs successfully only once. */
  lemma RepeatedCallsAgree(box: ToolBox, start: nat, calls: seq<ToolCall>, i: nat, j: nat)
    requires i < j < |calls| && calls[i] == calls[j]
    requires ServeAll(box, start, calls).log[i].outcome.Ok?
    ensures var log := ServeAll(box, start, calls).log;
            log[j].outcome == log[i].outcome && !log[j].executed
  {
    EveryDeskIsConsistent(box, start, calls);
    var log := ServeAll(box, start, calls).log;
    assert SameKey(box, log[i], log[j]);
  }

  /* ---- What every answer is ---- */

  /** The registry gives r for a call at this moment: its tool's answer to these parameters, or the
      error for a name it does not know. */
  predicate Gives(tools: map<string, Tool>, moment: nat, call: ToolCall, r: Result<string>) {
    if call.name in tools then r == tools[call.name].fn(moment, call.params)
    else r == Err("tool not found: " + call.name)
  }

  function ExecutedIn(log: seq<Served>): nat {
    if log == [] then 0 else ExecutedIn(log[..|log| - 1]) + (if log[|log| - 1].executed then 1 else 0)
  }

  /** An earlier executed success of the same key, with this outcome. */
  ghost predicate Repeats(box: ToolBox, log: seq<Served>, i: nat)
    requires i < |log|
  {
    exists j :: 0 <= j < i && log[j].executed && SameKey(box, log[j], log[i]) && log[j].outcome.Ok?
                && log[j].outcome == log[i].outcome
  }

  ghost predicate NoneSucceeded(box: ToolBox, log: seq<Served>, i: nat)
    requires i < |log|
  {
    forall j | 0 <= j < i && SameKey(box, log[j], log[i]) :: log[j].outcome.Err?
  }

  lemma {:induction false} MomentCounts(box: ToolBox, start: nat, calls: seq<ToolCall>)
    ensures var d := ServeAll(box, start, calls);
            d.moment == start + ExecutedIn(d.log)
  {
    if calls != [] {
      var front := calls[..|calls| - 1];
      MomentCounts(box, start, front);
      var d, e := ServeAll(box, start, front), ServeAll(box, start, calls);
      assert e.log[..|e.log| - 1] == d.log;
    }
  }

  /** Entry i ran its tool exactly if no earlier call of its key succeeded; if it ran, its outcome is
      what the registry gives for its name and parameters at the moment counted in executions since
      the start; if not, it repeats the success. */
  ghost predicate WellAnswered(box: ToolBox, start: nat, log: seq<Served>, i: nat)
    requires i < |log|
  {
    && (log[i].executed ==> Gives(box.tools, start + ExecutedIn(log[..i]), log[i].call, log[i].outcome))
    && (log[i].executed <==> NoneSucceeded(box, log, i))
    && (!log[i].executed ==> Repeats(box, log, i))
  }

  lemma LastAnswer(box: ToolBox, start: nat, d: Desk, call: ToolCall)
    requires Consistent(box, d) && d.moment == start + ExecutedIn(d.log)
    ensures WellAnswered(box, start, Serve(box, d, call).log, |d.log|)
  {
    var s, log, n := Answer(box, d, call), Serve(box, d, call).log, |d.log|;
    assert log[n] == s && log[..n] == d.log;
    if s.executed {
      forall j | 0 <= j < n && SameKey(box, log[j], log[n]) ensures log[j].outcome.Err? {
        assert log[j] == d.log[j];
      }
    } else {
      var j :| 0 <= j < n && d.log[j].executed && Key(box, d.log[j].call) == Key(box, call)
               && d.log[j].outcome == Ok(d.cache[Key(box, call)]);
      assert log[j] == d.log[j] && SameKey(box, log[j], log[n]);
    }
  }

  lemma StillWellAnswered(box: ToolBox, start: nat, log: seq<Served>, s: Served, i: nat)
    requires i < |log| && WellAnswered(box, start, log, i)
    ensures WellAnswered(box, start, log + [s], i)
  {
    var longer := log + [s];
    assert longer[..i] == log[..i];
    assert forall j | 0 <= j <= i :: longer[j] == log[j];
    assert forall j | 0 <= j < i :: SameKey(box, longer[j], longer[i]) == SameKey(box, log[j], log[i]);
    if Repeats(box, log, i) {
      var j :| 0 <= j < i && log[j].executed && SameKey(box, log[j], log[i]) && log[j].outcome.Ok?
               && log[j].outcome == log[i].outcome;
      assert SameKey(box, longer[j], longer[i]);
    }
  }

  /** Every call of a scan, in a cluster that may change with each execution. */
  lemma {:induction false} EveryAnswer(box: ToolBox, start: nat, calls: seq<ToolCall>, i: nat)
    requires i < |calls|
    ensures WellAnswered(box, start, ServeAll(box, start, calls).log, i)
  {
    var front, call := calls[..|calls| - 1], calls[|calls| - 1];
    var d := ServeAll(box, start, front);
    if i < |front| {
      EveryAnswer(box, start, front, i);
      StillWellAnswered(box, start, d.log, Answer(box, d, call), i);
    } else {
      EveryDeskIsConsistent(box, start, front);
      MomentCounts(box, start, front);
      LastAnswer(box, start, d, call);
    }
  }

  /* ---- The cache against the registry alone ---- */

  ghost predicate Deterministic(box: ToolBox) {
    forall name, m, n, params | name in box.tools :: box.tools[name].fn(m, params) == box.tools[name].fn(n, params)
  }

  ghost predicate CollisionFree(box: ToolBox) {
    forall s, t :: box.digest(s) == box.digest(t) ==> s == t
  }

  ghost predicate PlainNames(box: ToolBox) {
    forall name <- box.tools :: '|' !in name
  }

  /** The separator makes the pair readable back from the text whenever names have none. */
  lemma KeyTextInjective(a: ToolCall, b: ToolCall)
    requires '|' !in a.name && '|' !in b.name
    requires KeyText(a) == KeyText(b)
    ensures a == b
  {
    var t := KeyText(a);
    assert t[|a.name|] == '|' && t[|b.name|] == '|';
    assert forall i | 0 <= i < |a.name| :: t[i] == a.name[i] != '|';
    assert forall i | 0 <= i < |b.name| :: t[i] == b.name[i] != '|';
    assert |a.name| == |b.name|;
    assert a.name == t[..|a.name|] && b.name == t[..|b.name|];
    assert a.params == t[|a.name| + 1..] && b.params == t[|b.name| + 1..];
  }

  predicate Succeeds(box: ToolBox, call: ToolCall) {
    call.name in box.tools && box.tools[call.name].fn(0, call.params).Ok?
  }

  /** A key text seen before by a successful call. */
  ghost predicate Shadowed(box: ToolBox, start: nat, calls: seq<ToolCall>, call: ToolCall) {
    exists i :: 0 <= i < |calls| && KeyText(calls[i]) == KeyText(call) && Succeeds(box, calls[i])
  }

  /** Over a registry that does not change, a cached call answers as the registry would exactly
      when its tool is registered or no earlier successful call had the same key text. */
  lemma CacheRefinesRegistry(box: ToolBox, start: nat, calls: seq<ToolCall>, call: ToolCall)
    requires Deterministic(box) && CollisionFree(box) && PlainNames(box)
    ensures Gives(box.tools, 0, call, Answer(box, ServeAll(box, start, calls), call).outcome)
            <==> call.name in box.tools || !Shadowed(box, start, calls, call)
  {
    var d := ServeAll(box, start, calls);
    EveryDeskIsConsistent(box, start, calls);
    if Key(box, call) in d.cache {
      var i :| 0 <= i < |d.log| && d.log[i].executed && Key(box, d.log[i].call) == Key(box, call)
               && d.log[i].outcome == Ok(d.cache[Key(box, call)]);
      ExecutedAnswer(box, start, calls, i);
      assert KeyText(calls[i]) == KeyText(call);
      assert Shadowed(box, start, calls, call);
      if call.name in box.tools {
        KeyTextInjective(calls[i], call);
      }
    } else if Shadowed(box, start, calls, call) {
      var i :| 0 <= i < |calls| && KeyText(calls[i]) == KeyText(call) && Succeeds(box, calls[i]);
      SuccessIsCached(box, start, calls, i);
    }
  }

  lemma {:induction false} ExecutedAnswer(box: ToolBox, start: nat, calls: seq<ToolCall>, i: nat)
    requires Deterministic(box) && i < |calls|
    ensures var s := ServeAll(box, start, calls).log[i];
            s.executed ==> Gives(box.tools, 0, calls[i], s.outcome)
  {
    var before := calls[..|calls| - 1];
    if i < |before| {
      ExecutedAnswer(box, start, before, i);
      assert calls[i] == before[i];
    }
  }

  /** A call whose tool succeeds leaves its key in the cache. */
  lemma {:induction false} SuccessIsCached(box: ToolBox, start: nat, calls: seq<ToolCall>, i: nat)
    requires Deterministic(box) && i < |calls| && Succeeds(box, calls[i])
    ensures Key(box, calls[i]) in ServeAll(box, start, calls).cache
  {
    var before := calls[..|calls| - 1];
    if i < |before| {
      SuccessIsCached(box, start, before, i);
      assert calls[i] == before[i];
    } else {
      var d := ServeAll(box, start, before);
      assert Execute(box.tools, d.moment, calls[i]) == box.tools[calls[i].name].fn(0, calls[i].params);
    }
  }

  /** A caller who only uses names without the separator never notices the cache. */
  lemma PlainCallsAreTransparent(box: ToolBox, start: nat, calls: seq<ToolCall>, call: ToolCall)
    requires Deterministic(box) && CollisionFree(box) && PlainNames(box)
    requires '|' !in call.name
    ensures Gives(box.tools, 0, call, Answer(box, ServeAll(box, start, calls), call).outcome)
  {
    CacheRefinesRegistry(box, start, calls, call);
    if call.name !in box.tools && Shadowed(box, start, calls, call) {
      var i :| 0 <= i < |calls| && KeyText(calls[i]) == KeyText(call) && Succeeds(box, calls[i]);
      assert calls[i].name in box.tools;
      KeyTextInjective(calls[i], call);
    }
  }

  /** The failing family: a name that extends a registered one past the separator is unknown to
      the registry, yet it is answered once the matching longer parameters have succeeded. */
  lemma SeparatorNameIsAnswered(box: ToolBox, start: nat, name: string, head: string, tail: string)
    requires PlainNames(box) && name in box.tools
    requires box.tools[name].fn(start, head + "|" + tail).Ok?
    ensures var d := ServeAll(box, start, [ToolCall(name, head + "|" + tail)]);
            var odd := ToolCall(name + "|" + head, tail);
            Answer(box, d, odd).outcome.Ok? && odd.name !in box.tools
  {
    var first, odd := ToolCall(name, head + "|" + tail), ToolCall(name + "|" + head, tail);
    assert [first][..0] == [];
    assert ServeAll(box, start, [first]) == Serve(box, NewDesk(start), first);
    assert KeyText(odd) == KeyText(first);
    assert odd.name[|name|] == '|';
  }

  /* ---- The objects ---- */

  /** The cluster the tools read. Its contents may differ at each moment. */
  class Cluster {
    var moment: nat

    constructor (m: nat)
      ensures moment == m
    {
      moment := m;
    }
  }

  class Registry {
    var tools: map<string, Tool>

    ghost predicate Valid()
      reads this
    {
      forall name <- tools :: tools[name].def.name == name
    }

    constructor ()
      ensures Valid() && tools == map[]
    {
      tools := map[];
    }

    /** A later tool of the same name replaces the earlier one. */
    method Register(def: Definition, fn: (nat, string) -> Result<string>)
      requires Valid()
      modifies this
      ensures Valid() && tools == old(tools)[def.name := Tool(def, fn)]
    {
      tools := tools[def.name := Tool(def, fn)];
    }

    /** One definition per registered tool, in the order the map happens to be visited. */
    method Definitions() returns (defs: seq<Definition>)
      requires Valid()
      ensures |defs| == |tools|
      ensures forall i, j | 0 <= i < j < |defs| :: defs[i].name != defs[j].name
      ensures forall def :: def in defs <==> def.name in tools && tools[def.name].def == def
    {
      defs := [];
      var todo := tools.Keys;
      while todo != {}
        invariant todo <= tools.Keys && |defs| + |todo| == |tools|
        invariant forall i, j | 0 <= i < j < |defs| :: defs[i].name != defs[j].name
        invariant forall def :: def in defs <==> def.name in tools && def.name !in todo && tools[def.name].def == def
      {
        var name :| name in todo;
        defs := defs + [tools[name].def];
        todo := todo - {name};
      }
    }

    method Call(cluster: Cluster, name: string, params: string) returns (r: Result<string>)
      modifies cluster
      ensures cluster.moment == old(cluster.moment) + 1
      ensures r == if name in tools then tools[name].fn(old(cluster.moment), params) else Err("tool not found: " + name)
    {
      if name !in tools {
        r := Err("tool not found: " + name);
      } else {
        r := tools[name].fn(cluster.moment, params);
      }
      cluster.moment := cluster.moment + 1;
    }
  }

  class CachingRegistry {
    const inner: Registry
    const cluster: Cluster
    const digest: string -> string
    var cache: map<string, string>
    ghost var log: seq<Served>

    ghost function Box(): ToolBox
      reads inner
    {
      ToolBox(inner.tools, digest)
    }

    ghost function State(): Desk
      reads this, cluster
    {
      Desk(cache, cluster.moment, log)
    }

    constructor (inner: Registry, cluster: Cluster, digest: string -> string)
      ensures this.inner == inner && this.cluster == cluster && this.digest == digest
      ensures State() == NewDesk(cluster.moment)
    {
      this.inner, this.cluster, this.digest := inner, cluster, digest;
      cache, log := map[], [];
    }

    method Call(name: string, params: string) returns (r: Result<string>)
      modifies this, cluster
      ensures State() == Serve(Box(), old(State()), ToolCall(name, params))
      ensures r == Answer(Box(), old(State()), ToolCall(name, params)).outcome
    {
      var key := digest(name + "|" + params);
      if key in cache {
        r := Ok(cache[key]);
        log := log + [Served(ToolCall(name, params), r, false)];
      } else {
        r := inner.Call(cluster, name, params);
        if r.Ok? {
          cache := cache[key := r.value];
        }
        log := log + [Served(ToolCall(name, params), r, true)];
      }
    }
  }
}
