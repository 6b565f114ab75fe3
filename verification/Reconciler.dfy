/** The reconciler of operator/internal/controller/checklistpolicy_controller.go as an object: the
    map of schedulers, the policy edited in place, each access to the outside in its order. */
module Reconciler {
  import opened GoTypes
  import opened Conditions
  import opened Reconciling
  import opened Fleets
  import E = Engine
  import Text

  /** A scheduler as the reconciler handles it: built, started, stopped. */
  class Handle {
    ghost const id: nat
    var running: bool

    constructor (ghost id: nat)
      ensures this.id == id && !running
    {
      this.id := id;
      running := false;
    }

    method Start()
      modifies this
      ensures running
    {
      running := true;
    }

    method Stop()
      modifies this
      ensures !running
    {
      running := false;
    }
  }

  class Api {
    var objects: map<string, PolicyObject>

    constructor (objects: map<string, PolicyObject>)
      ensures this.objects == objects
    {
      this.objects := objects;
    }

    /** An update of a policy that was read as seen; ok says whether it went through. */
    method Update(key: string, seen: PolicyObject, written: PolicyObject, accepted: bool) returns (ok: bool)
      modifies this
      ensures ok == (accepted && key in old(objects) && old(objects)[key] == seen)
      ensures objects == if !ok then old(objects)
                         else if written.deleting && written.finalizers == [] then old(objects) - {key}
                         else old(objects)[key := written]
    {
      ok := accepted && key in objects && objects[key] == seen;
      if ok {
        objects := if written.deleting && written.finalizers == [] then objects - {key} else objects[key := written];
      }
    }
  }

  /** The reconcile's own copy of a policy. */
  class Policy {
    const deleting: bool
    var finalizers: seq<string>
    var annotations: map<string, string>
    const summary: Option<E.Summary>
    var conditions: seq<Condition>

    function Value(): PolicyObject
      reads this
    {
      PolicyObject(deleting, finalizers, annotations, summary, conditions)
    }

    constructor (o: PolicyObject)
      ensures Value() == o
    {
      deleting, finalizers, annotations, summary, conditions := o.deleting, o.finalizers, o.annotations, o.summary, o.conditions;
    }

    method AddFinalizer()
      modifies this
      ensures Value() == Joined(old(Value()))
    {
      if FINALIZER !in finalizers {
        finalizers := finalizers + [FINALIZER];
      }
    }

    method RemoveFinalizer()
      modifies this
      ensures Value() == Left(old(Value()))
    {
      finalizers := Without(finalizers, FINALIZER);
    }

    method ClearRunNow()
      modifies this
      ensures Value() == Cleared(old(Value()))
    {
      annotations := annotations - {RUN_NOW};
    }

    method Set(c: Condition)
      modifies this
      ensures Value() == old(Value()).(conditions := SetCondition(old(conditions), c))
    {
      conditions := SetCondition(conditions, c);
    }

    method SetBroken(notFound: bool, message: string, first: Time, second: Time)
      modifies this
      ensures Value() == Judged(old(Value()), Broken(notFound, message), first, second)
    {
      var reason := "SchedulerError";
      if notFound || Text.Index(message, "not found") >= 0 {
        reason := "SecretNotFound";
      }
      Set(Condition(DEGRADED, True, reason, message, first));
      Set(Condition(AVAILABLE, False, reason, message, second));
    }

    method SetRunning(first: Time, second: Time)
      modifies this
      ensures Value() == Judged(old(Value()), Built, first, second)
    {
      if summary.Some? && summary.value.failed > 0 {
        var message := LastScan(summary.value);
        Set(Condition(DEGRADED, True, "ChecksFailed", message, first));
        Set(Condition(AVAILABLE, False, "ChecksFailed", message, second));
      } else {
        Set(Condition(AVAILABLE, True, "SchedulerRunning", "Scheduler is running", first));
        Set(Condition(DEGRADED, False, "SchedulerRunning", "Scheduler is running", second));
      }
    }
  }

  class Reconciler {
    const api: Api
    var schedulers: map<string, Handle>
    /** The schedulers that were asked for a scan, in order. */
    var requests: seq<Handle>

    /** The state as a value, and every scheduler ever started by its number. */
    ghost var fleet: Fleet
    ghost var handles: map<nat, Handle>
    ghost var repr: set<Handle>

    ghost predicate Valid()
      reads this, api, repr
    {
      && fleet.objects == api.objects
      && (forall k :: k in schedulers <==> k in fleet.schedulers)
      && (forall k <- schedulers :: fleet.schedulers[k] in handles && handles[fleet.schedulers[k]] == schedulers[k])
      && (forall id <- handles :: Tracks(id))
      && (forall id <- fleet.live :: id in handles)
      && |requests| == |fleet.triggered|
      && (forall i | 0 <= i < |requests| :: fleet.triggered[i] in handles && handles[fleet.triggered[i]] == requests[i])
    }

    ghost predicate Tracks(id: nat)
      requires id in handles
      reads this, repr
    {
      && handles[id] in repr && handles[id].id == id && id < fleet.next
      && (handles[id].running <==> id in fleet.live)
    }

    constructor (api: Api)
      ensures this.api == api && Valid() && repr == {}
      ensures fleet == Fleet(api.objects, map[], map[], 0, [])
    {
      this.api := api;
      schedulers, requests := map[], [];
      fleet, handles, repr := Fleet(api.objects, map[], map[], 0, []), map[], {};
    }

    method StopScheduler(key: string)
      requires Valid()
      modifies this, repr
      ensures Valid() && repr == old(repr)
      ensures fleet == Fleets.StopScheduler(old(fleet), key)
    {
      if key in schedulers {
        var sched := schedulers[key];
        assert Tracks(fleet.schedulers[key]);
        sched.Stop();
        schedulers := schedulers - {key};
        ghost var before := fleet;
        fleet := Fleets.StopScheduler(fleet, key);
        forall id <- handles ensures Tracks(id) {
          assert old(Tracks(id));
        }
      }
    }

    method StartScheduler(key: string) returns (sched: Handle)
      requires Valid()
      modifies this
      ensures Valid() && fresh(repr - old(repr)) && old(repr) <= repr
      ensures fleet == Fleets.StartScheduler(old(fleet), key)
      ensures sched.id == old(fleet).next && sched.id in handles && handles[sched.id] == sched
    {
      sched := new Handle(fleet.next);
      sched.Start();
      handles, repr := handles[fleet.next := sched], repr + {sched};
      fleet := Fleets.StartScheduler(fleet, key);
      forall id <- handles ensures Tracks(id) {
        assert id != sched.id ==> old(Tracks(id));
      }
    }

    method Keep(key: string, sched: Handle)
      requires Valid() && sched.id in handles && handles[sched.id] == sched
      modifies this
      ensures Valid() && repr == old(repr) && handles == old(handles)
      ensures fleet == Fleets.Keep(old(fleet), key, sched.id)
    {
      schedulers := schedulers[key := sched];
      fleet := Fleets.Keep(fleet, key, sched.id);
      assert forall id <- handles :: old(Tracks(id));
    }

    method RunScheduler(key: string)
      requires Valid()
      modifies this
      ensures Valid() && fresh(repr - old(repr)) && old(repr) <= repr
      ensures fleet == Fleets.Keep(Fleets.StartScheduler(old(fleet), key), key, old(fleet).next)
    {
      var sched := StartScheduler(key);
      assert Tracks(sched.id);
      Keep(key, sched);
    }

    method TriggerFullScan(key: string)
      requires Valid()
      modifies this
      ensures Valid() && repr == old(repr)
      ensures fleet == Trigger(old(fleet), key)
    {
      if key in schedulers {
        requests := requests + [schedulers[key]];
        fleet := Trigger(fleet, key);
        assert forall id <- handles :: old(Tracks(id));
      }
    }

    method Update(key: string, seen: PolicyObject, policy: Policy, accepted: bool) returns (ok: bool)
      requires Valid()
      modifies this`fleet, api
      ensures Valid()
      ensures fleet == Put(old(fleet), key, accepted, seen, old(policy.Value()))
      ensures ok <==> accepted && key in old(fleet).objects && old(fleet).objects[key] == seen
    {
      fleet := Put(fleet, key, accepted, seen, policy.Value());
      ok := api.Update(key, seen, policy.Value(), accepted);
      assert forall id <- handles :: old(Tracks(id));
    }

    method Depart(key: string, policy: Policy, a: Answer) returns (ok: bool)
      requires Valid()
      modifies this, api, repr, policy
      ensures Valid() && repr == old(repr)
      ensures fleet == Put(Fleets.StopScheduler(old(fleet), key), key, a.accepted, old(policy.Value()), Left(old(policy.Value())))
      ensures ok <==> a.accepted && key in old(fleet).objects && old(fleet).objects[key] == old(policy.Value())
    {
      var seen := policy.Value();
      StopScheduler(key);
      policy.RemoveFinalizer();
      ok := Update(key, seen, policy, a.accepted);
    }

    method Join(key: string, policy: Policy, a: Answer) returns (ok: bool)
      requires Valid()
      modifies this, api, policy
      ensures Valid() && repr == old(repr)
      ensures fleet == Put(old(fleet), key, a.accepted, old(policy.Value()), Joined(old(policy.Value())))
      ensures ok <==> a.accepted && key in old(fleet).objects && old(fleet).objects[key] == old(policy.Value())
    {
      var seen := policy.Value();
      policy.AddFinalizer();
      ok := Update(key, seen, policy, a.accepted);
    }

    method RunNow(key: string, policy: Policy, a: Answer) returns (ok: bool)
      requires Valid()
      modifies this, api, policy
      ensures Valid() && repr == old(repr)
      ensures fleet == Put(Trigger(old(fleet), key), key, a.accepted, old(policy.Value()), Cleared(old(policy.Value())))
      ensures ok <==> a.accepted && key in old(fleet).objects && old(fleet).objects[key] == old(policy.Value())
    {
      var seen := policy.Value();
      TriggerFullScan(key);
      policy.ClearRunNow();
      ok := Update(key, seen, policy, a.accepted);
    }

    /** The old scheduler goes first; a new one runs only if all of its parts could be built. */
    method ReconcileScheduler(key: string, build: Build)
      requires Valid()
      modifies this, repr
      ensures Valid() && fresh(repr - old(repr))
      ensures var g := Fleets.StopScheduler(old(fleet), key);
              fleet == if build.Built? then Fleets.Keep(Fleets.StartScheduler(g, key), key, g.next) else g
    {
      StopScheduler(key);
      if build.Built? {
        RunScheduler(key);
      }
    }

    method Rebuild(key: string, policy: Policy, a: Answer) returns (ok: bool)
      requires Valid()
      modifies this, api, repr, policy
      ensures Valid() && fresh(repr - old(repr))
      ensures fleet == Rebuilt(old(fleet), key, old(policy.Value()), a)
      ensures ok <==> a.accepted && key in old(fleet).objects && old(fleet).objects[key] == old(policy.Value())
    {
      var seen := policy.Value();
      ReconcileScheduler(key, a.build);
      if a.build.Broken? {
        policy.SetBroken(a.build.notFound, a.build.message, a.first, a.second);
      } else {
        policy.SetRunning(a.first, a.second);
      }
      ok := Update(key, seen, policy, a.accepted);
    }

    method Reconcile(key: string, a: Answer) returns (next: Comeback)
      requires Valid()
      modifies this, api, repr
      ensures Valid() && fresh(repr - old(repr))
      ensures fleet == Whole(old(fleet), key, a)
      ensures next == Next(old(fleet), key, a)
    {
      WholeIs(fleet, key, a);
      if !a.readable {
        return Retry;
      }
      if key !in api.objects {
        StopScheduler(key);
        return Done;
      }
      var policy := new Policy(api.objects[key]);
      if policy.deleting {
        next := Done;
        if FINALIZER in policy.finalizers {
          var ok := Depart(key, policy, a);
          next := if ok then Done else Retry;
        }
      } else if FINALIZER !in policy.finalizers {
        var ok := Join(key, policy, a);
        next := if ok then AtOnce else Retry;
      } else if RUN_NOW in policy.annotations && policy.annotations[RUN_NOW] != "" {
        var ok := RunNow(key, policy, a);
        next := if ok then Done else Retry;
      } else {
        var ok := Rebuild(key, policy, a);
        next := if a.build.Broken? then Retry else if ok then Done else Later(10);
      }
    }
  }
}
