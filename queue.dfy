/**
 * SergeLiatko\TasksQueue\Queue: a registry of prefixed queue names, one execute
 * subscription per queue, and scheduling that refuses a job already pending with
 * the same arguments on the same queue.
 */
module TasksQueue {
  import opened QueueNames
  import opened WordPress

  /** A job, identified by the name of its callable. */
  datatype Job = Job(name: string)

  /** The event argument array `array($job, $args)` that `schedule` hands to cron. */
  function Params(job: Job, args: seq<Value>): (p: seq<Value>)
    ensures |p| == 2 && p[0] == Callable(job.name) && p[1] == List(args)
  {
    [Callable(job.name), List(args)]
  }

  /** Two params arrays are equal exactly when they carry the same job and the same ordered args. */
  lemma ParamsInjective(j1: Job, a1: seq<Value>, j2: Job, a2: seq<Value>)
    ensures Params(j1, a1) == Params(j2, a2) <==> j1 == j2 && a1 == a2
  {
  }

  /** Argument order is part of the dedup key: [1, 2] and [2, 1] are different pending entries. */
  lemma ArgsOrderMatters(queue: string, job: Job)
    ensures Event(queue, Params(job, [Int(1), Int(2)])) != Event(queue, Params(job, [Int(2), Int(1)]))
  {
  }

  /** The registrations `add_action($queue, array($this, 'execute'), 10, 2)` for each name, in order. */
  function Subscriptions(target: object, queues: seq<string>): (r: seq<Action>)
    ensures |r| == |queues|
    ensures forall i :: 0 <= i < |queues| ==> r[i] == Action(queues[i], target, "execute", 10, 2)
  {
    seq(|queues|, i requires 0 <= i < |queues| => Action(queues[i], target, "execute", 10, 2))
  }

  /** Registering one more queue appends its subscription. */
  lemma SubscriptionsExtend(target: object, queues: seq<string>, i: nat)
    requires i < |queues|
    ensures Subscriptions(target, queues[..i + 1])
         == Subscriptions(target, queues[..i]) + [Action(queues[i], target, "execute", 10, 2)]
  {
  }

  /** With distinct queue names, each registered name gets exactly one subscription and no other hook gets any. */
  lemma {:induction false} SubscriptionsOncePerQueue(target: object, queues: seq<string>)
    requires NoDuplicates(queues)
    ensures forall h :: CountHook(Subscriptions(target, queues), h) == (if h in queues then 1 else 0)
  {
    var subs := Subscriptions(target, queues);
    if queues == [] {
      assert subs == [];
    } else {
      var rest := queues[1..];
      assert NoDuplicates(rest) by {
        forall i, j | 0 <= i < j < |rest|
          ensures rest[i] != rest[j]
        {
          assert rest[i] == queues[i + 1] && rest[j] == queues[j + 1];
        }
      }
      assert queues[0] !in rest by {
        forall i | 0 <= i < |rest|
          ensures rest[i] != queues[0]
        {
          assert rest[i] == queues[i + 1];
        }
      }
      SubscriptionsOncePerQueue(target, rest);
      assert subs[1..] == Subscriptions(target, rest);
      forall h
        ensures CountHook(subs, h) == (if h in queues then 1 else 0)
      {
        assert h in queues <==> h == queues[0] || h in rest by {
          assert queues == [queues[0]] + rest;
        }
      }
    }
  }

  /** One queue configuration: the registered hook names and the default hook name. */
  class Queue {
    var queues: seq<string>
    var default: string

    /** Every registered name and the default are prefixed, and no name is registered twice. */
    ghost predicate Valid()
      reads this
    {
      NoDuplicates(queues) && (forall q :: q in queues ==> IsQueueName(q)) && IsQueueName(default)
    }

    predicate DefaultRegistered()
      reads this
    {
      default in queues
    }

    /** Queue::__construct: set the queues and the default, then subscribe execute to every queue. */
    constructor (raw: seq<string>, dflt: string, hooks: Hooks)
      modifies hooks
      ensures Valid()
      ensures queues == NormalizeQueues(raw) && default == Prefix(dflt)
      ensures hooks.actions == old(hooks.actions) + Subscriptions(this, queues)
    {
      new;
      SetQueues(raw);
      SetDefault(dflt);
      StripPrefixOfPrefix(dflt);
      var registered := queues;
      for i := 0 to |registered|
        invariant queues == registered && default == Prefix(dflt)
        invariant hooks.actions == old(hooks.actions) + Subscriptions(this, registered[..i])
      {
        hooks.AddAction(registered[i], this, "execute", 10, 2);
        SubscriptionsExtend(this, registered, i);
      }
      assert registered[..|registered|] == registered;
    }

    /** Queue::setQueues: store the normalised form of the raw names. */
    method SetQueues(raw: seq<string>)
      modifies this
      ensures queues == NormalizeQueues(raw) && default == old(default)
    {
      queues := NormalizeQueues(raw);
    }

    /** Queue::setDefault: store the prefixed default. */
    method SetDefault(dflt: string)
      modifies this
      ensures default == Prefix(dflt) && queues == old(queues)
    {
      default := Prefix(dflt);
    }

    /**
     * Queue::validateQueue: the prefixed requested name when it is registered,
     * the default otherwise.
     */
    function ValidateQueue(queue: string): (r: string)
      reads this
      ensures Prefix(queue) in queues ==> r == Prefix(queue)
      ensures Prefix(queue) !in queues ==> r == default
      ensures DefaultRegistered() ==> r in queues
    {
      var name := Prefix(queue);
      if name in queues then name else default
    }

    /**
     * Queue::schedule: refuse (false, nothing changes) when cron already holds the
     * event for the resolved queue with params [job, args]; otherwise ask cron to
     * store it at `now` and pass its answer on.
     */
    method Schedule(cron: Cron, now: int, job: Job, args: seq<Value> := [], queue: string := "")
      returns (ok: bool)
      modifies cron
      ensures var e := Event(ValidateQueue(queue), Params(job, args));
        if old(cron.NextScheduled(e.hook, e.args)) then
          !ok && cron.events == old(cron.events)
        else
          cron.events == (if ok then old(cron.events) + {Scheduled(e, now)} else old(cron.events))
    {
      var hook := ValidateQueue(queue);
      var params := Params(job, args);
      if !cron.NextScheduled(hook, params) {
        ok := cron.ScheduleSingleEvent(now, hook, params);
        return;
      }
      ok := false;
    }
  }

  /** The static Queue::$instance slot: at most one Queue per process, the first configuration wins. */
  class Singleton {
    var instance: Queue?

    ghost predicate Valid()
      reads this, instance
    {
      instance != null ==> instance.Valid() && instance.DefaultRegistered()
    }

    constructor ()
      ensures Valid() && instance == null
    {
      instance := null;
    }

    /** Queue::setInstance. */
    method SetInstance(queue: Queue)
      modifies this
      ensures instance == queue
    {
      instance := queue;
    }

    /**
     * Queue::getInstance: on first use, append the default to the raw names when
     * missing and build the Queue; afterwards return that same Queue whatever the
     * arguments.
     */
    method GetInstance(hooks: Hooks, raw: seq<string> := [], dflt: string := "default") returns (q: Queue)
      requires Valid()
      modifies this, hooks
      ensures Valid() && instance == q && q.DefaultRegistered()
      ensures old(instance) != null ==>
        q == old(instance) && q.queues == old(instance.queues) && q.default == old(instance.default)
        && hooks.actions == old(hooks.actions)
      ensures old(instance) == null ==>
        fresh(q) && q.queues == NormalizeQueues(WithDefault(raw, dflt)) && q.default == Prefix(dflt)
        && hooks.actions == old(hooks.actions) + Subscriptions(q, q.queues)
    {
      if instance == null {
        var names := raw;
        if dflt !in names {
          names := names + [dflt];
        }
        assert names == WithDefault(raw, dflt);
        DefaultIsRegistered(raw, dflt);
        var created := new Queue(names, dflt, hooks);
        SetInstance(created);
      }
      q := instance;
    }

    /** Queue::add: schedule on the process-wide instance, created with the default configuration if needed. */
    method Add(hooks: Hooks, cron: Cron, now: int, job: Job, args: seq<Value> := [], queue: string := "")
      returns (ok: bool)
      requires Valid()
      modifies this, hooks, cron
      ensures Valid() && instance != null
      ensures old(instance) != null ==> instance == old(instance) && hooks.actions == old(hooks.actions)
      ensures old(instance) == null ==>
        fresh(instance) && instance.queues == NormalizeQueues(["default"]) && instance.default == Prefix("default")
        && hooks.actions == old(hooks.actions) + Subscriptions(instance, instance.queues)
      ensures var e := Event(instance.ValidateQueue(queue), Params(job, args));
        e.hook in instance.queues &&
        if old(cron.NextScheduled(e.hook, e.args)) then
          !ok && cron.events == old(cron.events)
        else
          cron.events == (if ok then old(cron.events) + {Scheduled(e, now)} else old(cron.events))
    {
      var q := GetInstance(hooks);
      ghost var subscribed := hooks.actions;
      ok := q.Schedule(cron, now, job, args, queue);
      assert hooks.actions == subscribed;
    }
  }

  /** Configuring one queue: the first call subscribes execute once to its hook and once to the default's. */
  method ConfigurationScenario(listed: string)
  {
    var hooks := new Hooks();
    var slot := new Singleton();
    var q := slot.GetInstance(hooks, [listed]);
    assert Prefix(listed) in q.queues;
    assert hooks.actions == Subscriptions(q, q.queues);
    SubscriptionsOncePerQueue(q, q.queues);
    assert CountHook(hooks.actions, Prefix(listed)) == 1;
    assert CountHook(hooks.actions, Prefix("default")) == 1;
  }

  /**
   * With one queue configured, that name resolves to its own queue, and any name outside
   * the configuration ("" included) falls back to the default.
   */
  method ResolutionScenario(listed: string, other: string)
    requires other != listed && other != "default"
  {
    var hooks := new Hooks();
    var slot := new Singleton();
    var q := slot.GetInstance(hooks, [listed]);
    assert q.ValidateQueue(listed) == Prefix(listed);
    NormalizeMembership(WithDefault([listed], "default"), other);
    assert q.ValidateQueue(other) == q.default == Prefix("default");
  }

  /** A repeated submission is refused; reordered args are a separate entry. */
  method DedupScenario(q: Queue, now: int)
  {
    var cron := new Cron();
    var job := Job("send_report");
    var hook := q.ValidateQueue("reports");
    var e1 := Event(hook, Params(job, [Int(1), Int(2)]));
    var e2 := Event(hook, Params(job, [Int(2), Int(1)]));
    var first := q.Schedule(cron, now, job, [Int(1), Int(2)], "reports");
    assert first ==> cron.events == {Scheduled(e1, now)};
    var again := q.Schedule(cron, now, job, [Int(1), Int(2)], "reports");
    assert first ==> !again && cron.events == {Scheduled(e1, now)};
    ArgsOrderMatters(hook, job);
    assert first ==> !cron.NextScheduled(e2.hook, e2.args);
    var swapped := q.Schedule(cron, now, job, [Int(2), Int(1)], "reports");
    assert first && swapped ==> cron.events == {Scheduled(e1, now), Scheduled(e2, now)};
  }
}
