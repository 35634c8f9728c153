/**
 * The two pieces of the WordPress host that the queue talks to, as explicit state:
 * the action-hook registry (add_action) and the cron store of single events
 * (wp_next_scheduled, wp_schedule_single_event).
 */
module WordPress {

  /** A PHP value as it may appear in an event's argument array. */
  datatype Value =
    | Null
    | Bool(b: bool)
    | Int(i: int)
    | Str(s: string)
    | Callable(name: string)
    | List(items: seq<Value>)

  /** One add_action registration: hook name, target object and its method, priority, accepted args. */
  datatype Action = Action(hook: string, target: object, callback: string, priority: int, acceptedArgs: nat)

  /** Number of registrations on hook `h`. */
  function CountHook(actions: seq<Action>, h: string): nat
  {
    if actions == [] then 0
    else (if actions[0].hook == h then 1 else 0) + CountHook(actions[1..], h)
  }

  lemma {:induction false} CountHookAppend(a: seq<Action>, b: seq<Action>, h: string)
    ensures CountHook(a + b, h) == CountHook(a, h) + CountHook(b, h)
  {
    if a != [] {
      assert (a + b)[1..] == a[1..] + b;
      CountHookAppend(a[1..], b, h);
    } else {
      assert a + b == b;
    }
  }

  /** The host's table of action hooks, in registration order. */
  class Hooks {
    var actions: seq<Action>

    constructor ()
      ensures actions == []
    {
      actions := [];
    }

    /** add_action: append one registration. */
    method AddAction(hook: string, target: object, callback: string, priority: int, acceptedArgs: nat)
      modifies this
      ensures actions == old(actions) + [Action(hook, target, callback, priority, acceptedArgs)]
    {
      actions := actions + [Action(hook, target, callback, priority, acceptedArgs)];
    }
  }

  /** A cron event: the hook to fire and the argument array to pass. */
  datatype Event = Event(hook: string, args: seq<Value>)

  /** An event entry of the cron store with its fire time. */
  datatype Scheduled = Scheduled(event: Event, timestamp: int)

  /** The host's cron store of pending single events. */
  class Cron {
    var events: set<Scheduled>

    constructor ()
      ensures events == {}
    {
      events := {};
    }

    /** wp_next_scheduled, as a membership test: is an event with this hook and args pending? */
    predicate NextScheduled(hook: string, args: seq<Value>)
      reads this
    {
      exists s :: s in events && s.event == Event(hook, args)
    }

    /**
     * wp_schedule_single_event. Whether the host accepts the event is outside the
     * model, so the result is nondeterministic; an accepted event is stored, a
     * refused one leaves the store as it was.
     */
    method ScheduleSingleEvent(timestamp: int, hook: string, args: seq<Value>) returns (ok: bool)
      modifies this
      ensures ok ==> events == old(events) + {Scheduled(Event(hook, args), timestamp)}
      ensures !ok ==> events == old(events)
      ensures ok ==> NextScheduled(hook, args)
    {
      ok := *;
      if ok {
        events := events + {Scheduled(Event(hook, args), timestamp)};
      }
    }
  }
}
