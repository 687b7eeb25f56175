/** `RedisManager`: the gateway's single connection pair to Redis. `sendToWorker`
    tags the job with a fresh id, pushes it on the left of `message`, subscribes to
    the channel named by the id, and settles on the first message there. */
module Broker {
  import opened Jobs
  import opened Redis

  /** The job the gateway hands over, before it has an id. */
  datatype Submission = Submission(code: string, language: string, testCase: seq<TestCase>, timeout: nat)

  /** `{ ...job, job_id }`. */
  function Tagged(sub: Submission, id: string): Job {
    Job(sub.code, sub.language, sub.testCase, sub.timeout, id)
  }

  /** What `sendToWorker` returns: `undefined`, or a promise waiting on channel `jobId`. */
  datatype Sent = Undefined | Pending(jobId: string)

  /** How a waiting promise was settled. */
  datatype Settled = Resolved(result: JobResult) | Rejected(reason: string)

  /** What the manager did to Redis and to its subscriber connection, in order. */
  datatype Action = Pushed(jobId: string) | Subscribed(channel: string) | Unsubscribed(channel: string) | ListenersRemoved

  class Manager {
    /** `this.publisher.isOpen` (false before `init` has connected). */
    var publisherOpen: bool
    /** The channels the subscriber connection listens on. */
    var channels: set<string>
    /** The events of the subscriber connection that have listeners attached. */
    var listenerEvents: set<string>
    /** The settled promises, by job id. */
    var settled: map<string, Settled>
    var actions: seq<Action>

    /** `new RedisManager()` before `init`. */
    constructor ()
      ensures !publisherOpen && channels == {} && listenerEvents == {} && settled == map[] && actions == []
    {
      publisherOpen, channels, listenerEvents, settled, actions := false, {}, {}, map[], [];
    }

    /** `init`: both connections are open. */
    method Init()
      modifies this
      ensures publisherOpen
      ensures channels == old(channels) && listenerEvents == old(listenerEvents)
      ensures settled == old(settled) && actions == old(actions)
    {
      publisherOpen := true;
    }

    /** `sendToWorker(job)`, with `freshId` the `v4()` drawn for it. A missing job or a
        closed publisher sends nothing and returns `undefined`. Otherwise the tagged job
        is pushed first and the channel is subscribed second. */
    method SendToWorker(job: Option<Submission>, freshId: string, store: Store) returns (sent: Sent)
      modifies this, store
      ensures job.None? || !old(publisherOpen) ==>
        && sent == Undefined && store.queue == old(store.queue)
        && channels == old(channels) && actions == old(actions)
      ensures job.Some? && old(publisherOpen) ==>
        && sent == Pending(freshId)
        && store.queue == [Tagged(job.value, freshId)] + old(store.queue)
        && channels == old(channels) + {freshId}
        && actions == old(actions) + [Pushed(freshId), Subscribed(freshId)]
      ensures publisherOpen == old(publisherOpen) && listenerEvents == old(listenerEvents) && settled == old(settled)
      ensures store.resultLists == old(store.resultLists) && store.published == old(store.published)
    {
      if job.None? {
        return Undefined;
      }
      if !publisherOpen {
        return Undefined;
      }
      var executableJob := Tagged(job.value, freshId);
      store.PushJob(executableJob);
      actions := actions + [Pushed(freshId)];
      channels := channels + {freshId};
      actions := actions + [Subscribed(freshId)];
      return Pending(freshId);
    }

    /** The subscription's callback for a message on `channel`: the promise resolves with
        the parsed result, or rejects with the parse error, and either way the channel is
        unsubscribed and every `message` and `error` listener of the shared subscriber is
        removed, whoever added it. A channel no longer subscribed receives nothing. */
    method OnMessage(channel: string, parsed: Option<JobResult>, parseError: string)
      modifies this
      ensures channel !in old(channels) ==>
        channels == old(channels) && listenerEvents == old(listenerEvents) && settled == old(settled) && actions == old(actions)
      ensures channel in old(channels) ==>
        && settled == old(settled)[channel := if parsed.Some? then Resolved(parsed.value) else Rejected(parseError)]
        && channels == old(channels) - {channel}
        && listenerEvents == old(listenerEvents) - {"message", "error"}
        && actions == old(actions) + [Unsubscribed(channel), ListenersRemoved]
      ensures publisherOpen == old(publisherOpen)
    {
      if channel !in channels {
        return;
      }
      if parsed.Some? {
        settled := settled[channel := Resolved(parsed.value)];
      } else {
        settled := settled[channel := Rejected(parseError)];
      }
      channels := channels - {channel};
      actions := actions + [Unsubscribed(channel)];
      listenerEvents := listenerEvents - {"message", "error"};
      actions := actions + [ListenersRemoved];
    }
  }

  /** The static field `RedisManager.instance`. */
  class Registry {
    var instance: Manager?

    constructor ()
      ensures instance == null
    {
      instance := null;
    }

    /** `new RedisManager()`: the existing instance if there is one, else a new manager
        that becomes the instance. */
    method Construct() returns (m: Manager)
      modifies this
      ensures old(instance) != null ==> m == old(instance) && instance == old(instance)
      ensures old(instance) == null ==> fresh(m) && instance == m && !m.publisherOpen
    {
      if instance != null {
        return instance;
      }
      m := new Manager();
      instance := m;
    }

    /** `getInstance()`: the existing instance untouched, or a new one, connected. */
    method GetInstance() returns (m: Manager)
      modifies this
      ensures old(instance) != null ==> m == old(instance) && instance == old(instance) && unchanged(m)
      ensures old(instance) == null ==> fresh(m) && instance == m && m.publisherOpen
    {
      if instance != null {
        return instance;
      }
      m := Construct();
      m.Init();
    }
  }
}
